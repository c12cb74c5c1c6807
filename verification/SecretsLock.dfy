/**
  The secrets lock of one tab (apps/web/src/secrets/lock.ts): keys held until the page is
  hidden, or until nothing has been done in it for a while, and zeroed when let go of.
 */
module SecretsLock {
  import opened Options

  // ----- The automaton -----------------------------------------------------------------

  /** The lock, and the page and the clock it goes by. Times are in milliseconds. */
  datatype Lock = Lock(
    held: set<string>, prompts: nat, last: Option<int>, timer: Option<int>, listening: bool, now: int, hidden: bool)

  datatype Event =
    | Hold(source: string)
    | LockOne(source: string)
    | LockAll
    | Activity
    | Hide
    | Show
    | OpenPrompt
    | ClosePrompt
    | Pass(ms: nat)
    | TimerFires

  function StopListening(s: Lock): Lock {
    s.(listening := false, timer := None)
  }

  /** `lock`: those named that are held go; with the last of them the page is no longer listened to. */
  function Locked(s: Lock, going: set<string>): Lock {
    if s.held * going == {} then s
    else
      var left := s.(held := s.held - going);
      if left.held == {} then StopListening(left) else left
  }

  function OnVisibility(s: Lock): Lock {
    if s.hidden && s.prompts == 0 then Locked(s, s.held) else s
  }

  function OnActivity(s: Lock): Lock {
    s.(last := Some(s.now))
  }

  function Schedule(s: Lock, ms: int): Lock {
    s.(timer := Some(s.now + ms))
  }

  function StartListening(s: Lock, idleMs: nat): Lock {
    Schedule(OnActivity(s.(listening := true)), idleMs)
  }

  /** `check`: with no prompt open and `idleMs` gone since the last activity, locked; if not, the timer is set anew. */
  function Check(s: Lock, idleMs: nat): Lock {
    var quiet := s.(timer := None);
    if s.held == {} then quiet
    else
      var idle := if s.last.Some? then s.now - s.last.value else 0;
      if idle >= idleMs && s.prompts == 0 then Locked(quiet, quiet.held)
      else Schedule(quiet, if idle >= idleMs then idleMs else idleMs - idle)
  }

  function Held(s: Lock, source: string, idleMs: nat): Lock {
    var first := s.held == {};
    var holding := s.(held := s.held + {source});
    OnVisibility(if first then StartListening(holding, idleMs) else OnActivity(holding))
  }

  /** A timer fires when it is due: time does not pass it by. A prompt that closes was open. */
  predicate IsEnabled(s: Lock, e: Event) {
    match e
    case Pass(ms) => s.timer.None? || s.now + ms <= s.timer.value
    case TimerFires => s.timer == Some(s.now)
    case ClosePrompt => s.prompts > 0
    case _ => true
  }

  function Step(s: Lock, e: Event, idleMs: nat): Lock
    requires IsEnabled(s, e)
  {
    match e
    case Hold(source) => Held(s, source, idleMs)
    case LockOne(source) => Locked(s, {source})
    case LockAll => Locked(s, s.held)
    case Activity => if s.listening then OnActivity(s) else s
    case Hide => var gone := s.(hidden := true); if s.listening then OnVisibility(gone) else gone
    case Show => s.(hidden := false)
    case OpenPrompt => s.(prompts := s.prompts + 1)
    case ClosePrompt => OnVisibility(OnActivity(s.(prompts := s.prompts - 1)))
    case Pass(ms) => s.(now := s.now + ms)
    case TimerFires => Check(s, idleMs)
  }

  /**
    The page is listened to, and a timer runs, exactly while something is held; the timer
    is due no later than the page will have been idle too long, or than `idleMs` from now
    while a prompt is open; and nothing is held in a hidden page but for a prompt.
   */
  ghost predicate Inv(s: Lock, idleMs: nat) {
    && (s.held != {} <==> s.listening) && (s.held != {} <==> s.timer.Some?)
    && (s.held != {} ==>
          && s.last.Some? && s.last.value <= s.now <= s.timer.value <= s.now + idleMs
          && (s.prompts == 0 ==> s.timer.value <= s.last.value + idleMs))
    && (s.hidden && s.prompts == 0 ==> s.held == {})
  }

  lemma StepKeeps(s: Lock, e: Event, idleMs: nat)
    requires Inv(s, idleMs) && IsEnabled(s, e)
    ensures Inv(Step(s, e, idleMs), idleMs)
  {
    match e {
      case LockAll =>
        assert s.held * s.held == s.held && s.held - s.held == {};
      case Hold(source) =>
        var more := s.held + {source};
        assert source in more;
        assert more * more == more && more - more == {};
      case Hide => assert s.held * s.held == s.held && s.held - s.held == {};
      case ClosePrompt => assert s.held * s.held == s.held && s.held - s.held == {};
      case TimerFires => assert s.held * s.held == s.held && s.held - s.held == {};
      case _ =>
    }
  }

  /** A tab as it starts: nothing held, no prompt open. */
  function Start(now: int, hidden: bool): Lock {
    Lock({}, 0, None, None, false, now, hidden)
  }

  ghost predicate Runs(s: Lock, events: seq<Event>, idleMs: nat)
    decreases |events|
  {
    events == [] || (IsEnabled(s, events[0]) && Runs(Step(s, events[0], idleMs), events[1..], idleMs))
  }

  ghost function Final(s: Lock, events: seq<Event>, idleMs: nat): Lock
    requires Runs(s, events, idleMs)
    decreases |events|
  {
    if events == [] then s else Final(Step(s, events[0], idleMs), events[1..], idleMs)
  }

  lemma {:induction false} RunKeeps(s: Lock, events: seq<Event>, idleMs: nat)
    requires Inv(s, idleMs) && Runs(s, events, idleMs)
    ensures Inv(Final(s, events, idleMs), idleMs)
    decreases |events|
  {
    hide Step, Inv, IsEnabled;
    if events != [] {
      StepKeeps(s, events[0], idleMs);
      RunKeeps(Step(s, events[0], idleMs), events[1..], idleMs);
    }
  }

  /**
    In every run of a tab: while anything is held and no prompt is open, the page has been
    idle for no longer than it may be; a hidden page with no prompt open holds nothing;
    and the page is listened to exactly while something is held.
   */
  lemma LockIsKept(now: int, hidden: bool, events: seq<Event>, idleMs: nat)
    requires Runs(Start(now, hidden), events, idleMs)
    ensures var s := Final(Start(now, hidden), events, idleMs);
            && (s.held != {} && s.prompts == 0 ==> s.last.Some? && 0 <= s.now - s.last.value <= idleMs)
            && (s.hidden && s.prompts == 0 ==> s.held == {})
            && (s.held != {} <==> s.listening) && (s.held != {} <==> s.timer.Some?)
  {
    RunKeeps(Start(now, hidden), events, idleMs);
  }

  /** What an idle page does is wait and be looked at. */
  predicate IsQuiet(e: Event) {
    e.Pass? || e.TimerFires? || e.Show?
  }

  /** Left alone for `idleMs` with no prompt open, and then looked at, a tab is locked. */
  lemma {:induction false} IdlePageLocks(s: Lock, events: seq<Event>, idleMs: nat)
    requires Inv(s, idleMs) && Runs(s, events, idleMs) && s.prompts == 0
    requires forall e :: e in events ==> IsQuiet(e)
    ensures var t := Final(s, events, idleMs);
            && t.prompts == 0 && t.held <= s.held
            && (t.held != {} ==> t.last == s.last)
            && (s.held != {} && t.now > s.last.value + idleMs ==> t.held == {})
    decreases |events|
  {
    hide Inv;
    RunKeeps(s, events, idleMs);
    if events != [] {
      assert IsQuiet(events[0]) && forall e :: e in events[1..] ==> e in events;
      StepKeeps(s, events[0], idleMs);
      QuietStep(s, events[0], idleMs);
      IdlePageLocks(Step(s, events[0], idleMs), events[1..], idleMs);
    }
    HeldIsRecent(Final(s, events, idleMs), idleMs);
    HeldIsRecent(s, idleMs);
  }

  lemma HeldIsRecent(s: Lock, idleMs: nat)
    requires Inv(s, idleMs)
    ensures s.held != {} ==> s.last.Some? && (s.prompts == 0 ==> s.now <= s.last.value + idleMs)
  {}

  lemma QuietStep(s: Lock, e: Event, idleMs: nat)
    requires IsEnabled(s, e) && IsQuiet(e) && s.prompts == 0
    ensures var t := Step(s, e, idleMs); t.prompts == 0 && t.held <= s.held && t.last == s.last
  {}

  /**
    A source is held after an event exactly when it was, or was just unlocked, and nothing has
    locked it: not the user, nor a page hidden with no prompt open, nor the timer of one that
    nothing was done in for `idleMs`.
   */
  lemma HeldIff(s: Lock, e: Event, idleMs: nat, source: string)
    requires Inv(s, idleMs) && IsEnabled(s, e)
    ensures var t := Step(s, e, idleMs);
            source in t.held <==>
              && (source in s.held || e == Hold(source))
              && e != LockOne(source) && e != LockAll
              && !(t.hidden && t.prompts == 0)
              && !(e.TimerFires? && s.prompts == 0 && s.now >= s.last.value + idleMs)
  {
    hide Locked;
    match e {
      case LockOne(each) => LockedHolds(s, {each});
      case LockAll => LockedHolds(s, s.held);
      case Hold(each) =>
        var more := OnActivity(s.(held := s.held + {each}));
        LockedHolds(more, more.held);
        var started := StartListening(s.(held := s.held + {each}), idleMs);
        LockedHolds(started, started.held);
      case Hide => LockedHolds(s.(hidden := true), s.held);
      case ClosePrompt => LockedHolds(OnActivity(s.(prompts := s.prompts - 1)), s.held);
      case TimerFires => LockedHolds(s.(timer := None), s.held);
      case _ =>
    }
  }

  lemma LockedHolds(s: Lock, going: set<string>)
    ensures var t := Locked(s, going);
            t.held == s.held - going && t.prompts == s.prompts && t.last == s.last && t.hidden == s.hidden && t.now == s.now
  {
    if s.held * going == {} {
      forall source | source in s.held
        ensures source !in going
      {
        assert source in going ==> source in s.held * going;
      }
    }
  }

  /** What counts as something done: a key or a pointer while anything is held, an unlock, and a prompt that closes. */
  lemma ActivityIs(s: Lock, e: Event, idleMs: nat)
    requires Inv(s, idleMs) && IsEnabled(s, e)
    ensures var t := Step(s, e, idleMs);
            && t.last == (if e.Hold? || e.ClosePrompt? || (e.Activity? && s.held != {}) then Some(s.now) else s.last)
            && t.now == (if e.Pass? then s.now + e.ms else s.now)
            && t.hidden == (if e.Hide? then true else if e.Show? then false else s.hidden)
            && t.prompts == s.prompts + (if e.OpenPrompt? then 1 else if e.ClosePrompt? then -1 else 0)
  {}

  /** Nothing of an event locks the source: it is used, or at least not left alone. */
  ghost predicate IsInUse(s: Lock, events: seq<Event>, idleMs: nat, source: string)
    requires Runs(s, events, idleMs)
    decreases |events|
  {
    events == [] ||
    (var t := Step(s, events[0], idleMs);
     && events[0] != LockOne(source) && events[0] != LockAll
     && !(t.hidden && t.prompts == 0)
     && !(events[0].TimerFires? && s.prompts == 0 && s.last.Some? && s.now >= s.last.value + idleMs)
     && IsInUse(t, events[1..], idleMs, source))
  }

  /** A source unlocked stays so over any run in which it is not locked, the page is seen or prompts, and it is not left idle. */
  lemma {:induction false} StaysHeldInUse(s: Lock, events: seq<Event>, idleMs: nat, source: string)
    requires Inv(s, idleMs) && Runs(s, events, idleMs) && source in s.held && IsInUse(s, events, idleMs, source)
    ensures source in Final(s, events, idleMs).held
    decreases |events|
  {
    hide Step, Inv, IsEnabled;
    if events != [] {
      HeldHasLast(s, idleMs);
      StepKeeps(s, events[0], idleMs);
      HeldIff(s, events[0], idleMs, source);
      StaysHeldInUse(Step(s, events[0], idleMs), events[1..], idleMs, source);
    }
  }

  lemma HeldHasLast(s: Lock, idleMs: nat)
    requires Inv(s, idleMs) && s.held != {}
    ensures s.last.Some?
  {}

  // ----- The lock itself ---------------------------------------------------------------

  /** What a source was unlocked with: the identities, each a buffer. */
  class UnlockedKeys {
    const source: string
    const identities: seq<array<int>>

    constructor (source: string, identities: seq<array<int>>)
      ensures this.source == source && this.identities == identities
    {
      this.source, this.identities := source, identities;
    }
  }

  ghost predicate IsZero(buffer: array<int>)
    reads buffer
  {
    forall i :: 0 <= i < buffer.Length ==> buffer[i] == 0
  }

  function Buffers(keys: UnlockedKeys): set<array<int>> {
    set i | 0 <= i < |keys.identities| :: keys.identities[i]
  }

  method Fill(buffer: array<int>)
    modifies buffer
    ensures IsZero(buffer)
  {
    for i := 0 to buffer.Length
      invariant forall j :: 0 <= j < i ==> buffer[j] == 0
    {
      buffer[i] := 0;
    }
  }

  /** Every buffer of the keys that is not in `kept` is zero afterwards. */
  method Wipe(keys: UnlockedKeys, kept: set<array<int>>)
    modifies Buffers(keys) - kept
    ensures forall buffer :: buffer in Buffers(keys) && buffer !in kept ==> IsZero(buffer)
  {
    for i := 0 to |keys.identities|
      invariant forall j :: 0 <= j < i && keys.identities[j] !in kept ==> IsZero(keys.identities[j])
    {
      if keys.identities[i] !in kept {
        Fill(keys.identities[i]);
      }
    }
  }

  /** Every buffer of some of the sources held. */
  function BuffersOf(held: map<string, UnlockedKeys>, sources: set<string>): set<array<int>> {
    set source, buffer | source in sources && source in held && buffer in Buffers(held[source]) :: buffer
  }

  predicate IsOf(held: map<string, UnlockedKeys>, source: string, buffer: array<int>) {
    source in held && buffer in Buffers(held[source])
  }

  method WipeAll(held: map<string, UnlockedKeys>, going: set<string>)
    requires going <= held.Keys
    modifies BuffersOf(held, going)
    ensures forall buffer :: buffer in BuffersOf(held, going) ==> IsZero(buffer)
  {
    var left := going;
    while left != {}
      invariant left <= going
      invariant forall buffer :: buffer in BuffersOf(held, going - left) ==> IsZero(buffer)
      decreases |left|
    {
      var source :| source in left;
      assert forall buffer :: buffer in Buffers(held[source]) ==> buffer in BuffersOf(held, going);
      Wipe(held[source], {});
      left := left - {source};
      assert forall buffer :: buffer in BuffersOf(held, going - left) ==>
        buffer in BuffersOf(held, going - left - {source}) || buffer in Buffers(held[source]);
    }
    assert going - {} == going;
  }

  class Tab {
    const idleMs: nat
    var held: map<string, UnlockedKeys>
    var prompts: nat
    var last: Option<int>
    var timer: Option<int>
    var listening: bool
    var now: int
    var hidden: bool

    function State(): Lock
      reads this
    {
      Lock(held.Keys, prompts, last, timer, listening, now, hidden)
    }

    /** Every buffer of every source held. */
    function AllBuffers(): set<array<int>>
      reads this
    {
      BuffersOf(held, held.Keys)
    }

    constructor (idleMs: nat, now: int, hidden: bool)
      ensures this.idleMs == idleMs && State() == Start(now, hidden) && Inv(State(), idleMs)
    {
      this.idleMs, this.now, this.hidden := idleMs, now, hidden;
      held, prompts, last, timer, listening := map[], 0, None, None, false;
    }

    /** `lock`: what goes is zeroed, whoever else has a hold of it, and nothing else is. */
    method LetGo(going: set<string>)
      modifies this, BuffersOf(held, going)
      ensures State() == Locked(old(State()), going)
      ensures held == old(held) - going
      ensures forall buffer :: buffer in BuffersOf(old(held), going) ==> IsZero(buffer)
    {
      var gone := held.Keys * going;
      if gone == {} {
        assert forall source :: source in held && source in going ==> source in gone;
        assert held - going == held;
        assert BuffersOf(held, going) == {};
        return;
      }
      assert BuffersOf(held, gone) == BuffersOf(held, going);
      WipeAll(held, gone);
      var was := held;
      held := held - going;
      assert held.Keys == was.Keys - going;
      if held.Keys == {} {
        listening, timer := false, None;
      }
    }

    /** New keys for a source: of the ones replaced, every buffer the new ones do not share is zeroed. */
    method HoldKeys(keys: UnlockedKeys)
      requires Inv(State(), idleMs)
      modifies this, AllBuffers(), Buffers(keys)
      ensures State() == Step(old(State()), Hold(keys.source), idleMs) && Inv(State(), idleMs)
      ensures held == if State().held == {} then map[] else old(held)[keys.source := keys]
      ensures keys.source in old(held) ==>
                forall buffer :: buffer in Buffers(old(held)[keys.source]) && buffer !in Buffers(keys) ==> IsZero(buffer)
      ensures held == map[] ==> forall buffer :: buffer in Buffers(keys) ==> IsZero(buffer)
      ensures held != map[] ==> forall buffer :: buffer in Buffers(keys) ==> buffer[..] == old(buffer[..])
      ensures held != map[] ==> forall buffer :: buffer in old(AllBuffers()) && !IsOf(old(held), keys.source, buffer) ==>
                buffer[..] == old(buffer[..])
    {
      StepKeeps(State(), Hold(keys.source), idleMs);
      ghost var before := State();
      if keys.source in held && held[keys.source] != keys {
        assert forall buffer :: buffer in Buffers(held[keys.source]) ==> buffer in AllBuffers();
        Wipe(held[keys.source], Buffers(keys));
      }
      var first := held.Keys == {};
      var was := held;
      held := held[keys.source := keys];
      assert held.Keys == was.Keys + {keys.source};
      last := Some(now);
      if first {
        listening, timer := true, Some(now + idleMs);
      }
      if hidden && prompts == 0 {
        OnlyThese(before, was, keys);
        assert held == map[keys.source := keys];
        assert BuffersOf(held, held.Keys) == Buffers(keys);
        LetGo(held.Keys);
      } else {
        assert keys.source in State().held;
      }
    }

    /** `check`, when its timer fires. */
    method TimerFired()
      requires Inv(State(), idleMs) && IsEnabled(State(), TimerFires)
      modifies this, AllBuffers()
      ensures State() == Step(old(State()), TimerFires, idleMs) && Inv(State(), idleMs)
      ensures held == old(held) || (held == map[] && forall buffer :: buffer in old(AllBuffers()) ==> IsZero(buffer))
      ensures held == old(held) ==> forall buffer :: buffer in AllBuffers() ==> buffer[..] == old(buffer[..])
    {
      StepKeeps(State(), TimerFires, idleMs);
      timer := None;
      if held.Keys == {} { return; }
      var idle := if last.Some? then now - last.value else 0;
      if idle >= idleMs && prompts == 0 {
        LockEverything();
        return;
      }
      timer := Some(now + if idle >= idleMs then idleMs else idleMs - idle);
    }

    method LockEverything()
      modifies this, AllBuffers()
      ensures State() == Locked(old(State()), old(State()).held) && held == map[]
      ensures forall buffer :: buffer in old(AllBuffers()) ==> IsZero(buffer)
    {
      LetGo(held.Keys);
      assert held.Keys == {};
    }

    /** The page hidden. */
    method Hidden()
      requires Inv(State(), idleMs)
      modifies this, AllBuffers()
      ensures State() == Step(old(State()), Hide, idleMs) && Inv(State(), idleMs)
      ensures held == old(held) || (held == map[] && forall buffer :: buffer in old(AllBuffers()) ==> IsZero(buffer))
      ensures held == old(held) ==> forall buffer :: buffer in AllBuffers() ==> buffer[..] == old(buffer[..])
    {
      StepKeeps(State(), Hide, idleMs);
      hidden := true;
      if listening && prompts == 0 {
        LockEverything();
      }
    }

    /** One prompt fewer. It counts as activity, and with the last prompt gone a hidden page locks. */
    method PromptClosed()
      requires Inv(State(), idleMs) && prompts > 0
      modifies this, AllBuffers()
      ensures State() == Step(old(State()), ClosePrompt, idleMs) && Inv(State(), idleMs)
      ensures held == old(held) || (held == map[] && forall buffer :: buffer in old(AllBuffers()) ==> IsZero(buffer))
      ensures held == old(held) ==> forall buffer :: buffer in AllBuffers() ==> buffer[..] == old(buffer[..])
    {
      StepKeeps(State(), ClosePrompt, idleMs);
      prompts := prompts - 1;
      last := Some(now);
      if hidden && prompts == 0 {
        LockEverything();
      }
    }
  }

  /** In a hidden page with no prompt open, keys just held are all that is held. */
  lemma OnlyThese(s: Lock, held: map<string, UnlockedKeys>, keys: UnlockedKeys)
    requires held.Keys == s.held && (s.hidden && s.prompts == 0 ==> s.held == {})
    ensures s.hidden && s.prompts == 0 ==> held == map[]
  {}
}
