/**
  Object URLs counted by the views that hold them, and let go of a grace after the last
  does (apps/web/src/lib/objectUrls.ts).
 */
module ObjectUrls {
  import opened Options

  /** One URL: the holds on it now, and when its revoke is due while nothing holds it. */
  datatype Entry = Entry(key: string, holds: int, pending: Option<int>)

  /** One view's hold, and when it was let go of. */
  datatype Handle = Handle(entry: nat, released: Option<int>)

  datatype Revoked = Revoked(entry: nat, at: int)

  /** Every URL made, the one each key has, every hold there has been, and what has been revoked, in order. */
  datatype Cache = Cache(
    entries: seq<Entry>, known: map<string, nat>, handles: seq<Handle>, revoked: seq<Revoked>, now: int)

  datatype Event = Acquire(key: string) | Reuse(key: string) | Release(handle: nat) | Pass(ms: nat) | TimerFires(entry: nat)

  /** Timers fire when they are due: time passes none of them by. */
  predicate IsEnabled(c: Cache, e: Event) {
    match e
    case Release(handle) => handle < |c.handles| && c.handles[handle].entry < |c.entries|
    case Pass(ms) => forall i :: 0 <= i < |c.entries| && c.entries[i].pending.Some? ==> c.now + ms <= c.entries[i].pending.value
    case TimerFires(i) => i < |c.entries| && c.entries[i].pending == Some(c.now)
    case _ => true
  }

  function Put(c: Cache, at: nat, e: Entry): Cache
    requires at < |c.entries|
  {
    c.(entries := c.entries[at := e])
  }

  /** A new handle on the entry, which is no longer pending. */
  function Hold(c: Cache, at: nat): Cache
    requires at < |c.entries|
  {
    var e := c.entries[at];
    Put(c, at, Entry(e.key, e.holds + 1, None)).(handles := c.handles + [Handle(at, None)])
  }

  function LetGo(c: Cache, handle: nat, graceMs: nat): Cache
    requires handle < |c.handles| && c.handles[handle].entry < |c.entries|
  {
    var h := c.handles[handle];
    if h.released.Some? then c
    else
      var e := c.entries[h.entry];
      var left := e.holds - 1;
      Put(c, h.entry, Entry(e.key, left, if left > 0 then e.pending else Some(c.now + graceMs)))
        .(handles := c.handles[handle := Handle(h.entry, Some(c.now))])
  }

  function Forget(c: Cache, at: nat): Cache
    requires at < |c.entries|
  {
    var e := c.entries[at];
    Put(c, at, e.(pending := None)).(known := c.known - {e.key}, revoked := c.revoked + [Revoked(at, c.now)])
  }

  function Step(c: Cache, e: Event, graceMs: nat): Cache
    requires IsEnabled(c, e)
  {
    match e
    case Acquire(key) =>
      if key in c.known && c.known[key] < |c.entries| then Hold(c, c.known[key])
      else Hold(c.(entries := c.entries + [Entry(key, 0, None)], known := c.known[key := |c.entries|]), |c.entries|)
    case Reuse(key) => if key in c.known && c.known[key] < |c.entries| then Hold(c, c.known[key]) else c
    case Release(handle) => LetGo(c, handle, graceMs)
    case Pass(ms) => c.(now := c.now + ms)
    case TimerFires(at) => Forget(c, at)
  }

  /** The holds on a URL nobody has let go of. */
  function Held(c: Cache, at: nat): set<nat> {
    set h | 0 <= h < |c.handles| && c.handles[h].entry == at && c.handles[h].released.None?
  }

  predicate IsRevoked(c: Cache, at: nat) {
    exists i :: 0 <= i < |c.revoked| && c.revoked[i].entry == at
  }

  /** A key has the one URL made for it that is not revoked. */
  ghost predicate KeysAreKnown(c: Cache) {
    && (forall key :: key in c.known ==>
          c.known[key] < |c.entries| && c.entries[c.known[key]].key == key && !IsRevoked(c, c.known[key]))
    && (forall i: nat :: i < |c.entries| && !IsRevoked(c, i) ==> c.entries[i].key in c.known && c.known[c.entries[i].key] == i)
  }

  ghost predicate HoldsAreCounted(c: Cache) {
    && (forall h :: 0 <= h < |c.handles| ==> c.handles[h].entry < |c.entries|)
    && (forall i: nat :: i < |c.entries| ==> c.entries[i].holds == |Held(c, i)|)
  }

  /** Every hold on a URL was let go of at least a grace before a time. */
  ghost predicate IsFreeSince(c: Cache, at: nat, since: int) {
    forall h :: 0 <= h < |c.handles| && c.handles[h].entry == at ==>
      c.handles[h].released.Some? && c.handles[h].released.value <= since
  }

  /** A revoke is pending exactly while nothing holds the URL, a grace after the last hold went. */
  ghost predicate PendsRightly(c: Cache, i: nat, graceMs: nat)
    requires i < |c.entries|
  {
    && (c.entries[i].pending.Some? ==> !IsRevoked(c, i) && c.now <= c.entries[i].pending.value
                                       && IsFreeSince(c, i, c.entries[i].pending.value - graceMs))
    && (c.entries[i].pending.None? ==> IsRevoked(c, i) || Held(c, i) != {})
  }

  ghost predicate RevokesArePending(c: Cache, graceMs: nat) {
    forall i: nat :: i < |c.entries| ==> PendsRightly(c, i, graceMs)
  }

  ghost predicate ReleasedByNow(c: Cache) {
    forall h :: 0 <= h < |c.handles| && c.handles[h].released.Some? ==> c.handles[h].released.value <= c.now
  }

  /** A URL is revoked once at most, and only a full grace after the last hold on it went. */
  ghost predicate RevokedRightly(c: Cache, graceMs: nat) {
    && (forall i :: 0 <= i < |c.revoked| ==>
          c.revoked[i].entry < |c.entries| && IsFreeSince(c, c.revoked[i].entry, c.revoked[i].at - graceMs))
    && (forall i, j :: 0 <= i < j < |c.revoked| ==> c.revoked[i].entry != c.revoked[j].entry)
  }

  ghost predicate Inv(c: Cache, graceMs: nat) {
    && KeysAreKnown(c) && HoldsAreCounted(c) && ReleasedByNow(c)
    && RevokesArePending(c, graceMs) && RevokedRightly(c, graceMs)
  }

  // ----- A hold ------------------------------------------------------------------------

  lemma HoldHeld(c: Cache, at: nat)
    requires at < |c.entries| && forall h :: 0 <= h < |c.handles| ==> c.handles[h].entry < |c.entries|
    ensures var d := Hold(c, at);
            && Held(d, at) == Held(c, at) + {|c.handles|}
            && |Held(d, at)| == |Held(c, at)| + 1
            && forall i: nat :: i != at ==> Held(d, i) == Held(c, i)
  {
    var d := Hold(c, at);
    assert forall h :: 0 <= h < |c.handles| ==> d.handles[h] == c.handles[h];
    assert Held(d, at) == Held(c, at) + {|c.handles|};
    forall i: nat | i != at
      ensures Held(d, i) == Held(c, i)
    {}
  }

  lemma HoldKeeps(c: Cache, at: nat, graceMs: nat)
    requires KeysAreKnown(c) && HoldsAreCounted(c) && ReleasedByNow(c) && RevokedRightly(c, graceMs)
    requires at < |c.entries| && !IsRevoked(c, at)
    requires forall i: nat :: i < |c.entries| && i != at ==> PendsRightly(c, i, graceMs)
    ensures Inv(Hold(c, at), graceMs)
  {
    HoldHeld(c, at);
    var d := Hold(c, at);
    assert d.revoked == c.revoked && forall i: nat :: IsRevoked(d, i) == IsRevoked(c, i);
    HoldKeepsRevokes(c, d, at, graceMs);
    HoldKeepsKeys(c, at);
    assert |c.handles| in Held(d, at);
    hide IsRevoked, Held, IsFreeSince, KeysAreKnown, HoldsAreCounted, RevokedRightly;
    forall i: nat | i < |d.entries|
      ensures PendsRightly(d, i, graceMs)
    {
      if i != at {
        assert PendsRightly(c, i, graceMs);
      }
    }
  }

  lemma HoldKeepsKeys(c: Cache, at: nat)
    requires KeysAreKnown(c) && HoldsAreCounted(c) && ReleasedByNow(c) && at < |c.entries| && !IsRevoked(c, at)
    ensures KeysAreKnown(Hold(c, at)) && HoldsAreCounted(Hold(c, at)) && ReleasedByNow(Hold(c, at))
  {
    HoldHeld(c, at);
    assert forall i: nat :: IsRevoked(Hold(c, at), i) == IsRevoked(c, i);
    hide IsRevoked, Held;
  }

  lemma HoldKeepsRevokes(c: Cache, d: Cache, at: nat, graceMs: nat)
    requires at < |c.entries| && d == Hold(c, at) && !IsRevoked(c, at) && RevokedRightly(c, graceMs)
    ensures RevokedRightly(d, graceMs)
    ensures forall i: nat, since: int :: i != at && IsFreeSince(c, i, since) ==> IsFreeSince(d, i, since)
  {
    assert forall i :: 0 <= i < |c.revoked| ==> IsRevoked(c, c.revoked[i].entry);
    forall i: nat, since: int | i != at && IsFreeSince(c, i, since)
      ensures IsFreeSince(d, i, since)
    {}
  }

  /** A URL just made, held by nobody yet. */
  lemma MakeKeeps(c: Cache, key: string, graceMs: nat)
    requires Inv(c, graceMs) && key !in c.known
    ensures var d := c.(entries := c.entries + [Entry(key, 0, None)], known := c.known[key := |c.entries|]);
            && KeysAreKnown(d) && HoldsAreCounted(d) && ReleasedByNow(d) && RevokedRightly(d, graceMs)
            && !IsRevoked(d, |c.entries|)
            && forall i: nat :: i < |c.entries| ==> PendsRightly(d, i, graceMs)
  {
    var n := |c.entries|;
    var d := c.(entries := c.entries + [Entry(key, 0, None)], known := c.known[key := n]);
    assert forall i: nat :: IsRevoked(d, i) == IsRevoked(c, i) && Held(d, i) == Held(c, i);
    assert forall i: nat :: i < n ==> d.entries[i] == c.entries[i];
    assert !IsRevoked(d, n) && Held(d, n) == {};
    forall i: nat, since: int | IsFreeSince(c, i, since)
      ensures IsFreeSince(d, i, since)
    {}
    hide IsRevoked, Held, IsFreeSince;
    forall i: nat | i < n
      ensures PendsRightly(d, i, graceMs)
    {
      assert PendsRightly(c, i, graceMs);
    }
  }

  // ----- A release ---------------------------------------------------------------------

  lemma ReleaseHeld(c: Cache, handle: nat, graceMs: nat)
    requires handle < |c.handles| && c.handles[handle].entry < |c.entries| && c.handles[handle].released.None?
    ensures var d, at := LetGo(c, handle, graceMs), c.handles[handle].entry;
            && Held(d, at) == Held(c, at) - {handle} && handle in Held(c, at)
            && |Held(d, at)| == |Held(c, at)| - 1
            && forall i: nat :: i != at ==> Held(d, i) == Held(c, i)
  {
    var d, at := LetGo(c, handle, graceMs), c.handles[handle].entry;
    assert handle in Held(c, at);
    assert Held(d, at) == Held(c, at) - {handle};
    forall i: nat | i != at
      ensures Held(d, i) == Held(c, i)
    {}
  }

  lemma HeldIsNotRevoked(c: Cache, handle: nat, graceMs: nat)
    requires RevokedRightly(c, graceMs) && handle < |c.handles| && c.handles[handle].released.None?
    ensures !IsRevoked(c, c.handles[handle].entry)
  {}

  lemma ReleaseKeeps(c: Cache, handle: nat, graceMs: nat)
    requires Inv(c, graceMs) && IsEnabled(c, Release(handle))
    ensures Inv(LetGo(c, handle, graceMs), graceMs)
  {
    if c.handles[handle].released.None? {
      var d, at := LetGo(c, handle, graceMs), c.handles[handle].entry;
      ReleaseHeld(c, handle, graceMs);
      HeldIsNotRevoked(c, handle, graceMs);
      ReleasedIsFree(c, handle, graceMs);
      ReleaseKeepsFree(c, handle, graceMs);
      assert d.revoked == c.revoked && forall i: nat :: IsRevoked(d, i) == IsRevoked(c, i);
      assert forall i :: 0 <= i < |c.revoked| ==> IsRevoked(c, c.revoked[i].entry);
      HeldIsNotFree(c, handle);
      ReleaseKeepsParts(c, d, at, graceMs);
    }
  }

  lemma HeldIsNotFree(c: Cache, handle: nat)
    requires handle < |c.handles| && c.handles[handle].released.None?
    ensures forall since: int :: !IsFreeSince(c, c.handles[handle].entry, since)
  {}

  lemma ReleaseKeepsFree(c: Cache, handle: nat, graceMs: nat)
    requires handle < |c.handles| && c.handles[handle].entry < |c.entries|
    ensures var d := LetGo(c, handle, graceMs);
            forall i: nat, since: int :: i != c.handles[handle].entry && IsFreeSince(c, i, since) ==> IsFreeSince(d, i, since)
  {}

  lemma ReleaseKeepsParts(c: Cache, d: Cache, at: nat, graceMs: nat)
    requires Inv(c, graceMs) && at < |c.entries| && !IsRevoked(c, at) && d.revoked == c.revoked && d.known == c.known && d.now == c.now
    requires |d.handles| == |c.handles| && forall h :: 0 <= h < |c.handles| ==> d.handles[h].entry == c.handles[h].entry
    requires ReleasedByNow(d)
    requires forall i: nat :: IsRevoked(d, i) == IsRevoked(c, i)
    requires forall i :: 0 <= i < |c.revoked| ==> IsRevoked(c, c.revoked[i].entry)
    requires forall since: int :: !IsFreeSince(c, at, since)
    requires forall i: nat, since: int :: i != at && IsFreeSince(c, i, since) ==> IsFreeSince(d, i, since)
    requires forall i: nat :: i != at ==> Held(d, i) == Held(c, i)
    requires |Held(d, at)| == |Held(c, at)| - 1 && (Held(d, at) == {} ==> IsFreeSince(d, at, c.now))
    requires var left := c.entries[at].holds - 1;
             d.entries == c.entries[at := Entry(c.entries[at].key, left, if left > 0 then c.entries[at].pending else Some(c.now + graceMs))]
    ensures Inv(d, graceMs)
  {
    hide IsRevoked, Held, IsFreeSince;
    assert PendsRightly(c, at, graceMs);
    assert c.entries[at].pending.None?;
    forall i: nat | i < |d.entries|
      ensures PendsRightly(d, i, graceMs)
    {
      assert PendsRightly(c, i, graceMs);
    }
  }

  /** Once the last hold goes, every hold has gone by now. */
  lemma ReleasedIsFree(c: Cache, handle: nat, graceMs: nat)
    requires handle < |c.handles| && c.handles[handle].entry < |c.entries| && c.handles[handle].released.None?
    requires forall h :: 0 <= h < |c.handles| && c.handles[h].released.Some? ==> c.handles[h].released.value <= c.now
    ensures var d, at := LetGo(c, handle, graceMs), c.handles[handle].entry;
            Held(d, at) == {} ==> IsFreeSince(d, at, c.now)
  {
    var d, at := LetGo(c, handle, graceMs), c.handles[handle].entry;
    if Held(d, at) == {} {
      forall h | 0 <= h < |d.handles| && d.handles[h].entry == at
        ensures d.handles[h].released.Some? && d.handles[h].released.value <= c.now
      {
        assert h !in Held(d, at);
      }
    }
  }

  // ----- Timers ------------------------------------------------------------------------

  lemma ForgetKeeps(c: Cache, at: nat, graceMs: nat)
    requires Inv(c, graceMs) && IsEnabled(c, TimerFires(at))
    ensures Inv(Forget(c, at), graceMs)
  {
    var d := Forget(c, at);
    assert PendsRightly(c, at, graceMs);
    ForgottenIsRevoked(c, at);
    NothingHeldIsFree(c, d);
    ForgetKeepsKeys(c, at);
    ForgetKeepsRevokes(c, at, graceMs);
    hide IsRevoked, Held, IsFreeSince, KeysAreKnown, HoldsAreCounted, RevokedRightly;
    forall i: nat | i < |d.entries|
      ensures PendsRightly(d, i, graceMs)
    {
      assert PendsRightly(c, i, graceMs);
    }
  }

  lemma ForgetKeepsKeys(c: Cache, at: nat)
    requires KeysAreKnown(c) && HoldsAreCounted(c) && at < |c.entries| && !IsRevoked(c, at)
    ensures KeysAreKnown(Forget(c, at)) && HoldsAreCounted(Forget(c, at))
  {
    ForgottenIsRevoked(c, at);
    NothingHeldIsFree(c, Forget(c, at));
    hide IsRevoked, Held, IsFreeSince;
  }

  lemma ForgetKeepsRevokes(c: Cache, at: nat, graceMs: nat)
    requires RevokedRightly(c, graceMs) && at < |c.entries| && !IsRevoked(c, at)
    requires IsFreeSince(c, at, c.now - graceMs)
    ensures RevokedRightly(Forget(c, at), graceMs)
  {
    ForgottenIsRevoked(c, at);
    NothingHeldIsFree(c, Forget(c, at));
    hide IsRevoked, Held, IsFreeSince;
  }

  lemma ForgottenIsRevoked(c: Cache, at: nat)
    requires at < |c.entries|
    ensures forall i: nat :: IsRevoked(Forget(c, at), i) <==> IsRevoked(c, i) || i == at
    ensures forall i :: 0 <= i < |c.revoked| ==> IsRevoked(c, c.revoked[i].entry)
  {
    var d := Forget(c, at);
    assert forall i :: 0 <= i < |c.revoked| ==> d.revoked[i] == c.revoked[i];
    assert d.revoked[|c.revoked|].entry == at;
    forall i: nat
      ensures IsRevoked(d, i) <==> IsRevoked(c, i) || i == at
    {
      if IsRevoked(c, i) {
        var j :| 0 <= j < |c.revoked| && c.revoked[j].entry == i;
        assert d.revoked[j].entry == i;
      }
    }
  }

  lemma NothingHeldIsFree(c: Cache, d: Cache)
    requires d.handles == c.handles
    ensures forall i: nat, since: int :: IsFreeSince(d, i, since) == IsFreeSince(c, i, since)
    ensures forall i: nat :: Held(d, i) == Held(c, i)
  {
    forall i: nat
      ensures Held(d, i) == Held(c, i)
    {}
  }

  lemma PassKeeps(c: Cache, ms: nat, graceMs: nat)
    requires Inv(c, graceMs) && IsEnabled(c, Pass(ms))
    ensures Inv(c.(now := c.now + ms), graceMs)
  {
    var d := c.(now := c.now + ms);
    NothingHeldIsFree(c, d);
    assert forall i: nat :: IsRevoked(d, i) == IsRevoked(c, i);
    hide IsRevoked, Held, IsFreeSince;
    forall i: nat | i < |d.entries|
      ensures PendsRightly(d, i, graceMs)
    {
      assert PendsRightly(c, i, graceMs);
    }
  }

  // ----- Every run ---------------------------------------------------------------------

  lemma StepKeeps(c: Cache, e: Event, graceMs: nat)
    requires Inv(c, graceMs) && IsEnabled(c, e)
    ensures Inv(Step(c, e, graceMs), graceMs)
  {
    hide IsRevoked, Held, IsFreeSince, ReleasedByNow, RevokedRightly;
    match e {
      case Acquire(key) =>
        if key in c.known && c.known[key] < |c.entries| {
          HoldKeeps(c, c.known[key], graceMs);
        } else {
          MakeKeeps(c, key, graceMs);
          HoldKeeps(c.(entries := c.entries + [Entry(key, 0, None)], known := c.known[key := |c.entries|]), |c.entries|, graceMs);
        }
      case Reuse(key) =>
        if key in c.known && c.known[key] < |c.entries| {
          HoldKeeps(c, c.known[key], graceMs);
        }
      case Release(handle) => ReleaseKeeps(c, handle, graceMs);
      case Pass(ms) => PassKeeps(c, ms, graceMs);
      case TimerFires(at) => ForgetKeeps(c, at, graceMs);
    }
  }

  function Empty(now: int): Cache {
    Cache([], map[], [], [], now)
  }

  ghost predicate Runs(c: Cache, events: seq<Event>, graceMs: nat)
    decreases |events|
  {
    events == [] || (IsEnabled(c, events[0]) && Runs(Step(c, events[0], graceMs), events[1..], graceMs))
  }

  ghost function Final(c: Cache, events: seq<Event>, graceMs: nat): Cache
    requires Runs(c, events, graceMs)
    decreases |events|
  {
    if events == [] then c else Final(Step(c, events[0], graceMs), events[1..], graceMs)
  }

  lemma {:induction false} RunKeeps(c: Cache, events: seq<Event>, graceMs: nat)
    requires Inv(c, graceMs) && Runs(c, events, graceMs)
    ensures Inv(Final(c, events, graceMs), graceMs)
    decreases |events|
  {
    hide Step, Inv, IsEnabled;
    if events != [] {
      StepKeeps(c, events[0], graceMs);
      RunKeeps(Step(c, events[0], graceMs), events[1..], graceMs);
    }
  }

  /**
    In every run: a URL counts the holds nobody has let go of; one that is held, or may be
    handed out again, is not revoked; and each is revoked at most once, a full grace after
    the last hold on it went.
   */
  lemma UrlsOutliveTheirHolds(now: int, events: seq<Event>, graceMs: nat)
    requires Runs(Empty(now), events, graceMs)
    ensures var c := Final(Empty(now), events, graceMs);
            && (forall i: nat :: i < |c.entries| ==> c.entries[i].holds == |Held(c, i)|)
            && (forall i: nat :: i < |c.entries| && Held(c, i) != {} ==> !IsRevoked(c, i))
            && (forall key :: key in c.known ==> c.known[key] < |c.entries| && !IsRevoked(c, c.known[key]))
            && (forall i, j :: 0 <= i < j < |c.revoked| ==> c.revoked[i].entry != c.revoked[j].entry)
            && (forall i :: 0 <= i < |c.revoked| ==> IsFreeSince(c, c.revoked[i].entry, c.revoked[i].at - graceMs))
  {
    assert Inv(Empty(now), graceMs);
    RunKeeps(Empty(now), events, graceMs);
    hide Final, Runs;
    var c := Final(Empty(now), events, graceMs);
    forall i: nat | i < |c.entries| && Held(c, i) != {}
      ensures !IsRevoked(c, i)
    {
      var h :| h in Held(c, i);
      HeldIsNotRevoked(c, h, graceMs);
    }
  }

  /** Some hold on the URL was let go of at that very moment. */
  ghost predicate WentAt(c: Cache, at: nat, when: int) {
    exists h :: 0 <= h < |c.handles| && c.handles[h].entry == at && c.handles[h].released == Some(when)
  }

  /** Every revoke is due, and every revoke there has been came, a grace after a hold went. */
  ghost predicate IsOnTime(c: Cache, graceMs: nat) {
    && (forall i: nat :: i < |c.entries| && c.entries[i].pending.Some? ==> WentAt(c, i, c.entries[i].pending.value - graceMs))
    && (forall i :: 0 <= i < |c.revoked| ==> WentAt(c, c.revoked[i].entry, c.revoked[i].at - graceMs))
  }

  /** A hold let go of stays so. */
  lemma GoneStays(c: Cache, e: Event, graceMs: nat)
    requires IsEnabled(c, e)
    ensures forall i: nat, when: int :: WentAt(c, i, when) ==> WentAt(Step(c, e, graceMs), i, when)
  {
    var d := Step(c, e, graceMs);
    assert |d.handles| >= |c.handles|;
    assert forall h :: 0 <= h < |c.handles| && c.handles[h].released.Some? ==> d.handles[h] == c.handles[h];
    forall i: nat, when: int | WentAt(c, i, when)
      ensures WentAt(d, i, when)
    {
      var h :| 0 <= h < |c.handles| && c.handles[h].entry == i && c.handles[h].released == Some(when);
      assert d.handles[h] == c.handles[h];
    }
  }

  lemma StepIsOnTime(c: Cache, e: Event, graceMs: nat)
    requires Inv(c, graceMs) && IsEnabled(c, e) && IsOnTime(c, graceMs)
    ensures IsOnTime(Step(c, e, graceMs), graceMs)
  {
    hide IsRevoked, Held, KeysAreKnown, HoldsAreCounted, RevokesArePending, RevokedRightly, ReleasedByNow, WentAt;
    GoneStays(c, e, graceMs);
    if e.Release? && c.handles[e.handle].released.None? {
      JustWent(c, e.handle, graceMs);
    }
  }

  lemma JustWent(c: Cache, handle: nat, graceMs: nat)
    requires handle < |c.handles| && c.handles[handle].entry < |c.entries| && c.handles[handle].released.None?
    ensures WentAt(LetGo(c, handle, graceMs), c.handles[handle].entry, c.now)
  {
    assert LetGo(c, handle, graceMs).handles[handle] == Handle(c.handles[handle].entry, Some(c.now));
  }

  lemma {:induction false} RunIsOnTime(c: Cache, events: seq<Event>, graceMs: nat)
    requires Inv(c, graceMs) && IsOnTime(c, graceMs) && Runs(c, events, graceMs)
    ensures IsOnTime(Final(c, events, graceMs), graceMs)
    decreases |events|
  {
    hide Step, Inv, IsEnabled, IsOnTime;
    if events != [] {
      StepKeeps(c, events[0], graceMs);
      StepIsOnTime(c, events[0], graceMs);
      RunIsOnTime(Step(c, events[0], graceMs), events[1..], graceMs);
    }
  }

  /**
    In every run, a URL is revoked exactly a grace after the last hold on it went, and one
    that nothing holds and is not revoked yet will be: a grace after that, which is still to come.
   */
  lemma RevokedOnTime(now: int, events: seq<Event>, graceMs: nat)
    requires Runs(Empty(now), events, graceMs)
    ensures var c := Final(Empty(now), events, graceMs);
            && (forall i :: 0 <= i < |c.revoked| ==>
                  && WentAt(c, c.revoked[i].entry, c.revoked[i].at - graceMs)
                  && IsFreeSince(c, c.revoked[i].entry, c.revoked[i].at - graceMs))
            && (forall i: nat :: i < |c.entries| && Held(c, i) == {} && !IsRevoked(c, i) ==>
                  c.entries[i].pending.Some? && c.now <= c.entries[i].pending.value
                  && WentAt(c, i, c.entries[i].pending.value - graceMs)
                  && IsFreeSince(c, i, c.entries[i].pending.value - graceMs))
  {
    hide Final, Runs, IsRevoked, Held, WentAt, IsFreeSince, IsOnTime, Inv;
    EmptyIsOnTime(now, graceMs);
    RunKeeps(Empty(now), events, graceMs);
    RunIsOnTime(Empty(now), events, graceMs);
    OnTimeIs(Final(Empty(now), events, graceMs), graceMs);
  }

  lemma EmptyIsOnTime(now: int, graceMs: nat)
    ensures Inv(Empty(now), graceMs) && IsOnTime(Empty(now), graceMs)
  {}

  lemma OnTimeIs(c: Cache, graceMs: nat)
    requires Inv(c, graceMs) && IsOnTime(c, graceMs)
    ensures forall i :: 0 <= i < |c.revoked| ==>
              && WentAt(c, c.revoked[i].entry, c.revoked[i].at - graceMs)
              && IsFreeSince(c, c.revoked[i].entry, c.revoked[i].at - graceMs)
    ensures forall i: nat :: i < |c.entries| && Held(c, i) == {} && !IsRevoked(c, i) ==>
              && c.entries[i].pending.Some? && c.now <= c.entries[i].pending.value
              && WentAt(c, i, c.entries[i].pending.value - graceMs)
              && IsFreeSince(c, i, c.entries[i].pending.value - graceMs)
  {
    hide IsRevoked, Held, WentAt, IsFreeSince, KeysAreKnown, HoldsAreCounted, ReleasedByNow;
    forall i: nat | i < |c.entries| && Held(c, i) == {} && !IsRevoked(c, i)
      ensures c.entries[i].pending.Some? && c.now <= c.entries[i].pending.value
              && WentAt(c, i, c.entries[i].pending.value - graceMs)
              && IsFreeSince(c, i, c.entries[i].pending.value - graceMs)
    {
      assert PendsRightly(c, i, graceMs);
    }
  }

  /** Letting go twice changes nothing. */
  lemma ReleasedOnce(c: Cache, handle: nat, graceMs: nat)
    requires Inv(c, graceMs) && IsEnabled(c, Release(handle))
    ensures var once := LetGo(c, handle, graceMs); LetGo(once, handle, graceMs) == once
  {}

  /** Asked for again inside the grace, a URL is the one that was made. */
  lemma ReusedInsideTheGrace(c: Cache, key: string, at: nat, graceMs: nat)
    requires Inv(c, graceMs) && key in c.known && c.known[key] == at
    ensures at < |c.entries|
    ensures var d := Step(c, Acquire(key), graceMs);
            && |d.entries| == |c.entries| && d.known == c.known && d.handles == c.handles + [Handle(at, None)]
            && d.entries[at].pending.None? && d == Step(c, Reuse(key), graceMs)
  {}

  // ----- The cache itself --------------------------------------------------------------

  class UrlCache {
    const graceMs: nat
    var entries: seq<Entry>
    var known: map<string, nat>
    var handles: seq<Handle>
    var revoked: seq<Revoked>
    var now: int

    function State(): Cache
      reads this
    {
      Cache(entries, known, handles, revoked, now)
    }

    constructor (graceMs: nat, now: int)
      ensures this.graceMs == graceMs && State() == Empty(now) && Inv(State(), graceMs)
    {
      this.graceMs, this.now := graceMs, now;
      entries, known, handles, revoked := [], map[], [], [];
    }

    /** A new handle on an entry there is; its pending revoke is forgotten. */
    method HoldOn(at: nat) returns (handle: nat)
      requires at < |entries|
      modifies this`entries, this`handles
      ensures State() == Hold(old(State()), at) && handle == |old(handles)|
    {
      handle := |handles|;
      entries := entries[at := entries[at].(pending := None)];
      entries := entries[at := entries[at].(holds := entries[at].holds + 1)];
      handles := handles + [Handle(at, None)];
    }

    /** The URL for a key, made if there is none, with a hold of the caller's own on it. */
    method AcquireUrl(key: string) returns (handle: nat)
      requires Inv(State(), graceMs)
      modifies this
      ensures State() == Step(old(State()), Acquire(key), graceMs) && Inv(State(), graceMs)
      ensures handle == |old(handles)| < |handles| && handles[handle] == Handle(known[key], None)
      ensures key in old(known) ==> known[key] == old(known)[key]
    {
      StepKeeps(State(), Acquire(key), graceMs);
      if key !in known {
        entries, known := entries + [Entry(key, 0, None)], known[key := |entries|];
      }
      handle := HoldOn(known[key]);
    }

    method ReuseUrl(key: string) returns (handle: Option<nat>)
      requires Inv(State(), graceMs)
      modifies this
      ensures State() == Step(old(State()), Reuse(key), graceMs) && Inv(State(), graceMs)
      ensures handle.Some? <==> key in old(known)
    {
      StepKeeps(State(), Reuse(key), graceMs);
      if key !in known { return None; }
      var held := HoldOn(known[key]);
      return Some(held);
    }

    /** Let go, once: a second call does nothing. */
    method ReleaseUrl(handle: nat)
      requires Inv(State(), graceMs) && handle < |handles|
      modifies this
      ensures IsEnabled(old(State()), Release(handle))
      ensures State() == Step(old(State()), Release(handle), graceMs) && Inv(State(), graceMs)
    {
      StepKeeps(State(), Release(handle), graceMs);
      if handles[handle].released.Some? { return; }
      var at := handles[handle].entry;
      handles := handles[handle := Handle(at, Some(now))];
      entries := entries[at := entries[at].(holds := entries[at].holds - 1)];
      if entries[at].holds <= 0 {
        entries := entries[at := entries[at].(pending := Some(now + graceMs))];
      }
    }

    /** A grace is over with nothing holding the URL. */
    method GraceOver(at: nat)
      requires Inv(State(), graceMs) && IsEnabled(State(), TimerFires(at))
      modifies this
      ensures State() == Step(old(State()), TimerFires(at), graceMs) && Inv(State(), graceMs)
      ensures Held(State(), at) == {}
    {
      StepKeeps(State(), TimerFires(at), graceMs);
      PendingIsFree(State(), at, graceMs);
      var key := entries[at].key;
      entries := entries[at := entries[at].(pending := None)];
      known := known - {key};
      revoked := revoked + [Revoked(at, now)];
    }
  }

  lemma PendingIsFree(c: Cache, at: nat, graceMs: nat)
    requires Inv(c, graceMs) && IsEnabled(c, TimerFires(at))
    ensures Held(c, at) == {} && forall d: Cache :: d.handles == c.handles ==> Held(d, at) == {}
  {
    assert PendsRightly(c, at, graceMs);
  }
}
