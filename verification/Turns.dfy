/**
  A queue of work keyed by what it is for: one entry runs, and the rest wait their turn
  (`oneAtATime` in apps/web/src/pictures/copies.ts).
 */
module Turns {
  import opened Options

  /** A piece of work: waiting for its turn, under way, passed over, or come to something. */
  datatype Phase = Waiting | Running | Passed | Done(result: int)

  /** One piece of work and how many still wait for it. */
  datatype Entry = Entry(key: string, askers: int, phase: Phase)

  /** Who asked: the work joined, and whether they have stopped waiting. */
  datatype Asker = Asker(entry: nat, stopped: bool)

  /** The queue, the work a key is joined to, and everyone who has asked, by a number each. */
  datatype Turns = Turns(entries: seq<Entry>, waiting: map<string, nat>, askers: map<nat, Asker>)

  const NOTHING := Turns([], map[], map[])

  datatype Event =
    | Ask(asker: nat, key: string, aborted: bool)
    | Abort(asker: nat)
    | TakeTurn
    | Finish(result: int)

  predicate IsOver(e: Entry) {
    e.phase.Passed? || e.phase.Done?
  }

  /** The first piece of work that is not over: the one whose turn it is, or which is under way. */
  function Head(entries: seq<Entry>): (at: nat)
    ensures at <= |entries|
    ensures forall i :: 0 <= i < at ==> IsOver(entries[i])
    ensures at < |entries| ==> !IsOver(entries[at])
  {
    if entries == [] || !IsOver(entries[0]) then 0 else 1 + Head(entries[1..])
  }

  predicate IsEnabled(t: Turns, e: Event) {
    match e
    case Ask(asker, _, _) => asker !in t.askers
    case Abort(asker) => asker in t.askers && !t.askers[asker].stopped && t.askers[asker].entry < |t.entries|
    case TakeTurn => Head(t.entries) < |t.entries| && t.entries[Head(t.entries)].phase.Waiting?
    case Finish(_) => Head(t.entries) < |t.entries| && t.entries[Head(t.entries)].phase.Running?
  }

  /** The entry no longer joined: only if the key still leads to it. */
  function Over(t: Turns, at: nat): Turns
    requires at < |t.entries|
  {
    var key := t.entries[at].key;
    if key in t.waiting && t.waiting[key] == at then t.(waiting := t.waiting - {key}) else t
  }

  function Put(t: Turns, at: nat, e: Entry): Turns
    requires at < |t.entries|
  {
    t.(entries := t.entries[at := e])
  }

  function Step(t: Turns, e: Event): Turns
    requires IsEnabled(t, e)
  {
    match e
    case Ask(asker, key, aborted) =>
      if aborted then t
      else if key in t.waiting && t.waiting[key] < |t.entries| then
        var at := t.waiting[key];
        Put(t, at, t.entries[at].(askers := t.entries[at].askers + 1)).(askers := t.askers[asker := Asker(at, false)])
      else
        Turns(t.entries + [Entry(key, 1, Waiting)], t.waiting[key := |t.entries|], t.askers[asker := Asker(|t.entries|, false)])
    case Abort(asker) =>
      var at := t.askers[asker].entry;
      var stopped := t.(askers := t.askers[asker := Asker(at, true)]);
      // Not listened to any more once the work is over.
      if IsOver(t.entries[at]) then stopped
      else Put(stopped, at, t.entries[at].(askers := t.entries[at].askers - 1))
    case TakeTurn =>
      var at := Head(t.entries);
      if t.entries[at].askers > 0 then Put(t, at, t.entries[at].(phase := Running))
      else Over(Put(t, at, t.entries[at].(phase := Passed)), at)
    case Finish(result) =>
      var at := Head(t.entries);
      Over(Put(t, at, t.entries[at].(phase := Done(result))), at)
  }

  /** A piece of work that is waiting or under way. */
  predicate IsOpen(t: Turns, at: int) {
    0 <= at < |t.entries| && !IsOver(t.entries[at])
  }

  /** Those still waiting for a piece of work. */
  function Patient(t: Turns, at: nat): set<nat> {
    set a | a in t.askers && t.askers[a].entry == at && !t.askers[a].stopped
  }

  /** Everything before the head is over, everything after it waits: one piece at a time, in order. */
  ghost predicate InOrder(entries: seq<Entry>) {
    forall i :: 0 <= i < |entries| ==>
      && (i < Head(entries) ==> IsOver(entries[i]))
      && (i > Head(entries) ==> entries[i].phase.Waiting?)
  }

  /** A key leads to its one entry that is waiting or under way, and to no other. */
  ghost predicate KeysLead(t: Turns) {
    && (forall key :: key in t.waiting ==>
          t.waiting[key] < |t.entries| && t.entries[t.waiting[key]].key == key && !IsOver(t.entries[t.waiting[key]]))
    && (forall i :: 0 <= i < |t.entries| && !IsOver(t.entries[i]) ==>
          t.entries[i].key in t.waiting && t.waiting[t.entries[i].key] == i)
  }

  /** A piece of work counts those still waiting for it, until it is over. */
  ghost predicate Counts(t: Turns) {
    && (forall a :: a in t.askers ==> t.askers[a].entry < |t.entries|)
    && (forall i :: 0 <= i < |t.entries| && !IsOver(t.entries[i]) ==> t.entries[i].askers == |Patient(t, i)|)
  }

  /** Work passed over is work everyone who asked for it had stopped waiting for. */
  ghost predicate PassedUnwanted(t: Turns) {
    forall i :: 0 <= i < |t.entries| && t.entries[i].phase.Passed? ==> Patient(t, i) == {}
  }

  ghost predicate Inv(t: Turns) {
    InOrder(t.entries) && KeysLead(t) && Counts(t) && PassedUnwanted(t)
  }

  lemma {:induction false} HeadIs(entries: seq<Entry>, at: nat)
    requires at <= |entries| && (forall i :: 0 <= i < at ==> IsOver(entries[i])) && (at < |entries| ==> !IsOver(entries[at]))
    ensures Head(entries) == at
    decreases at
  {
    if at > 0 {
      assert forall i :: 0 <= i < at - 1 ==> entries[1..][i] == entries[i + 1];
      HeadIs(entries[1..], at - 1);
    }
  }

  /** The same work in the same phases: the order and the keys are what they were. */
  ghost predicate SameShape(t: Turns, u: Turns) {
    && u.waiting == t.waiting && |u.entries| == |t.entries|
    && forall i :: 0 <= i < |t.entries| ==> u.entries[i].key == t.entries[i].key && u.entries[i].phase == t.entries[i].phase
  }

  lemma ShapeKeeps(t: Turns, u: Turns)
    requires InOrder(t.entries) && KeysLead(t) && SameShape(t, u)
    ensures InOrder(u.entries) && KeysLead(u)
  {
    HeadIs(u.entries, Head(t.entries));
  }

  /** One asker more, or one fewer, waiting for one piece of work. */
  lemma CountsKeep(t: Turns, u: Turns, asker: nat, at: nat)
    requires Counts(t) && PassedUnwanted(t) && SameShape(t, u) && at < |t.entries| && !IsOver(t.entries[at])
    requires forall i :: 0 <= i < |t.entries| && i != at ==> u.entries[i].askers == t.entries[i].askers && Patient(u, i) == Patient(t, i)
    requires || (asker !in Patient(t, at) && Patient(u, at) == Patient(t, at) + {asker} && u.entries[at].askers == t.entries[at].askers + 1)
             || (asker in Patient(t, at) && Patient(u, at) == Patient(t, at) - {asker} && u.entries[at].askers == t.entries[at].askers - 1)
    requires forall a :: a in u.askers ==> u.askers[a].entry < |u.entries|
    ensures Counts(u) && PassedUnwanted(u)
  {
    hide Patient;
  }

  /** Asking for work that is waiting or under way joins it. */
  lemma JoinKeeps(t: Turns, asker: nat, at: nat)
    requires Inv(t) && asker !in t.askers && at < |t.entries| && !IsOver(t.entries[at])
    ensures Inv(Put(t, at, t.entries[at].(askers := t.entries[at].askers + 1)).(askers := t.askers[asker := Asker(at, false)]))
  {
    hide InOrder, KeysLead, Counts, PassedUnwanted;
    var u := Put(t, at, t.entries[at].(askers := t.entries[at].askers + 1)).(askers := t.askers[asker := Asker(at, false)]);
    ShapeKeeps(t, u);
    forall i | 0 <= i < |t.entries|
      ensures Patient(u, i) == if i == at then Patient(t, i) + {asker} else Patient(t, i)
    {}
    AskersAreKnown(t);
    CountsKeep(t, u, asker, at);
  }

  lemma AskersAreKnown(t: Turns)
    requires Counts(t)
    ensures forall a :: a in t.askers ==> t.askers[a].entry < |t.entries|
  {}

  lemma StartKeeps(t: Turns, asker: nat, key: string)
    requires Inv(t) && asker !in t.askers && key !in t.waiting
    ensures Inv(Turns(t.entries + [Entry(key, 1, Waiting)], t.waiting[key := |t.entries|], t.askers[asker := Asker(|t.entries|, false)]))
  {
    hide Patient, InOrder, KeysLead, Counts, PassedUnwanted;
    var n := |t.entries|;
    var u := Turns(t.entries + [Entry(key, 1, Waiting)], t.waiting[key := n], t.askers[asker := Asker(n, false)]);
    StartKeepsOrder(t, u, key);
    StartPatients(t, u, asker);
    StartKeepsCounts(t, u, key);
  }

  lemma StartKeepsOrder(t: Turns, u: Turns, key: string)
    requires InOrder(t.entries) && KeysLead(t) && key !in t.waiting
    requires u.entries == t.entries + [Entry(key, 1, Waiting)] && u.waiting == t.waiting[key := |t.entries|]
    ensures InOrder(u.entries) && KeysLead(u)
  {
    HeadIs(u.entries, Head(t.entries));
  }

  lemma StartPatients(t: Turns, u: Turns, asker: nat)
    requires Counts(t) && asker !in t.askers && u.askers == t.askers[asker := Asker(|t.entries|, false)]
    ensures Patient(u, |t.entries|) == {asker}
    ensures forall i :: 0 <= i < |t.entries| ==> Patient(u, i) == Patient(t, i)
    ensures forall a :: a in u.askers ==> u.askers[a].entry <= |t.entries|
  {
    forall i | 0 <= i < |t.entries|
      ensures Patient(u, i) == Patient(t, i)
    {}
  }

  lemma StartKeepsCounts(t: Turns, u: Turns, key: string)
    requires Counts(t) && PassedUnwanted(t) && u.entries == t.entries + [Entry(key, 1, Waiting)]
    requires |Patient(u, |t.entries|)| == 1 && forall i :: 0 <= i < |t.entries| ==> Patient(u, i) == Patient(t, i)
    requires forall a :: a in u.askers ==> u.askers[a].entry <= |t.entries|
    ensures Counts(u) && PassedUnwanted(u)
  {
    hide Patient;
  }

  lemma AbortKeeps(t: Turns, asker: nat)
    requires Inv(t) && IsEnabled(t, Abort(asker))
    ensures Inv(Step(t, Abort(asker)))
  {
    hide InOrder, KeysLead, Counts, PassedUnwanted;
    var u, at := Step(t, Abort(asker)), t.askers[asker].entry;
    ShapeKeeps(t, u);
    assert asker in Patient(t, at);
    forall i | 0 <= i < |t.entries|
      ensures Patient(u, i) == if i == at then Patient(t, i) - {asker} else Patient(t, i)
    {}
    AskersAreKnown(t);
    if IsOver(t.entries[at]) {
      FewerForWhatIsOver(t, u, asker, at);
    } else {
      CountsKeep(t, u, asker, at);
    }
  }

  lemma FewerForWhatIsOver(t: Turns, u: Turns, asker: nat, at: nat)
    requires Counts(t) && PassedUnwanted(t) && u.entries == t.entries && at < |t.entries| && IsOver(t.entries[at])
    requires forall i :: 0 <= i < |t.entries| ==> Patient(u, i) == if i == at then Patient(t, i) - {asker} else Patient(t, i)
    requires forall a :: a in u.askers ==> u.askers[a].entry < |u.entries|
    ensures Counts(u) && PassedUnwanted(u)
  {
    hide Patient;
  }

  /** The head of the queue moves on: under way, passed over, or come to something. */
  lemma TurnKeeps(t: Turns, phase: Phase)
    requires Inv(t) && Head(t.entries) < |t.entries|
    requires phase.Running? || phase.Done? || (phase.Passed? && Patient(t, Head(t.entries)) == {})
    ensures var at := Head(t.entries);
            var u := Put(t, at, t.entries[at].(phase := phase));
            Inv(if phase.Running? then u else Over(u, at))
  {
    var at := Head(t.entries);
    var u := Put(t, at, t.entries[at].(phase := phase));
    var v := if phase.Running? then u else Over(u, at);
    hide Patient, InOrder, KeysLead, Counts, PassedUnwanted;
    TurnKeepsOrder(t, v, phase);
    TurnKeepsKeys(t, v, phase);
    TurnKeepsCounts(t, v, phase);
  }

  lemma TurnKeepsCounts(t: Turns, v: Turns, phase: Phase)
    requires Counts(t) && PassedUnwanted(t) && Head(t.entries) < |t.entries|
    requires !phase.Waiting? && (phase.Passed? ==> Patient(t, Head(t.entries)) == {})
    requires v.entries == t.entries[Head(t.entries) := t.entries[Head(t.entries)].(phase := phase)] && v.askers == t.askers
    ensures Counts(v) && PassedUnwanted(v)
  {
    hide Patient;
    PatientsAreAskers(t, v);
  }

  lemma PatientsAreAskers(t: Turns, u: Turns)
    requires u.askers == t.askers
    ensures forall i: nat :: Patient(u, i) == Patient(t, i)
  {}

  lemma TurnKeepsOrder(t: Turns, v: Turns, phase: Phase)
    requires InOrder(t.entries) && Head(t.entries) < |t.entries| && !phase.Waiting?
    requires v.entries == t.entries[Head(t.entries) := t.entries[Head(t.entries)].(phase := phase)]
    ensures InOrder(v.entries)
  {
    var at := Head(t.entries);
    HeadIs(v.entries, if phase.Running? then at else at + 1);
  }

  lemma TurnKeepsKeys(t: Turns, v: Turns, phase: Phase)
    requires KeysLead(t) && Head(t.entries) < |t.entries| && !phase.Waiting?
    requires v.entries == t.entries[Head(t.entries) := t.entries[Head(t.entries)].(phase := phase)]
    requires v.waiting == if phase.Running? then t.waiting else t.waiting - {t.entries[Head(t.entries)].key}
    ensures KeysLead(v)
  {}

  lemma StepKeeps(t: Turns, e: Event)
    requires Inv(t) && IsEnabled(t, e)
    ensures Inv(Step(t, e))
  {
    hide Inv, Patient;
    match e {
      case Ask(asker, key, aborted) =>
        if !aborted && key in t.waiting && t.waiting[key] < |t.entries| {
          LeadsToOpen(t, key);
          JoinKeeps(t, asker, t.waiting[key]);
        } else if !aborted {
          LeadsNowhere(t, key);
          StartKeeps(t, asker, key);
        }
      case Abort(asker) => AbortKeeps(t, asker);
      case TakeTurn =>
        NobodyWaits(t);
        TurnKeeps(t, if t.entries[Head(t.entries)].askers > 0 then Running else Passed);
      case Finish(result) => TurnKeeps(t, Done(result));
    }
  }

  lemma LeadsToOpen(t: Turns, key: string)
    requires Inv(t) && key in t.waiting
    ensures t.waiting[key] < |t.entries| && !IsOver(t.entries[t.waiting[key]])
  {}

  lemma LeadsNowhere(t: Turns, key: string)
    requires Inv(t) && !(key in t.waiting && t.waiting[key] < |t.entries|)
    ensures key !in t.waiting
  {}

  lemma NobodyWaits(t: Turns)
    requires Inv(t) && Head(t.entries) < |t.entries|
    ensures t.entries[Head(t.entries)].askers > 0 || Patient(t, Head(t.entries)) == {}
  {}

  ghost predicate Runs(t: Turns, events: seq<Event>)
    decreases |events|
  {
    events == [] || (IsEnabled(t, events[0]) && Runs(Step(t, events[0]), events[1..]))
  }

  ghost function Final(t: Turns, events: seq<Event>): Turns
    requires Runs(t, events)
    decreases |events|
  {
    if events == [] then t else Final(Step(t, events[0]), events[1..])
  }

  lemma {:induction false} RunKeeps(t: Turns, events: seq<Event>)
    requires Inv(t) && Runs(t, events)
    ensures Inv(Final(t, events))
    decreases |events|
  {
    hide Step, Inv, IsEnabled;
    if events != [] {
      StepKeeps(t, events[0]);
      RunKeeps(Step(t, events[0]), events[1..]);
    }
  }

  lemma NothingIsInOrder()
    ensures Inv(NOTHING)
  {}

  /**
    In every run: at most one piece of work is under way, with everything asked for before
    it over and everything after it waiting; no key has two that are not over; each counts
    those still waiting for it; and whoever has not stopped waiting for work that is over
    is answered by it.
   */
  lemma OneAtATime(events: seq<Event>)
    requires Runs(NOTHING, events)
    ensures var t := Final(NOTHING, events);
            && (forall i, j :: IsOpen(t, i) && IsOpen(t, j) && t.entries[i].phase.Running? && t.entries[j].phase.Running? ==> i == j)
            && (forall i, j :: 0 <= i < j < |t.entries| && !t.entries[j].phase.Waiting? ==> IsOver(t.entries[i]))
            && (forall i, j :: IsOpen(t, i) && IsOpen(t, j) && t.entries[i].key == t.entries[j].key ==> i == j)
            && (forall i :: 0 <= i < |t.entries| && !IsOver(t.entries[i]) ==> t.entries[i].askers == |Patient(t, i)|)
            && (forall a :: a in t.askers && !t.askers[a].stopped ==>
                  t.askers[a].entry < |t.entries|
                  && (IsOver(t.entries[t.askers[a].entry]) ==> t.entries[t.askers[a].entry].phase.Done?))
  {
    NothingIsInOrder();
    RunKeeps(NOTHING, events);
    hide Final, Runs;
    var t := Final(NOTHING, events);
    forall a | a in t.askers && !t.askers[a].stopped
      ensures t.askers[a].entry < |t.entries| && !t.entries[t.askers[a].entry].phase.Passed?
    {
      assert a in Patient(t, t.askers[a].entry);
    }
  }

  /**
    Asking while work for the key is waiting or under way joins it, and otherwise queues it
    behind everything; asking no longer wanting an answer does neither.
   */
  lemma AskedJoinsIff(t: Turns, asker: nat, key: string, aborted: bool)
    requires Inv(t) && IsEnabled(t, Ask(asker, key, aborted))
    ensures var u := Step(t, Ask(asker, key, aborted));
            && (aborted ==> u == t)
            && (!aborted && (exists i :: IsOpen(t, i) && t.entries[i].key == key) ==>
                  && |u.entries| == |t.entries| && asker in u.askers && !u.askers[asker].stopped
                  && IsOpen(t, u.askers[asker].entry) && t.entries[u.askers[asker].entry].key == key
                  && forall i :: 0 <= i < |t.entries| ==>
                       u.entries[i] == if i == u.askers[asker].entry then t.entries[i].(askers := t.entries[i].askers + 1)
                                       else t.entries[i])
            && (!aborted && !(exists i :: IsOpen(t, i) && t.entries[i].key == key) ==>
                  u.entries == t.entries + [Entry(key, 1, Waiting)] && u.askers == t.askers[asker := Asker(|t.entries|, false)])
  {
    hide InOrder, Counts, PassedUnwanted;
    forall i | IsOpen(t, i) && t.entries[i].key == key
      ensures key in t.waiting && t.waiting[key] == i
    {}
    if key in t.waiting {
      assert IsOpen(t, t.waiting[key]);
    }
  }

  /** At its turn, work is started exactly when somebody still waits for it. */
  lemma StartedIffWanted(t: Turns)
    requires Inv(t) && IsEnabled(t, TakeTurn)
    ensures var at := Head(t.entries);
            var u := Step(t, TakeTurn);
            && (u.entries[at].phase.Running? <==> Patient(t, at) != {})
            && (u.entries[at].phase.Passed? <==> Patient(t, at) == {})
  {
    var at := Head(t.entries);
    assert t.entries[at].askers == |Patient(t, at)|;
  }

  /** What work came to stays what it came to, for everyone who asked: no asker is moved to other work. */
  lemma ResultsStand(t: Turns, e: Event, at: nat, asker: nat)
    requires Inv(t) && IsEnabled(t, e) && at < |t.entries|
    ensures at < |Step(t, e).entries| && Step(t, e).entries[at].key == t.entries[at].key
    ensures IsOver(t.entries[at]) ==> Step(t, e).entries[at].phase == t.entries[at].phase
    ensures asker in t.askers ==> asker in Step(t, e).askers && Step(t, e).askers[asker].entry == t.askers[asker].entry
  {
    hide Patient;
  }

  // ----- The turns themselves ----------------------------------------------------------

  class Queue {
    var entries: seq<Entry>
    var waiting: map<string, nat>
    var askers: map<nat, Asker>

    function State(): Turns
      reads this
    {
      Turns(entries, waiting, askers)
    }

    constructor ()
      ensures State() == NOTHING && Inv(State())
    {
      entries, waiting, askers := [], map[], map[];
      new;
      NothingIsInOrder();
    }

    /** Asked for: joined where it is waiting or under way, and otherwise queued. */
    method AskFor(asker: nat, key: string, aborted: bool) returns (at: Option<nat>)
      requires Inv(State()) && asker !in askers
      modifies this
      ensures State() == Step(old(State()), Ask(asker, key, aborted)) && Inv(State())
      ensures at.None? <==> aborted
      ensures at.Some? ==> at.value < |entries| && entries[at.value].key == key && !IsOver(entries[at.value])
      ensures at.Some? && key in old(waiting) ==> at.value == old(waiting)[key]
    {
      StepKeeps(State(), Ask(asker, key, aborted));
      if aborted { return None; }
      if key !in waiting {
        entries, waiting := entries + [Entry(key, 0, Waiting)], waiting[key := |entries|];
      }
      var joined := waiting[key];
      entries := entries[joined := entries[joined].(askers := entries[joined].askers + 1)];
      askers := askers[asker := Asker(joined, false)];
      at := Some(joined);
      assert State().entries == Step(old(State()), Ask(asker, key, aborted)).entries;
    }

    /** Whoever asked has stopped waiting. */
    method Stop(asker: nat)
      requires Inv(State()) && asker in askers && !askers[asker].stopped
      modifies this
      ensures State() == Step(old(State()), Abort(asker)) && Inv(State())
    {
      StepKeeps(State(), Abort(asker));
      var at := askers[asker].entry;
      askers := askers[asker := Asker(at, true)];
      if !IsOver(entries[at]) {
        entries := entries[at := entries[at].(askers := entries[at].askers - 1)];
      }
    }

    /** The next piece of work has its turn: whether it is started. */
    method NextTurn() returns (started: bool)
      requires Inv(State()) && IsEnabled(State(), TakeTurn)
      modifies this
      ensures State() == Step(old(State()), TakeTurn) && Inv(State())
      ensures started <==> Patient(old(State()), Head(old(entries))) != {}
    {
      StepKeeps(State(), TakeTurn);
      StartedIffWanted(State());
      var at := Head(entries);
      var key := entries[at].key;
      started := entries[at].askers > 0;
      entries := entries[at := entries[at].(phase := if started then Running else Passed)];
      if !started && key in waiting && waiting[key] == at {
        waiting := waiting - {key};
      }
    }
  }
}
