/**
  Runs of a device: sources bound, resumed, cut loose, detached, released, and unsent work
  moved, in any order. No text the remote was never sent is lost, no two notes become one,
  and no source a step does not name is touched.
 */
module SourceRuns {
  import opened Options
  import opened Paths
  import opened Library
  import opened MoveNotes
  import opened MoveRows
  import opened MoveKeeps
  import opened MoveQueue
  import opened Unsynced
  import opened Sources

  /** A note's key is its source and its id. */
  datatype Key = Key(source: Source, id: Id)

  ghost predicate IsUnsentAt(t: Tables, key: Key) {
    key.id in RowsOf(t, key.source).notes && IsUnsent(RowsOf(t, key.source).notes[key.id])
  }

  /** The note is there, unsent still, with the text and the times it had. */
  ghost predicate TextIsAt(t: Tables, key: Key, note: Note) {
    && IsUnsentAt(t, key)
    && var row := RowsOf(t, key.source).notes[key.id];
       row.body == note.body && row.createdAt == note.createdAt && row.updatedAt == note.updatedAt
  }

  function NoteAt(t: Tables, key: Key): Note
    requires key.id in RowsOf(t, key.source).notes
  {
    RowsOf(t, key.source).notes[key.id]
  }

  // ----- One move ----------------------------------------------------------------------

  /** Where a note is after a move. */
  function KeyAfter(t: Tables, m: Move, p: Plan, key: Key): Key {
    if key.source == m.from && !m.keep && key.id in NotesTaken(m, RowsOf(t, m.from)) && key.id in p.noteIds
    then Key(m.target, p.noteIds[key.id])
    else key
  }

  lemma UnsentGoes(t: Tables, m: Move, p: Plan, id: Id)
    requires id in RowsOf(t, m.from).notes && IsUnsent(RowsOf(t, m.from).notes[id])
    requires id in NotesTaken(m, RowsOf(t, m.from))
    ensures Goes(MovingOf(t, m, p), id)
  {}

  lemma MoveKeepsText(t: Tables, m: Move, p: Plan, key: Key)
    requires CanMove(t, m, p) && IsUnsentAt(t, key)
    ensures TextIsAt(MoveRowsTo(t, m, p).tables, KeyAfter(t, m, p, key), NoteAt(t, key))
  {
    MoveUnfolds(t, m, p);
    if key.source == m.from {
      UnsentFollows(t, m, p, key.id);
    } else if key.source == m.target {
      TargetStands(t, m, p);
    }
    hide ValidPlan, Place, Shelve, Carry, CarryOps, IsLinked, WellFormed, Arrived, MoveRowsTo, NotesTaken;
  }

  lemma MoveKeepsApart(t: Tables, m: Move, p: Plan, a: Key, b: Key)
    requires CanMove(t, m, p) && IsUnsentAt(t, a) && IsUnsentAt(t, b) && a != b
    ensures KeyAfter(t, m, p, a) != KeyAfter(t, m, p, b)
  {
    hide ValidPlan, Place, Shelve, Carry, CarryOps, IsLinked, WellFormed, Arrived, MoveRowsTo, NotesTaken, Goes;
    var x, y := KeyAfter(t, m, p, a), KeyAfter(t, m, p, b);
    if x != a {
      LandsAnew(t, m, p, a);
    }
    if y != b {
      LandsAnew(t, m, p, b);
    }
    if x != a && y != b {
      LandingsDiffer(t, m, p, a.id, b.id);
    }
  }

  lemma LandsAnew(t: Tables, m: Move, p: Plan, key: Key)
    requires CanMove(t, m, p) && IsUnsentAt(t, key) && KeyAfter(t, m, p, key) != key
    ensures key.source == m.from && Goes(MovingOf(t, m, p), key.id)
    ensures key.id in p.noteIds && p.noteIds[key.id] !in RowsOf(t, m.target).notes
  {
    hide ValidPlan, WellFormed;
    UnsentGoes(t, m, p, key.id);
    NoteArrives(t, m, p, key.id);
  }

  // ----- Several resumes ---------------------------------------------------------------

  function KeyResumed(t: Tables, target: nat, homes: seq<nat>, plans: map<nat, Plan>, key: Key): Key
    requires ValidResumes(t, target, homes, plans)
    decreases |homes|
  {
    if homes == [] then key
    else
      var m, p := Homeward(homes[0], target), plans[homes[0]];
      KeyResumed(MoveRowsTo(t, m, p).tables, target, homes[1..], plans, KeyAfter(t, m, p, key))
  }

  lemma {:induction false} ResumesKeepText(t: Tables, target: nat, homes: seq<nat>, plans: map<nat, Plan>, key: Key)
    requires ValidResumes(t, target, homes, plans) && IsUnsentAt(t, key)
    ensures TextIsAt(ResumeAll(t, target, homes, plans).tables, KeyResumed(t, target, homes, plans, key), NoteAt(t, key))
    ensures var after := KeyResumed(t, target, homes, plans, key);
            after == key || (after.source == Connection(target) && exists h :: h in homes && key.source == Connection(h))
                         || (after.source == Connection(target) && key.source == Connection(target))
    decreases |homes|
  {
    hide ValidPlan, WellFormed, MoveRowsTo, NotesTaken;
    if homes != [] {
      var m, p := Homeward(homes[0], target), plans[homes[0]];
      MoveKeepsText(t, m, p, key);
      assert homes[0] in homes;
      ResumesKeepText(MoveRowsTo(t, m, p).tables, target, homes[1..], plans, KeyAfter(t, m, p, key));
    }
  }

  lemma {:induction false} ResumesKeepApart(t: Tables, target: nat, homes: seq<nat>, plans: map<nat, Plan>, a: Key, b: Key)
    requires ValidResumes(t, target, homes, plans) && IsUnsentAt(t, a) && IsUnsentAt(t, b) && a != b
    ensures KeyResumed(t, target, homes, plans, a) != KeyResumed(t, target, homes, plans, b)
    decreases |homes|
  {
    hide ValidPlan, WellFormed, MoveRowsTo, KeyAfter;
    if homes != [] {
      var m, p := Homeward(homes[0], target), plans[homes[0]];
      MoveKeepsApart(t, m, p, a, b);
      MoveKeepsText(t, m, p, a);
      MoveKeepsText(t, m, p, b);
      ResumesKeepApart(MoveRowsTo(t, m, p).tables, target, homes[1..], plans, KeyAfter(t, m, p, a), KeyAfter(t, m, p, b));
    }
  }

  lemma {:induction false} ResumesTouch(t: Tables, target: nat, homes: seq<nat>, plans: map<nat, Plan>, source: Source)
    requires ValidResumes(t, target, homes, plans)
    requires source != Connection(target) && forall h :: h in homes ==> source != Connection(h)
    ensures RowsOf(ResumeAll(t, target, homes, plans).tables, source) == RowsOf(t, source)
    ensures OpsOf(ResumeAll(t, target, homes, plans).tables.ops, source) == OpsOf(t.ops, source)
    decreases |homes|
  {
    hide ValidPlan, WellFormed, MoveRowsTo, OpsOf;
    if homes != [] {
      assert homes[0] in homes;
      OthersAreUntouched(t, Homeward(homes[0], target), plans[homes[0]], source);
      ResumesTouch(MoveRowsTo(t, Homeward(homes[0], target), plans[homes[0]]).tables, target, homes[1..], plans, source);
    }
  }

  // ----- The queue of other sources ----------------------------------------------------

  lemma {:induction false} WithdrawTouches(ops: seq<Op>, source: Source, path: string, other: Source)
    requires other != source
    ensures OpsOf(WithdrawRmdirs(ops, source, path), other) == OpsOf(ops, other)
  {
    hide OpsOf, AncestorPaths;
    if ops == [] {
    } else {
      WithdrawTouches(ops[1..], source, path, other);
      assert ops == [ops[0]] + ops[1..];
      OpsOfConcat([ops[0]], ops[1..], other);
      OpsOfOne(ops[0], other);
      if IsStale(ops[0], source, path) {
        assert WithdrawRmdirs(ops, source, path) == WithdrawRmdirs(ops[1..], source, path);
      } else {
        OpsOfConcat([ops[0]], WithdrawRmdirs(ops[1..], source, path), other);
      }
    }
  }

  lemma AddTouches(ops: seq<Op>, op: Op, other: Source)
    requires other != op.source
    ensures OpsOf(ops + [op], other) == OpsOf(ops, other)
  {
    OpsOfConcat(ops, [op], other);
    OpsOfOne(op, other);
  }

  lemma {:induction false} QueueTouches(ops: seq<Op>, source: Source, owes: seq<Owe>, other: Source)
    requires other != source
    ensures OpsOf(QueueAll(ops, source, owes), other) == OpsOf(ops, other)
    decreases |owes|
  {
    hide OpsOf, WithdrawRmdirs;
    if owes != [] {
      match owes[0] {
        case MakeNotebook(path) =>
          WithdrawTouches(ops, source, path, other);
          AddTouches(WithdrawRmdirs(ops, source, path), Op(source, Mkdir, None, None, path, None, None), other);
        case SendFile(id, path) =>
          AddTouches(ops, Op(source, Upload, None, Some(id), path, None, None), other);
        case WriteNote(id, path) =>
          AddTouches(ops, Op(source, Write, Some(id), None, path, None, None), other);
      }
      QueueTouches(QueueOne(ops, source, owes[0]), source, owes[1..], other);
    }
  }

  /** An op of one source is there or not; what is another's does not change. */
  lemma HeadTouches(head: seq<Op>, op: Op, rest: seq<Op>, other: Source)
    requires head == [op] || (head == [] && op.source != other)
    ensures OpsOf(head + rest, other) == (if op.source == other then [op] else []) + OpsOf(rest, other)
  {
    OpsOfConcat(head, rest, other);
    OpsOfOne(op, other);
    OpsOfNothing(other);
  }

  lemma {:induction false} StayingTouches(t: Tables, source: Source, k: Keeping, ops: seq<Op>, other: Source)
    requires other != source
    ensures OpsOf(OpsStaying(t, source, k, ops), other) == OpsOf(ops, other)
  {
    hide OpStays;
    if ops != [] {
      StayingTouches(t, source, k, ops[1..], other);
      OtherOpStays(t, source, k, ops[0]);
      HeadTouches(if OpStays(t, source, k, ops[0]) then [ops[0]] else [], ops[0], OpsStaying(t, source, k, ops[1..]), other);
    }
  }

  lemma OtherOpStays(t: Tables, source: Source, k: Keeping, op: Op)
    ensures op.source != source ==> OpStays(t, source, k, op)
  {
    hide KeptFiles;
  }

  lemma {:induction false} ForgettingTouches(ops: seq<Op>, source: Source, other: Source)
    requires other != source
    ensures OpsOf(OpsNotOf(ops, source), other) == OpsOf(ops, other)
  {
    if ops != [] {
      ForgettingTouches(ops[1..], source, other);
      HeadTouches(if ops[0].source == source then [] else [ops[0]], ops[0], OpsNotOf(ops[1..], source), other);
    }
  }

  lemma {:induction false} CuttingTouches(ops: seq<Op>, source: Source, other: Source)
    requires other != source
    ensures OpsOf(OnlyUploads(ops, source), other) == OpsOf(ops, other)
  {
    if ops != [] {
      CuttingTouches(ops[1..], source, other);
      HeadTouches(if ops[0].source == source && ops[0].kind != Upload then [] else [ops[0]], ops[0], OnlyUploads(ops[1..], source), other);
    }
  }

  // ----- Steps -------------------------------------------------------------------------

  datatype Event =
    | Binding(input: BindInput, plan: BindPlan)
    | Verifying(connection: nat, asked: nat, found: bool, owes: seq<Owe>)
    | Detaching(connection: nat, reason: Reason, holding: set<Id>, since: Option<nat>, links: Links, now: int)
    | Releasing(connection: nat, seen: Seen, holding: set<Id>, links: Links, now: int)
    | Moving(move: MoveInput, landing: Plan, owes: seq<Owe>)

  /** What is queued after rows are cut loose is what they owe. */
  ghost predicate OwesWhatItCut(d: Device, c: nat, owes: seq<Owe>) {
    var cut := CutLoose(d.tables, Connection(c));
    Enumerates(owes, OwesOf(RowsOf(cut.tables, Connection(c)), cut.owed))
  }

  ghost predicate IsEnabled(d: Device, e: Event) {
    match e
    case Binding(input, plan) => UnchangedSince(d, input.since) ==> ValidBind(d, input, plan)
    case Verifying(c, asked, found, owes) => StillAsked(d, c, asked) && !found ==> OwesWhatItCut(d, c, owes)
    case Moving(move, landing, owes) => Refusal(d, move).None? ==> ValidMove(d, move, landing, owes)
    case _ => true
  }

  ghost function Step(d: Device, e: Event): Device
    requires IsEnabled(d, e)
  {
    match e
    case Binding(input, plan) => Bind(d, input, plan)
    case Verifying(c, asked, found, owes) => Verify(d, c, asked, found, owes).0
    case Detaching(c, reason, holding, since, links, now) => Detach(d, c, reason, holding, since, links, now)
    case Releasing(c, seen, holding, links, now) => Release(d, c, seen, holding, links, now).device
    case Moving(move, landing, owes) => MoveUnsyncedTo(d, move, landing, owes).device
  }

  /** Where a bind takes a note: home with its source, or out of the device's own pile. */
  ghost function KeyBound(d: Device, input: BindInput, plan: BindPlan, key: Key): Key
    requires ValidBind(d, input, plan)
  {
    var resumed := KeyResumed(d.tables, input.connection, plan.homes, plan.resumes, key);
    if PileIsHeld(d) then resumed
    else KeyAfter(ResumeAll(d.tables, input.connection, plan.homes, plan.resumes).tables, PileMove(d, input), plan.copy, resumed)
  }

  /** Where a note is after a step. */
  ghost function KeyNow(d: Device, e: Event, key: Key): Key
    requires IsEnabled(d, e)
  {
    match e
    case Binding(input, plan) => if UnchangedSince(d, input.since) then KeyBound(d, input, plan, key) else key
    case Moving(move, landing, _) =>
      if Refusal(d, move).None? then KeyAfter(d.tables, UnsentMove(d, move), landing, key) else key
    case _ => key
  }

  /** A release that is not refused, shown the note as it stands: no editor holds text of it. */
  predicate IsLetGo(d: Device, e: Event, key: Key) {
    && e.Releasing? && key.source == Connection(e.connection)
    && e.connection in d.states && !IsLiveSource(d.states[e.connection])
    && key.id in RowsOf(d.tables, key.source).notes
    && WasSeen(e.seen, key.id, RowsOf(d.tables, key.source).notes[key.id])
    && key.id !in e.holding
  }

  lemma BindKeepsText(d: Device, input: BindInput, plan: BindPlan, key: Key)
    requires UnchangedSince(d, input.since) && ValidBind(d, input, plan) && IsUnsentAt(d.tables, key)
    ensures TextIsAt(Bind(d, input, plan).tables, KeyBound(d, input, plan, key), NoteAt(d.tables, key))
  {
    hide CanMove, MoveRowsTo, ValidResumes, ResumeAll, KeyResumed, KeyAfter, QueueAll, BoundState, PileIsHeld;
    ResumesKeepText(d.tables, input.connection, plan.homes, plan.resumes, key);
    if !PileIsHeld(d) {
      MoveKeepsText(ResumeAll(d.tables, input.connection, plan.homes, plan.resumes).tables, PileMove(d, input), plan.copy,
                    KeyResumed(d.tables, input.connection, plan.homes, plan.resumes, key));
    }
  }

  lemma KeptStays(t: Tables, source: Source, k: Keeping, key: Key)
    requires IsUnsentAt(t, key) && (key.source == source ==> key.id in k.staying)
    ensures TextIsAt(KeepOnly(t, source, k), key, NoteAt(t, key))
  {
    hide KeptFiles, NeededFolders, OpsStaying;
  }

  lemma UnsentIsListed(t: Tables, source: Source, unverified: bool, id: Id)
    requires IsUnsentAt(t, Key(source, id))
    ensures id in UnsyncedIn(t, source, unverified).notes
  {
    hide IsUnsentFolder;
  }

  lemma DetachKeepsText(d: Device, e: Event, key: Key)
    requires e.Detaching? && IsUnsentAt(d.tables, key)
    ensures TextIsAt(Step(d, e).tables, key, NoteAt(d.tables, key))
  {
    hide KeptFiles, NeededFolders, OpsStaying, IsUnsentFolder, OpsNotOf, KeepOnly, UnsyncedIn;
    var source := Connection(e.connection);
    if UnchangedSince(d, e.since) && e.connection in d.states {
      var unsent := UnsyncedIn(d.tables, source, Unverified(d, e.connection));
      var heldOnly := HeldIn(d.tables, source, e.holding) - Listed(unsent);
      if key.source == source {
        UnsentIsListed(d.tables, source, Unverified(d, e.connection), key.id);
      }
      KeptStays(d.tables, source, Keeping(unsent, Listed(unsent) + heldOnly, unsent.files, e.links), key);
    }
  }

  lemma KeepUnseenKeepsText(d: Device, c: nat, seen: Seen, holding: set<Id>, links: Links, now: int, key: Key)
    requires c in d.states && IsUnsentAt(d.tables, key)
    requires key.source == Connection(c) ==> !WasSeen(seen, key.id, NoteAt(d.tables, key)) || key.id in holding
    ensures TextIsAt(KeepUnseen(d, c, seen, holding, links, now).device.tables, key, NoteAt(d.tables, key))
  {
    hide KeptFiles, NeededFolders, OpsStaying, IsUnsentFolder, KeepOnly, UnsyncedIn;
    var source := Connection(c);
    var unsent := UnsyncedIn(d.tables, source, Unverified(d, c));
    if key.source == source {
      UnsentIsListed(d.tables, source, Unverified(d, c), key.id);
    }
    var staying := UnseenNotes(d.tables, source, unsent, seen) + HeldIn(d.tables, source, holding);
    KeptStays(d.tables, source, Keeping(unsent, staying, unsent.files - seen.files, links), key);
  }

  lemma ReleaseKeepsText(d: Device, e: Event, key: Key)
    requires e.Releasing? && IsUnsentAt(d.tables, key) && !IsLetGo(d, e, key)
    ensures TextIsAt(Step(d, e).tables, key, NoteAt(d.tables, key))
  {
    hide KeptFiles, NeededFolders, OpsStaying, IsUnsentFolder, OpsNotOf, KeepOnly, UnsyncedIn, KeepUnseen;
    var c, source := e.connection, Connection(e.connection);
    if c in d.states && !IsLiveSource(d.states[c]) {
      var unsent := UnsyncedIn(d.tables, source, Unverified(d, c));
      if key.source == source {
        UnsentIsListed(d.tables, source, Unverified(d, c), key.id);
        assert !WasSeen(e.seen, key.id, NoteAt(d.tables, key)) ==> key.id in UnseenNotes(d.tables, source, unsent, e.seen);
        assert key.id in e.holding ==> key.id in HeldIn(d.tables, source, e.holding);
      }
      KeepUnseenKeepsText(d.(bindings := d.bindings + 1), c, e.seen, e.holding, e.links, e.now, key);
    }
  }

  /** A note the move does not take was not shown as it stands, or is held by an editor. */
  lemma StayingIsUnseen(d: Device, move: MoveInput, id: Id)
    requires IsUnsentAt(d.tables, Key(Connection(move.from), id))
    requires id !in NotesTaken(UnsentMove(d, move), RowsOf(d.tables, Connection(move.from)))
    ensures !WasSeen(move.seen, id, RowsOf(d.tables, Connection(move.from)).notes[id]) || id in move.holding
    ensures UnseenIn(d.tables, Connection(move.from), MovingUnsent(d, move), move.seen)
            || HeldIn(d.tables, Connection(move.from), move.holding) != {}
  {
    hide IsUnsentFolder, MovingFolders, MovingFiles, UnsyncedIn;
    var source := Connection(move.from);
    UnsentIsListed(d.tables, source, Unverified(d, move.from), id);
    var unsent := MovingUnsent(d, move);
    assert id in MovingNotes(d.tables, source, unsent, move.seen, move.holding)
           || !WasSeen(move.seen, id, RowsOf(d.tables, source).notes[id]) || id in move.holding;
    assert id in UnseenNotes(d.tables, source, unsent, move.seen) || WasSeen(move.seen, id, RowsOf(d.tables, source).notes[id]);
    assert id in move.holding ==> id in HeldIn(d.tables, source, move.holding);
  }

  /** What the move leaves of the tables, its queue included. */
  function AfterMove(d: Device, move: MoveInput, landing: Plan, owes: seq<Owe>): Device
    requires CanMove(d.tables, UnsentMove(d, move), landing)
  {
    var moved := MoveRowsTo(d.tables, UnsentMove(d, move), landing);
    d.(tables := moved.tables.(ops := QueueAll(moved.tables.ops, Connection(move.target), owes)), bindings := d.bindings + 1)
  }

  lemma MovingUnfolds(d: Device, e: Event)
    requires e.Moving? && IsEnabled(d, e) && Refusal(d, e.move).None?
    ensures CanMove(d.tables, UnsentMove(d, e.move), e.landing) && e.move.from != e.move.target && e.move.from in d.states
    ensures var source, after := Connection(e.move.from), AfterMove(d, e.move, e.landing, e.owes);
            Step(d, e) ==
              if !UnseenIn(d.tables, source, MovingUnsent(d, e.move), e.move.seen) && HeldIn(d.tables, source, e.move.holding) == {}
              then ForgetSource(after.(tables := ForgetRows(after.tables, source)), e.move.from)
              else KeepUnseen(after, e.move.from, e.move.seen, e.move.holding, e.move.links, e.move.now).device
  {
    hide UnsyncedIn, KeepUnseen, QueueAll, MoveRowsTo, CanMove, MovingFolders, MovingFiles, UnseenIn, MovingNotes,
      HeldIn;
  }

  lemma MovingKeepsText(d: Device, e: Event, key: Key)
    requires e.Moving? && IsEnabled(d, e) && IsUnsentAt(d.tables, key)
    ensures TextIsAt(Step(d, e).tables, KeyNow(d, e, key), NoteAt(d.tables, key))
  {
    hide UnsyncedIn, KeepUnseen, QueueAll, MoveRowsTo, CanMove, MovingFolders, MovingFiles, UnseenIn, MovingNotes,
      HeldIn, NotesTaken, OpsNotOf, Refusal, UnsentMove;
    if Refusal(d, e.move).None? {
      MovingUnfolds(d, e);
      var m, source, note := UnsentMove(d, e.move), Connection(e.move.from), NoteAt(d.tables, key);
      var now := KeyAfter(d.tables, m, e.landing, key);
      var after := AfterMove(d, e.move, e.landing, e.owes);
      UnsentMoveGoes(d, e.move);
      MoveKeepsText(d.tables, m, e.landing, key);
      assert TextIsAt(after.tables, now, note);
      if now.source == source {
        StayingKey(d, e, key);
        StayingIsUnseen(d, e.move, key.id);
      }
      if UnseenIn(d.tables, source, MovingUnsent(d, e.move), e.move.seen) || HeldIn(d.tables, source, e.move.holding) != {} {
        KeepUnseenKeepsText(after, e.move.from, e.move.seen, e.move.holding, e.move.links, e.move.now, now);
      }
    }
  }

  lemma NotRefused(d: Device, move: MoveInput)
    ensures Refusal(d, move).None? ==>
              move.from in d.states && !IsLiveSource(d.states[move.from]) && move.from != move.target
  {
    hide MovingUnsent, MovingNotes, UnseenIn;
  }

  lemma UnsentMoveGoes(d: Device, move: MoveInput)
    ensures var m := UnsentMove(d, move);
            m.from == Connection(move.from) && m.target == Connection(move.target) && !m.keep && m.mode == Copy
  {}

  /** A note still under the source is one that was not taken, as it was. */
  lemma StayingKey(d: Device, e: Event, key: Key)
    requires e.Moving? && IsEnabled(d, e) && Refusal(d, e.move).None? && IsUnsentAt(d.tables, key)
    requires CanMove(d.tables, UnsentMove(d, e.move), e.landing) && e.move.from != e.move.target
    requires KeyAfter(d.tables, UnsentMove(d, e.move), e.landing, key).source == Connection(e.move.from)
    ensures key.source == Connection(e.move.from) && KeyAfter(d.tables, UnsentMove(d, e.move), e.landing, key) == key
    ensures key.id !in NotesTaken(UnsentMove(d, e.move), RowsOf(d.tables, Connection(e.move.from)))
  {
    UnsentMoveGoes(d, e.move);
    hide UnsyncedIn, MoveRowsTo, WellFormed, ValidPlan, MovingFolders, MovingFiles, MovingNotes, UnsentMove, Refusal,
      NotesTaken;
    var m := UnsentMove(d, e.move);
    if key.id in NotesTaken(m, RowsOf(d.tables, m.from)) && key.source == m.from {
      UnsentGoes(d.tables, m, e.landing, key.id);
      NoteArrives(d.tables, m, e.landing, key.id);
    }
  }

  // ----- Every step, every run ---------------------------------------------------------

  /**
    After any step, a note the remote was never sent is where the step took it, unsent
    still and with its text — unless the user was shown it as it stands and let it go.
   */
  lemma StepKeepsText(d: Device, e: Event, key: Key)
    requires IsEnabled(d, e) && IsUnsentAt(d.tables, key) && !IsLetGo(d, e, key)
    ensures TextIsAt(Step(d, e).tables, KeyNow(d, e, key), NoteAt(d.tables, key))
  {
    hide ValidBind, Bind, KeyBound, VerifyResume, Detach, Release, MoveUnsyncedTo, ValidMove, Refusal, UnsentMove;
    match e {
      case Binding(input, plan) =>
        if UnchangedSince(d, input.since) {
          BindKeepsText(d, input, plan, key);
        } else {
          BindDoesNothing(d, input, plan);
        }
      case Verifying(c, asked, found, owes) =>
        if StillAsked(d, c, asked) {
          CutKeepsText(d, c, found, owes, key);
        }
      case Detaching(_, _, _, _, _, _) => DetachKeepsText(d, e, key);
      case Releasing(_, _, _, _, _) => ReleaseKeepsText(d, e, key);
      case Moving(_, _, _) => MovingKeepsText(d, e, key);
    }
  }

  lemma BindDoesNothing(d: Device, input: BindInput, plan: BindPlan)
    requires !UnchangedSince(d, input.since)
    ensures Bind(d, input, plan) == d
  {}

  lemma CutKeepsText(d: Device, c: nat, found: bool, owes: seq<Owe>, key: Key)
    requires c in d.states && IsUnsentAt(d.tables, key)
    ensures TextIsAt(VerifyResume(d, c, found, owes).tables, key, NoteAt(d.tables, key))
  {
    hide QueueAll, OnlyUploads, FileStays;
  }

  /** Two notes stay two. */
  lemma StepKeepsApart(d: Device, e: Event, a: Key, b: Key)
    requires IsEnabled(d, e) && IsUnsentAt(d.tables, a) && IsUnsentAt(d.tables, b) && a != b
    ensures KeyNow(d, e, a) != KeyNow(d, e, b)
  {
    hide KeyResumed, KeyAfter, CanMove, ValidResumes, ResumeAll, MoveRowsTo, Refusal, UnsentMove, PileIsHeld, PileMove,
      QueueAll;
    match e {
      case Binding(input, plan) =>
        if UnchangedSince(d, input.since) {
          ResumesKeepApart(d.tables, input.connection, plan.homes, plan.resumes, a, b);
          if !PileIsHeld(d) {
            ResumesKeepText(d.tables, input.connection, plan.homes, plan.resumes, a);
            ResumesKeepText(d.tables, input.connection, plan.homes, plan.resumes, b);
            MoveKeepsApart(
              ResumeAll(d.tables, input.connection, plan.homes, plan.resumes).tables, PileMove(d, input), plan.copy,
              KeyResumed(d.tables, input.connection, plan.homes, plan.resumes, a),
              KeyResumed(d.tables, input.connection, plan.homes, plan.resumes, b));
          }
        }
      case Moving(move, landing, owes) =>
        if Refusal(d, move).None? {
          MoveKeepsApart(d.tables, UnsentMove(d, move), landing, a, b);
        }
      case _ =>
    }
  }

  /** The sources a step may take a note into: its own, the one it is resumed or imported into, the one named. */
  ghost predicate MayBeIn(d: Device, e: Event, from: Source, now: Source) {
    || now == from
    || (e.Binding? && now == Connection(e.input.connection)
        && (from == Pile || exists h :: h in Homes(d, e.input) && from == Connection(h)))
    || (e.Moving? && now == Connection(e.move.target) && from == Connection(e.move.from))
  }

  lemma KeyStaysHome(d: Device, e: Event, key: Key)
    requires IsEnabled(d, e) && IsUnsentAt(d.tables, key)
    ensures MayBeIn(d, e, key.source, KeyNow(d, e, key).source)
  {
    hide KeyResumed, CanMove, ValidResumes, ResumeAll, MoveRowsTo, Refusal, UnsentMove, PileIsHeld, QueueAll,
      NotesTaken, Homes;
    match e {
      case Binding(input, plan) =>
        if UnchangedSince(d, input.since) {
          ResumesKeepText(d.tables, input.connection, plan.homes, plan.resumes, key);
          assert forall h :: h in plan.homes ==> h in Homes(d, input);
        }
      case Moving(move, _, _) => UnsentMoveGoes(d, move);
      case _ =>
    }
  }

  ghost predicate CanRun(d: Device, events: seq<Event>)
    decreases |events|
  {
    events == [] || (IsEnabled(d, events[0]) && CanRun(Step(d, events[0]), events[1..]))
  }

  ghost function Run(d: Device, events: seq<Event>): Device
    requires CanRun(d, events)
    decreases |events|
  {
    if events == [] then d else Run(Step(d, events[0]), events[1..])
  }

  /** Where a note is after a run, if the user never let it go. */
  ghost function KeyAtEnd(d: Device, events: seq<Event>, key: Key): Option<Key>
    requires CanRun(d, events)
    decreases |events|
  {
    if events == [] then Some(key)
    else if IsLetGo(d, events[0], key) then None
    else KeyAtEnd(Step(d, events[0]), events[1..], KeyNow(d, events[0], key))
  }

  /**
    Over any run, every note the remote was never sent is still on the device, unsent,
    with its text, at a key of its own — unless the user was shown it and let it go.
   */
  lemma {:induction false} RunKeepsText(d: Device, events: seq<Event>, key: Key)
    requires CanRun(d, events) && IsUnsentAt(d.tables, key)
    ensures var end := KeyAtEnd(d, events, key);
            end.Some? ==> TextIsAt(Run(d, events).tables, end.value, NoteAt(d.tables, key))
    decreases |events|
  {
    hide Step, KeyNow, IsEnabled, IsLetGo, IsUnsent;
    if events != [] && !IsLetGo(d, events[0], key) {
      StepKeepsText(d, events[0], key);
      RunKeepsText(Step(d, events[0]), events[1..], KeyNow(d, events[0], key));
    }
  }

  lemma {:induction false} RunKeepsApart(d: Device, events: seq<Event>, a: Key, b: Key)
    requires CanRun(d, events) && IsUnsentAt(d.tables, a) && IsUnsentAt(d.tables, b) && a != b
    ensures KeyAtEnd(d, events, a).Some? ==> KeyAtEnd(d, events, a) != KeyAtEnd(d, events, b)
    decreases |events|
  {
    hide Step, KeyNow, IsEnabled, IsLetGo, IsUnsent;
    if events != [] && !IsLetGo(d, events[0], a) && !IsLetGo(d, events[0], b) {
      StepKeepsText(d, events[0], a);
      StepKeepsText(d, events[0], b);
      StepKeepsApart(d, events[0], a, b);
      RunKeepsApart(Step(d, events[0]), events[1..], KeyNow(d, events[0], a), KeyNow(d, events[0], b));
    }
  }

  // ----- What a step does not name -----------------------------------------------------

  /** The sources a step is about. */
  ghost predicate IsNamed(d: Device, e: Event, source: Source) {
    match e
    case Binding(input, _) =>
      || source == Connection(input.connection)
      || (source == Pile && !PileIsHeld(d) && !IsFirstBinding(d, input))
      || exists h :: h in Homes(d, input) && source == Connection(h)
    case Verifying(c, _, _, _) => source == Connection(c)
    case Detaching(c, _, _, _, _, _) => source == Connection(c)
    case Releasing(c, _, _, _, _) => source == Connection(c)
    case Moving(move, _, _) => source == Connection(move.from) || source == Connection(move.target)
  }

  ghost predicate IsUntouched(t: Tables, u: Tables, source: Source) {
    RowsOf(u, source) == RowsOf(t, source) && OpsOf(u.ops, source) == OpsOf(t.ops, source)
  }

  lemma KeptPileIsUntouched(t: Tables, m: Move, p: Plan)
    requires CanMove(t, m, p) && m.keep && m.mode == Copy
    ensures IsUntouched(t, MoveRowsTo(t, m, p).tables, m.from)
  {
    hide ValidPlan, Place, Shelve, Carry, CarryOps, IsLinked, WellFormed, Arrived, MoveRowsTo, OpsOf;
    MoveUnfolds(t, m, p);
    KeptOpsStay(WhereOf(t, m, p), t.ops);
  }

  /** A copy that keeps what it copies changes no op. */
  lemma {:induction false} KeptOpsStay(w: Whereto, ops: seq<Op>)
    requires w.m.keep && w.m.mode == Copy
    ensures CarryOps(w, ops) == ops
    decreases |ops|
  {
    if ops != [] {
      KeptOpsStay(w, ops[..|ops| - 1]);
    }
  }

  lemma BindTouches(d: Device, input: BindInput, plan: BindPlan, source: Source)
    requires UnchangedSince(d, input.since) && ValidBind(d, input, plan) && !IsNamed(d, Binding(input, plan), source)
    ensures IsUntouched(d.tables, Bind(d, input, plan).tables, source)
  {
    hide CanMove, MoveRowsTo, ValidResumes, ResumeAll, QueueAll, BoundState, PileIsHeld, IsFirstBinding, OpsOf, Homes;
    assert forall h :: h in plan.homes ==> h in Homes(d, input);
    ResumesTouch(d.tables, input.connection, plan.homes, plan.resumes, source);
    var t := ResumeAll(d.tables, input.connection, plan.homes, plan.resumes).tables;
    if !PileIsHeld(d) {
      if source == Pile {
        KeptPileIsUntouched(t, PileMove(d, input), plan.copy);
      } else {
        OthersAreUntouched(t, PileMove(d, input), plan.copy, source);
      }
    }
    QueueTouches(Gathered(d, input, plan).tables.ops, Connection(input.connection), plan.owes, source);
  }

  lemma KeepOnlyTouches(t: Tables, c: Source, k: Keeping, source: Source)
    requires source != c
    ensures IsUntouched(t, KeepOnly(t, c, k), source) && IsUntouched(t, ForgetRows(t, c), source)
  {
    hide KeptFiles, NeededFolders, OpsStaying, OpsOf, OpsNotOf;
    StayingTouches(t, c, k, t.ops, source);
    ForgettingTouches(t.ops, c, source);
  }

  lemma MovingTouches(d: Device, e: Event, source: Source)
    requires e.Moving? && IsEnabled(d, e) && !IsNamed(d, e, source)
    ensures IsUntouched(d.tables, Step(d, e).tables, source)
  {
    hide UnsyncedIn, QueueAll, MoveRowsTo, ValidPlan, WellFormed, MovingFolders, MovingFiles, UnseenIn, MovingNotes,
      HeldIn, OpsNotOf, Refusal, UnsentMove, KeepOnly, ForgetRows, OpsOf, ValidMove;
    if Refusal(d, e.move).None? {
      MovingUnfolds(d, e);
      UnsentMoveGoes(d, e.move);
      var after := AfterMove(d, e.move, e.landing, e.owes);
      OthersAreUntouched(d.tables, UnsentMove(d, e.move), e.landing, source);
      QueueTouches(MoveRowsTo(d.tables, UnsentMove(d, e.move), e.landing).tables.ops, Connection(e.move.target), e.owes, source);
      KeepUnseenTouches(after, e.move.from, e.move.seen, e.move.holding, e.move.links, e.move.now, source);
    }
  }

  lemma KeepUnseenTouches(d: Device, c: nat, seen: Seen, holding: set<Id>, links: Links, now: int, source: Source)
    requires c in d.states && source != Connection(c)
    ensures IsUntouched(d.tables, KeepUnseen(d, c, seen, holding, links, now).device.tables, source)
    ensures IsUntouched(d.tables, ForgetRows(d.tables, Connection(c)), source)
  {
    hide UnsyncedIn, HeldIn, KeepOnly, ForgetRows, OpsOf, UnseenNotes;
    var unsent := UnsyncedIn(d.tables, Connection(c), Unverified(d, c));
    var staying := UnseenNotes(d.tables, Connection(c), unsent, seen) + HeldIn(d.tables, Connection(c), holding);
    KeepOnlyTouches(d.tables, Connection(c), Keeping(unsent, staying, unsent.files - seen.files, links), source);
  }

  lemma DetachTouches(d: Device, e: Event, source: Source)
    requires e.Detaching? && source != Connection(e.connection)
    ensures IsUntouched(d.tables, Step(d, e).tables, source)
  {
    hide UnsyncedIn, HeldIn, KeepOnly, ForgetRows, OpsOf;
    var c := Connection(e.connection);
    var unsent := UnsyncedIn(d.tables, c, Unverified(d, e.connection));
    var heldOnly := HeldIn(d.tables, c, e.holding) - Listed(unsent);
    KeepOnlyTouches(d.tables, c, Keeping(unsent, Listed(unsent) + heldOnly, unsent.files, e.links), source);
  }

  lemma ReleaseTouches(d: Device, e: Event, source: Source)
    requires e.Releasing? && source != Connection(e.connection)
    ensures IsUntouched(d.tables, Step(d, e).tables, source)
  {
    hide UnsyncedIn, HeldIn, KeepOnly, ForgetRows, OpsOf, UnseenNotes, UnseenIn, KeepUnseen;
    if e.connection in d.states {
      KeepUnseenTouches(d.(bindings := d.bindings + 1), e.connection, e.seen, e.holding, e.links, e.now, source);
    }
  }

  lemma CutTouches(d: Device, c: nat, found: bool, owes: seq<Owe>, source: Source)
    requires c in d.states && source != Connection(c)
    ensures IsUntouched(d.tables, VerifyResume(d, c, found, owes).tables, source)
  {
    hide QueueAll, OnlyUploads, CutRows, OpsOf;
    CuttingTouches(d.tables.ops, Connection(c), source);
    QueueTouches(OnlyUploads(d.tables.ops, Connection(c)), Connection(c), owes, source);
  }

  /** The rows of a source a step does not name, and its queue, are as they were. */
  lemma UnnamedIsUntouched(d: Device, e: Event, source: Source)
    requires IsEnabled(d, e) && !IsNamed(d, e, source)
    ensures IsUntouched(d.tables, Step(d, e).tables, source)
  {
    hide ValidBind, Bind, VerifyResume, Detach, Release, MoveUnsyncedTo, ValidMove, Refusal, UnsentMove, Homes, OpsOf,
      PileIsHeld, IsFirstBinding;
    match e {
      case Binding(input, plan) =>
        if UnchangedSince(d, input.since) {
          BindTouches(d, input, plan, source);
        } else {
          BindDoesNothing(d, input, plan);
        }
      case Verifying(c, asked, found, owes) =>
        if StillAsked(d, c, asked) {
          CutTouches(d, c, found, owes, source);
        }
      case Detaching(_, _, _, _, _, _) => DetachTouches(d, e, source);
      case Releasing(_, _, _, _, _) => ReleaseTouches(d, e, source);
      case Moving(_, _, _) => MovingTouches(d, e, source);
    }
  }

  /** No step of the run is about the source. */
  ghost predicate IsNeverNamed(d: Device, events: seq<Event>, source: Source)
    requires CanRun(d, events)
    decreases |events|
  {
    events == [] || (!IsNamed(d, events[0], source) && IsNeverNamed(Step(d, events[0]), events[1..], source))
  }

  /** Over a whole run, a source no step names keeps its rows and its queue exactly. */
  lemma {:induction false} RunLeavesAlone(d: Device, events: seq<Event>, source: Source)
    requires CanRun(d, events) && IsNeverNamed(d, events, source)
    ensures IsUntouched(d.tables, Run(d, events).tables, source)
    decreases |events|
  {
    hide Step, IsEnabled, IsNamed, OpsOf;
    if events != [] {
      UnnamedIsUntouched(d, events[0], source);
      RunLeavesAlone(Step(d, events[0]), events[1..], source);
    }
  }
}
