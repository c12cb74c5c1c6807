/**
  The queue over runs of a device: every op about a note or a file names one that is there.
 */
module SourceQueues {
  import opened Options
  import opened Paths
  import opened Naming
  import opened Library
  import opened MoveNotes
  import opened MoveFiles
  import opened MoveRows
  import opened MoveKeeps
  import opened MoveQueue
  import opened Unsynced
  import opened Sources
  import opened SourceRuns

  /** An op is about one row or about none, and an upload is of a file not on the remote yet. */
  ghost predicate NamesARow(rows: Rows, op: Op) {
    && (op.noteId.Some? ==> op.noteId.value in rows.notes && op.fileId.None?)
    && (op.fileId.Some? ==> op.fileId.value in rows.files)
    && (op.kind.Rmdir? || op.kind.DeleteFile? || op.kind.Mkdir? ==> op.noteId.None? && op.fileId.None?)
    && (op.kind.Upload? ==> op.fileId.Some? && rows.files[op.fileId.value].remoteId.None?)
  }

  ghost predicate QueuesNameRows(t: Tables) {
    forall op :: op in t.ops ==> NamesARow(RowsOf(t, op.source), op)
  }

  /** An op stays sound where the rows it could name stay as they are. */
  lemma StillNamesARow(before: Rows, after: Rows, op: Op)
    requires NamesARow(before, op)
    requires op.noteId.Some? ==> op.noteId.value in after.notes
    requires op.fileId.Some? ==> op.fileId.value in after.files
                                 && (before.files[op.fileId.value].remoteId.None? ==> after.files[op.fileId.value].remoteId.None?)
    ensures NamesARow(after, op)
  {}

  // ----- One move ----------------------------------------------------------------------

  /** The moves the operations make: a resume of everything, or a copy. */
  predicate IsMade(m: Move) {
    m.mode == Copy || (m.only == Everything && !m.keep)
  }

  lemma CarriedNamesARow(t: Tables, m: Move, p: Plan, was: Op)
    requires CanMove(t, m, p) && m.mode == Resume && m.only == Everything && QueuesNameRows(t)
    requires was in t.ops && Leaves(WhereOf(t, m, p), was) && !Dropped(WhereOf(t, m, p), was)
    ensures NamesARow(Arrived(t, m, p), Carried(WhereOf(t, m, p), was))
  {
    assert NamesARow(RowsOf(t, m.from), was);
    hide ValidPlan, Place, Shelve, Carry, WellFormed, Arrived, YieldedBy, AsTheyWere, RowsOf;
    if was.noteId.Some? {
      CarriedNoteIsThere(t, m, p, was.noteId.value);
    }
    if was.fileId.Some? {
      CarriedFileIsThere(t, m, p, was.fileId.value);
      CarriedFileIsItself(t, m, p, was.fileId.value);
    }
  }

  lemma CarriedFileIsItself(t: Tables, m: Move, p: Plan, id: Id)
    requires CanMove(t, m, p) && id in AsTheyWere(Carry(t, m, p))
    ensures var to := AsTheyWere(Carry(t, m, p))[id];
            id in RowsOf(t, m.from).files && to in Arrived(t, m, p).files && Arrived(t, m, p).files[to] == RowsOf(t, m.from).files[id]
  {
    FilesArePlaced(t, m, p);
    hide ValidPlan, Place, Shelve, Carry, WellFormed, ValidCarrying, DistinctFiles, IsSendable, FoldPath;
    assert FiledAs(CarryingOf(t, m, p), Carry(t, m, p), id);
  }

  /** An op that stays behind names a row that stays behind. */
  lemma StayingNamesARow(t: Tables, m: Move, p: Plan, op: Op)
    requires CanMove(t, m, p) && IsMade(m) && QueuesNameRows(t) && op in t.ops && op.source == m.from
    requires m.keep || !Leaves(WhereOf(t, m, p), op)
    ensures NamesARow(Left(m, RowsOf(t, m.from)), op)
  {
    hide ValidPlan, WellFormed, Place, Carry, YieldedBy, AsTheyWere;
    assert NamesARow(RowsOf(t, m.from), op);
  }

  lemma TargetStillNames(t: Tables, m: Move, p: Plan, op: Op)
    requires CanMove(t, m, p) && QueuesNameRows(t) && op in t.ops && op.source == m.target
    ensures NamesARow(Arrived(t, m, p), op)
  {
    TargetStands(t, m, p);
    hide ValidPlan, WellFormed, Arrived;
    assert NamesARow(RowsOf(t, m.target), op);
    StillNamesARow(RowsOf(t, m.target), Arrived(t, m, p), op);
  }

  /** A move leaves every queue naming rows that are there. */
  lemma MoveKeepsQueues(t: Tables, m: Move, p: Plan)
    requires CanMove(t, m, p) && IsMade(m) && QueuesNameRows(t)
    ensures QueuesNameRows(MoveRowsTo(t, m, p).tables)
  {
    MoveUnfolds(t, m, p);
    var u, w := MoveRowsTo(t, m, p).tables, WhereOf(t, m, p);
    hide ValidPlan, WellFormed, MoveRowsTo, Arrived, Left, CarryOps, RowsOf, NamesARow, WhereOf, Dropped, Leaves;
    forall op | op in u.ops
      ensures NamesARow(RowsOf(u, op.source), op)
    {
      CarriedFrom(w, t.ops, op);
      var was :| was in t.ops && op in CarryOp(w, was);
      OneOpNames(t, m, p, was, op);
    }
  }

  lemma OneOpNames(t: Tables, m: Move, p: Plan, was: Op, op: Op)
    requires CanMove(t, m, p) && IsMade(m) && QueuesNameRows(t)
    requires was in t.ops && op in CarryOp(WhereOf(t, m, p), was)
    ensures NamesARow(RowsOf(MoveRowsTo(t, m, p).tables, op.source), op)
  {
    MoveUnfolds(t, m, p);
    var w := WhereOf(t, m, p);
    hide ValidPlan, WellFormed, MoveRowsTo, Arrived, Left, RowsOf, NamesARow, Dropped, Place, Carry, YieldedBy,
      AsTheyWere;
    assert w.m == m;
    if !Leaves(w, was) || Dropped(w, was) {
      assert op == was;
      if was.source == m.from {
        StayingNamesARow(t, m, p, was);
      } else if was.source == m.target {
        TargetStillNames(t, m, p, was);
      } else {
        assert NamesARow(RowsOf(t, was.source), was);
      }
    } else {
      assert !(m.mode == Copy) by { NotCopied(w, was); }
      CarriedNamesARow(t, m, p, was);
      assert op == Carried(w, was);
    }
  }

  lemma NotCopied(w: Whereto, op: Op)
    requires !Dropped(w, op)
    ensures w.m.mode == Resume
  {}

  // ----- What is queued ----------------------------------------------------------------

  /** What is owed is about rows that are there, pending files among them. */
  ghost predicate OwesRows(rows: Rows, owes: seq<Owe>) {
    forall owe :: owe in owes ==>
      match owe
      case MakeNotebook(_) => true
      case SendFile(id, _) => id in rows.files && rows.files[id].remoteId.None?
      case WriteNote(id, _) => id in rows.notes
  }

  lemma {:induction false} QueueKeepsQueues(t: Tables, source: Source, owes: seq<Owe>)
    requires QueuesNameRows(t) && OwesRows(RowsOf(t, source), owes)
    ensures QueuesNameRows(t.(ops := QueueAll(t.ops, source, owes)))
    decreases |owes|
  {
    hide RowsOf, WithdrawRmdirs;
    if owes == [] {
      assert t.(ops := t.ops) == t;
    } else {
      assert owes[0] in owes;
      var u := t.(ops := QueueOne(t.ops, source, owes[0]));
      SameRowsOf(t, u);
      forall op | op in u.ops
        ensures NamesARow(RowsOf(u, op.source), op)
      {
        QueuedIsOldOrOwed(t.ops, source, owes[0], op);
      }
      assert forall owe :: owe in owes[1..] ==> owe in owes;
      QueueKeepsQueues(u, source, owes[1..]);
    }
  }

  lemma SameRowsOf(t: Tables, u: Tables)
    requires u.rows == t.rows
    ensures forall source :: RowsOf(u, source) == RowsOf(t, source)
  {}

  lemma QueuedIsOldOrOwed(ops: seq<Op>, source: Source, owe: Owe, op: Op)
    requires op in QueueOne(ops, source, owe)
    ensures || op in ops
            || op == (match owe
                      case MakeNotebook(path) => Op(source, Mkdir, None, None, path, None, None)
                      case SendFile(id, path) => Op(source, Upload, None, Some(id), path, None, None)
                      case WriteNote(id, path) => Op(source, Write, Some(id), None, path, None, None))
  {
    hide AncestorPaths;
  }

  /** Files a move owes are pending. */
  ghost predicate FilesArePending(rows: Rows, files: set<Id>) {
    forall id :: id in files && id in rows.files ==> rows.files[id].remoteId.None?
  }

  lemma OwesAreRows(rows: Rows, owed: Owed, owes: seq<Owe>)
    requires Enumerates(owes, OwesOf(rows, owed)) && FilesArePending(rows, owed.files)
    ensures OwesRows(rows, owes)
  {
    forall owe | owe in owes
      ensures owe in OwesOf(rows, owed)
    {}
  }

  lemma MoveOwesPending(t: Tables, m: Move, p: Plan)
    requires CanMove(t, m, p)
    ensures FilesArePending(Arrived(t, m, p), MoveRowsTo(t, m, p).owed.files)
    ensures MoveRowsTo(t, m, p).owed.files !! RowsOf(t, m.target).files.Keys
  {
    FilesArePlaced(t, m, p);
    hide ValidPlan, Place, Shelve, Carry, WellFormed, ValidCarrying, DistinctFiles, IsSendable, FoldPath, CarryOps,
      IsLinked, Faithful, AtTells, FileIsKept;
    var c, g := CarryingOf(t, m, p), Carry(t, m, p);
    forall to | to in g.owed
      ensures to in g.files && g.files[to].remoteId.None? && to !in c.theirs
    {
      var id :| id in g.placed && g.placed[id] == to;
      assert FiledAs(c, g, id);
    }
  }

  // ----- Every step --------------------------------------------------------------------

  /** What is owed of files is of files there, none of them on the remote. */
  ghost predicate OwesPending(rows: Rows, files: set<Id>) {
    files <= rows.files.Keys && FilesArePending(rows, files)
  }

  lemma MoveOwes(t: Tables, m: Move, p: Plan)
    requires CanMove(t, m, p)
    ensures OwesPending(Arrived(t, m, p), MoveRowsTo(t, m, p).owed.files)
  {
    FilesArePlaced(t, m, p);
    MoveOwesPending(t, m, p);
    hide ValidPlan, Place, Shelve, Carry, WellFormed, ValidCarrying, DistinctFiles, FiledAs, CarryOps, IsLinked,
      Faithful, AtTells, FileIsKept, FilesArePending;
  }

  /** All of that of one move. */
  lemma MoveKeepsAll(t: Tables, m: Move, p: Plan)
    requires CanMove(t, m, p) && IsMade(m) && QueuesNameRows(t)
    ensures var moved := MoveRowsTo(t, m, p);
            && QueuesNameRows(moved.tables)
            && OwesPending(RowsOf(moved.tables, m.target), moved.owed.files)
            && RowsStand(RowsOf(t, m.target), RowsOf(moved.tables, m.target))
  {
    hide ValidPlan, WellFormed, MoveRowsTo, QueuesNameRows, Arrived, OwesPending;
    MoveUnfolds(t, m, p);
    MoveKeepsQueues(t, m, p);
    MoveOwes(t, m, p);
    TargetStands(t, m, p);
  }

  lemma StandingOwesPending(before: Rows, after: Rows, files: set<Id>)
    requires RowsStand(before, after) && OwesPending(before, files)
    ensures OwesPending(after, files)
  {}

  lemma TogetherOwes(rows: Rows, a: Owed, b: Owed)
    requires OwesPending(rows, a.files) && OwesPending(rows, b.files)
    ensures OwesPending(rows, Together(a, b).files)
  {}

  lemma {:induction false} ResumesKeepQueues(t: Tables, target: nat, homes: seq<nat>, plans: map<nat, Plan>)
    requires ValidResumes(t, target, homes, plans) && QueuesNameRows(t)
    ensures var moved := ResumeAll(t, target, homes, plans);
            && QueuesNameRows(moved.tables)
            && OwesPending(RowsOf(moved.tables, Connection(target)), moved.owed.files)
            && RowsStand(RowsOf(t, Connection(target)), RowsOf(moved.tables, Connection(target)))
    decreases |homes|
  {
    hide ValidPlan, WellFormed, MoveRowsTo, QueuesNameRows, RowsStand, OwesPending, Together;
    if homes == [] {
      NothingOwesPending(RowsOf(t, Connection(target)));
      RowsStandThen(RowsOf(t, Connection(target)), RowsOf(t, Connection(target)), RowsOf(t, Connection(target)));
    } else {
      var m, p := Homeward(homes[0], target), plans[homes[0]];
      MoveKeepsAll(t, m, p);
      var first := MoveRowsTo(t, m, p);
      ResumesKeepQueues(first.tables, target, homes[1..], plans);
      var rest := ResumeAll(first.tables, target, homes[1..], plans);
      var rows := RowsOf(rest.tables, Connection(target));
      StandingOwesPending(RowsOf(first.tables, Connection(target)), rows, first.owed.files);
      TogetherOwes(rows, first.owed, rest.owed);
      RowsStandThen(RowsOf(t, Connection(target)), RowsOf(first.tables, Connection(target)), rows);
    }
  }

  lemma RowsStandThen(a: Rows, b: Rows, c: Rows)
    ensures RowsStand(a, a) && (RowsStand(a, b) && RowsStand(b, c) ==> RowsStand(a, c))
  {}

  lemma NothingOwesPending(rows: Rows)
    ensures OwesPending(rows, NOTHING_OWED.files)
  {}

  lemma WaitingOwes(d: Device, input: BindInput, t: Tables)
    ensures OwesPending(RowsOf(t, Connection(input.connection)), Waiting(d, input, t).files)
  {}

  /** What a bind gathers names rows, and owes none but pending files. */
  lemma GatheredNamesRows(d: Device, input: BindInput, plan: BindPlan)
    requires UnchangedSince(d, input.since) && ValidBind(d, input, plan) && QueuesNameRows(d.tables)
    ensures var gathered := Gathered(d, input, plan);
            && QueuesNameRows(gathered.tables)
            && OwesPending(RowsOf(gathered.tables, Connection(input.connection)), gathered.owed.files)
  {
    hide ValidPlan, WellFormed, MoveRowsTo, ValidResumes, ResumeAll, PileIsHeld, QueuesNameRows, OwesPending, Waiting,
      Together, Homes, IsFirstBinding, OwesOf, Enumerates, Arrived, RowsOf;
    var target := Connection(input.connection);
    ResumesKeepQueues(d.tables, input.connection, plan.homes, plan.resumes);
    var resumed := ResumeAll(d.tables, input.connection, plan.homes, plan.resumes);
    var waiting := Waiting(d, input, resumed.tables);
    WaitingOwes(d, input, resumed.tables);
    TogetherOwes(RowsOf(resumed.tables, target), resumed.owed, waiting);
    if PileIsHeld(d) {
      NothingOwesPending(RowsOf(resumed.tables, target));
      TogetherOwes(RowsOf(resumed.tables, target), Together(resumed.owed, waiting), NOTHING_OWED);
    } else {
      var m := PileMove(d, input);
      MoveKeepsAll(resumed.tables, m, plan.copy);
      var copied := MoveRowsTo(resumed.tables, m, plan.copy);
      StandingOwesPending(RowsOf(resumed.tables, target), RowsOf(copied.tables, target), Together(resumed.owed, waiting).files);
      TogetherOwes(RowsOf(copied.tables, target), Together(resumed.owed, waiting), copied.owed);
    }
  }

  lemma BindKeepsQueues(d: Device, input: BindInput, plan: BindPlan)
    requires UnchangedSince(d, input.since) && ValidBind(d, input, plan) && QueuesNameRows(d.tables)
    ensures QueuesNameRows(Bind(d, input, plan).tables)
  {
    GatheredNamesRows(d, input, plan);
    hide CanMove, MoveRowsTo, ValidResumes, ResumeAll, PileIsHeld, QueuesNameRows, Gathered, Homes, IsFirstBinding,
      OwesOf, Enumerates, BoundState;
    var gathered, target := Gathered(d, input, plan), Connection(input.connection);
    OwesAreRows(RowsOf(gathered.tables, target), gathered.owed, plan.owes);
    QueueKeepsQueues(gathered.tables, target, plan.owes);
  }

  /** Rows made fewer, and every op kept naming one that is left. */
  lemma KeepOnlyKeepsQueues(t: Tables, source: Source, k: Keeping)
    requires QueuesNameRows(t)
    ensures QueuesNameRows(KeepOnly(t, source, k)) && QueuesNameRows(ForgetRows(t, source))
  {
    hide KeptFiles, NeededFolders;
    var u := KeepOnly(t, source, k);
    forall op | op in u.ops
      ensures NamesARow(RowsOf(u, op.source), op)
    {
      assert NamesARow(RowsOf(t, op.source), op);
    }
    ForgettingKeepsQueues(t, source);
  }

  lemma ForgettingKeepsQueues(t: Tables, source: Source)
    requires QueuesNameRows(t)
    ensures QueuesNameRows(ForgetRows(t, source))
  {
    hide NamesARow;
    var u := ForgetRows(t, source);
    forall op | op in u.ops
      ensures NamesARow(RowsOf(u, op.source), op)
    {
      assert RowsOf(u, op.source) == RowsOf(t, op.source);
    }
  }

  lemma CutKeepsQueues(t: Tables, source: Source)
    requires QueuesNameRows(t)
    ensures QueuesNameRows(CutLoose(t, source).tables)
    ensures OwesPending(RowsOf(CutLoose(t, source).tables, source), CutLoose(t, source).owed.files)
  {
    var u := CutLoose(t, source).tables;
    forall op | op in u.ops
      ensures NamesARow(RowsOf(u, op.source), op)
    {
      assert NamesARow(RowsOf(t, op.source), op);
    }
  }

  lemma VerifyKeepsQueues(d: Device, c: nat, found: bool, owes: seq<Owe>)
    requires c in d.states && QueuesNameRows(d.tables) && (!found ==> OwesWhatItCut(d, c, owes))
    ensures QueuesNameRows(VerifyResume(d, c, found, owes).tables)
  {
    if !found {
      CutKeepsQueues(d.tables, Connection(c));
      hide QueuesNameRows, CutLoose, OwesOf, Enumerates;
      var cut := CutLoose(d.tables, Connection(c));
      OwesAreRows(RowsOf(cut.tables, Connection(c)), cut.owed, owes);
      QueueKeepsQueues(cut.tables, Connection(c), owes);
    }
  }

  lemma KeepUnseenKeepsQueues(d: Device, c: nat, seen: Seen, holding: set<Id>, links: Links, now: int)
    requires c in d.states && QueuesNameRows(d.tables)
    ensures QueuesNameRows(KeepUnseen(d, c, seen, holding, links, now).device.tables)
    ensures QueuesNameRows(ForgetRows(d.tables, Connection(c)))
  {
    hide UnsyncedIn, HeldIn, KeepOnly, ForgetRows, UnseenNotes, QueuesNameRows;
    var unsent := UnsyncedIn(d.tables, Connection(c), Unverified(d, c));
    var staying := UnseenNotes(d.tables, Connection(c), unsent, seen) + HeldIn(d.tables, Connection(c), holding);
    KeepOnlyKeepsQueues(d.tables, Connection(c), Keeping(unsent, staying, unsent.files - seen.files, links));
  }

  lemma DetachKeepsQueues(d: Device, e: Event)
    requires e.Detaching? && QueuesNameRows(d.tables)
    ensures QueuesNameRows(Step(d, e).tables)
  {
    hide UnsyncedIn, HeldIn, KeepOnly, ForgetRows, QueuesNameRows;
    var c := Connection(e.connection);
    var unsent := UnsyncedIn(d.tables, c, Unverified(d, e.connection));
    var heldOnly := HeldIn(d.tables, c, e.holding) - Listed(unsent);
    KeepOnlyKeepsQueues(d.tables, c, Keeping(unsent, Listed(unsent) + heldOnly, unsent.files, e.links));
  }

  lemma ReleaseKeepsQueues(d: Device, e: Event)
    requires e.Releasing? && QueuesNameRows(d.tables)
    ensures QueuesNameRows(Step(d, e).tables)
  {
    hide UnsyncedIn, HeldIn, KeepOnly, ForgetRows, UnseenNotes, UnseenIn, KeepUnseen, QueuesNameRows;
    if e.connection in d.states {
      KeepUnseenKeepsQueues(d.(bindings := d.bindings + 1), e.connection, e.seen, e.holding, e.links, e.now);
    }
  }

  lemma MovingKeepsQueues(d: Device, e: Event)
    requires e.Moving? && IsEnabled(d, e) && QueuesNameRows(d.tables)
    ensures QueuesNameRows(Step(d, e).tables)
  {
    hide UnsyncedIn, QueueAll, MoveRowsTo, WellFormed, ValidPlan, MovingFolders, MovingFiles, UnseenIn, MovingNotes,
      HeldIn, OpsNotOf, Refusal, UnsentMove, KeepOnly, ForgetRows, KeepUnseen, QueuesNameRows, OwesOf, Enumerates,
      Arrived;
    if Refusal(d, e.move).None? {
      MovingUnfolds(d, e);
      UnsentMoveGoes(d, e.move);
      var m, target := UnsentMove(d, e.move), Connection(e.move.target);
      var moved := MoveRowsTo(d.tables, m, e.landing);
      MoveKeepsAll(d.tables, m, e.landing);
      OwesAreRows(RowsOf(moved.tables, target), moved.owed, e.owes);
      QueueKeepsQueues(moved.tables, target, e.owes);
      var after := AfterMove(d, e.move, e.landing, e.owes);
      KeepUnseenKeepsQueues(after, e.move.from, e.move.seen, e.move.holding, e.move.links, e.move.now);
    }
  }

  /** After every step, every op about a note or a file names one that is in its source. */
  lemma StepKeepsQueues(d: Device, e: Event)
    requires IsEnabled(d, e) && QueuesNameRows(d.tables)
    ensures QueuesNameRows(Step(d, e).tables)
  {
    hide ValidBind, Bind, VerifyResume, Detach, Release, MoveUnsyncedTo, ValidMove, Refusal, QueuesNameRows,
      OwesWhatItCut;
    match e {
      case Binding(input, plan) =>
        if UnchangedSince(d, input.since) {
          BindKeepsQueues(d, input, plan);
        } else {
          BindDoesNothing(d, input, plan);
        }
      case Verifying(c, asked, found, owes) =>
        if StillAsked(d, c, asked) {
          VerifyKeepsQueues(d, c, found, owes);
        }
      case Detaching(_, _, _, _, _, _) => DetachKeepsQueues(d, e);
      case Releasing(_, _, _, _, _) => ReleaseKeepsQueues(d, e);
      case Moving(_, _, _) => MovingKeepsQueues(d, e);
    }
  }

  /** And so at the end of every run. */
  lemma {:induction false} RunKeepsQueues(d: Device, events: seq<Event>)
    requires CanRun(d, events) && QueuesNameRows(d.tables)
    ensures QueuesNameRows(Run(d, events).tables)
    decreases |events|
  {
    hide Step, IsEnabled, QueuesNameRows;
    if events != [] {
      StepKeepsQueues(d, events[0]);
      RunKeepsQueues(Step(d, events[0]), events[1..]);
    }
  }

  // ----- In the order it was made ------------------------------------------------------

  predicate IsAbout(op: Op, source: Source, id: Id) {
    op.source == source && op.noteId == Some(id)
  }

  /** The ops queued for one note, in order. */
  function OpsAbout(ops: seq<Op>, source: Source, id: Id): seq<Op> {
    if ops == [] then []
    else OpsAbout(ops[..|ops| - 1], source, id) + (if IsAbout(ops[|ops| - 1], source, id) then [ops[|ops| - 1]] else [])
  }

  function CarriedAll(w: Whereto, ops: seq<Op>): seq<Op> {
    seq(|ops|, i requires 0 <= i < |ops| => Carried(w, ops[i]))
  }

  /** The only ops of the queue that end up about a row are those about the note it was. */
  ghost predicate NamedOnlyBy(w: Whereto, ops: seq<Op>, id: Id) {
    forall op :: op in ops ==>
      && (op.source == w.m.target ==> op.noteId != Some(IdNow(w, id)))
      && (op.source == w.m.from && op.noteId.Some? ==>
            op.fileId.None? && (op.noteId.value != id ==> IdNow(w, op.noteId.value) != IdNow(w, id)))
  }

  lemma OpsAboutConcat(a: seq<Op>, b: seq<Op>, source: Source, id: Id)
    requires |b| <= 1
    ensures OpsAbout(a + b, source, id) == OpsAbout(a, source, id) + (if b != [] && IsAbout(b[0], source, id) then b else [])
  {
    if b == [] {
      assert a + b == a;
    } else {
      assert (a + b)[..|a|] == a;
    }
  }

  lemma OneIsCarried(w: Whereto, op: Op, id: Id)
    requires w.m.mode == Resume && w.m.only == Everything && w.m.from != w.m.target && !w.m.keep
    requires IdNow(w, id) !in w.owed && id !in w.yielded && NamedOnlyBy(w, [op], id)
    ensures |CarryOp(w, op)| <= 1
    ensures var after := CarryOp(w, op);
            (if after != [] && IsAbout(after[0], w.m.target, IdNow(w, id)) then after else [])
            == if IsAbout(op, w.m.from, id) then [Carried(w, op)] else []
  {
    assert op in [op];
  }

  /** What is queued for a note carried as it was is carried with it, op by op, in the order it was made. */
  lemma {:induction false} QueueIsCarriedInOrder(w: Whereto, ops: seq<Op>, id: Id)
    requires w.m.mode == Resume && w.m.only == Everything && w.m.from != w.m.target && !w.m.keep
    requires IdNow(w, id) !in w.owed && id !in w.yielded && NamedOnlyBy(w, ops, id)
    ensures OpsAbout(CarryOps(w, ops), w.m.target, IdNow(w, id)) == CarriedAll(w, OpsAbout(ops, w.m.from, id))
    decreases |ops|
  {
    hide CarryOp, IsAbout, Carried, CarryOps, OpsAbout, CarriedAll, NamedOnlyBy, IdNow;
    if ops == [] {
      NothingAbout(w, id);
    } else {
      var front, op := ops[..|ops| - 1], ops[|ops| - 1];
      OneOfThem(w, ops, op, id);
      FrontOfThem(w, ops, id);
      QueueIsCarriedInOrder(w, front, id);
      OneIsCarried(w, op, id);
      OpsAboutConcat(CarryOps(w, front), CarryOp(w, op), w.m.target, IdNow(w, id));
      LastIsCarried(w, ops, id);
    }
  }

  lemma NothingAbout(w: Whereto, id: Id)
    ensures OpsAbout(CarryOps(w, []), w.m.target, IdNow(w, id)) == CarriedAll(w, OpsAbout([], w.m.from, id))
  {}

  lemma LastIsCarried(w: Whereto, ops: seq<Op>, id: Id)
    requires ops != []
    ensures CarryOps(w, ops) == CarryOps(w, ops[..|ops| - 1]) + CarryOp(w, ops[|ops| - 1])
    ensures CarriedAll(w, OpsAbout(ops, w.m.from, id))
            == CarriedAll(w, OpsAbout(ops[..|ops| - 1], w.m.from, id))
               + (if IsAbout(ops[|ops| - 1], w.m.from, id) then [Carried(w, ops[|ops| - 1])] else [])
  {
    hide CarryOp, IsAbout, Carried;
  }

  lemma FrontOfThem(w: Whereto, ops: seq<Op>, id: Id)
    requires NamedOnlyBy(w, ops, id) && ops != []
    ensures NamedOnlyBy(w, ops[..|ops| - 1], id)
  {
    hide IdNow;
    assert forall each :: each in ops[..|ops| - 1] ==> each in ops;
  }

  lemma OneOfThem(w: Whereto, ops: seq<Op>, op: Op, id: Id)
    requires NamedOnlyBy(w, ops, id) && op in ops
    ensures NamedOnlyBy(w, [op], id)
  {}

  /** So after a resume a note that is not owed anew has just the queue it had, under its new id. */
  lemma ResumedQueueIsItsOwn(t: Tables, m: Move, p: Plan, id: Id)
    requires CanMove(t, m, p) && m.mode == Resume && m.only == Everything && !m.keep && QueuesNameRows(t)
    requires id in RowsOf(t, m.from).notes && Goes(MovingOf(t, m, p), id) && id in p.noteIds
    requires p.noteIds[id] !in MoveRowsTo(t, m, p).owed.notes
    ensures OpsAbout(MoveRowsTo(t, m, p).tables.ops, m.target, p.noteIds[id])
            == CarriedAll(WhereOf(t, m, p), OpsAbout(t.ops, m.from, id))
  {
    MoveUnfolds(t, m, p);
    NoteArrives(t, m, p, id);
    NamedOnlyByItsOwn(t, m, p, id);
    GoesDoesNotYield(MovingOf(t, m, p), id);
    hide ValidPlan, WellFormed, MoveRowsTo, Place, Carry, CarryOps, AsTheyWere, Goes, Yields, OpsAbout, CarriedAll,
      IsCarried, Arrived, NamedOnlyBy, QueuesNameRows;
    QueueIsCarriedInOrder(WhereOf(t, m, p), t.ops, id);
  }

  lemma NamedOnlyByItsOwn(t: Tables, m: Move, p: Plan, id: Id)
    requires CanMove(t, m, p) && m.mode == Resume && m.only == Everything && QueuesNameRows(t)
    requires id in RowsOf(t, m.from).notes && id in p.noteIds && Goes(MovingOf(t, m, p), id)
    requires p.noteIds[id] !in RowsOf(t, m.target).notes
    ensures NamedOnlyBy(WhereOf(t, m, p), t.ops, id)
  {
    hide ValidPlan, WellFormed, Place, Carry, AsTheyWere, Goes, QueuesNameRows, YieldedBy;
    var w := WhereOf(t, m, p);
    forall op | op in t.ops
      ensures op.source == m.target ==> op.noteId != Some(p.noteIds[id])
      ensures op.source == m.from && op.noteId.Some? ==>
                op.fileId.None? && (op.noteId.value != id ==> IdNow(w, op.noteId.value) != p.noteIds[id])
    {
      OpIsOfAnother(t, m, p, id, op);
    }
  }

  lemma OpIsOfAnother(t: Tables, m: Move, p: Plan, id: Id, op: Op)
    requires CanMove(t, m, p) && m.mode == Resume && m.only == Everything && QueuesNameRows(t) && op in t.ops
    requires id in RowsOf(t, m.from).notes && id in p.noteIds && Goes(MovingOf(t, m, p), id)
    requires p.noteIds[id] !in RowsOf(t, m.target).notes
    ensures op.source == m.target ==> op.noteId != Some(p.noteIds[id])
    ensures op.source == m.from && op.noteId.Some? ==>
              op.fileId.None? && (op.noteId.value != id ==> IdNow(WhereOf(t, m, p), op.noteId.value) != p.noteIds[id])
  {
    assert NamesARow(RowsOf(t, op.source), op);
    if op.source == m.from && op.noteId.Some? && op.noteId.value != id {
      LandsElsewhere(t, m, p, id, op.noteId.value);
    }
    hide ValidPlan, WellFormed, Place, Carry, Goes;
  }

  lemma LandsElsewhere(t: Tables, m: Move, p: Plan, id: Id, other: Id)
    requires CanMove(t, m, p) && id in RowsOf(t, m.from).notes && other in RowsOf(t, m.from).notes && id != other
    requires id in p.noteIds && Goes(MovingOf(t, m, p), id) && p.noteIds[id] !in RowsOf(t, m.target).notes
    ensures other in p.noteIds && p.noteIds[other] != p.noteIds[id]
  {
    PlanIsValid(t, m, p);
    GoesDoesNotYield(MovingOf(t, m, p), id);
    hide ValidPlan, Goes, Enumerates, ValidCarrying, AtTells, HasTwin;
    assert LandsRight(MovingOf(t, m, p), other);
  }
}
