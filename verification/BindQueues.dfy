/**
  What a bind queues, and of what alone (`bindConnection` in apps/web/src/store/connection.ts):
  nothing new for a row the source had that its remote has.
 */
module BindQueues {
  import opened Options
  import opened Library
  import opened MoveNotes
  import opened MoveSpellings
  import opened MoveRows
  import opened MoveKeeps
  import opened MoveQueue
  import opened MoveOutcomes
  import opened Unsynced
  import opened Sources
  import opened SourceRuns
  import opened SourceQueues
  import opened Binds

  /** What an op is about is none of these rows. */
  predicate IsAboutNew(rows: Rows, op: Op) {
    && (op.noteId.Some? ==> op.noteId.value !in rows.notes)
    && (op.fileId.Some? ==> op.fileId.value !in rows.files)
  }

  /** A move owes its target no note and no file it had. */
  lemma OwedAreNew(t: Tables, m: Move, p: Plan)
    requires CanMove(t, m, p)
    ensures MoveRowsTo(t, m, p).owed.notes !! RowsOf(t, m.target).notes.Keys
    ensures MoveRowsTo(t, m, p).owed.files !! RowsOf(t, m.target).files.Keys
  {
    hide ValidPlan, WellFormed, MoveRowsTo, Place, Shelve, Carry, PlacedInNotebooks, SpellingsGrow, ValidMoving, Arrived;
    MoveOwesPending(t, m, p);
    NotesArePlaced(t, m, p);
    MoveUnfolds(t, m, p);
    LandedOwedAreNew(MovingOf(t, m, p), Place(t, m, p));
  }

  lemma LandedOwedAreNew(c: Moving, g: Landed)
    requires ValidMoving(c) && LandedSoFar(c, g, c.notes.Keys)
    ensures g.owed !! c.theirs.Keys
  {
    hide ValidMoving, Goes, CarriedAs, OwedAt, LandsRight;
    forall to | to in g.owed
      ensures to !in c.theirs
    {
      var id :| id in g.placed && g.placed[id] == to;
      assert PlacedRight(c, g, id);
    }
  }

  lemma NewThen(a: Rows, b: Rows, op: Op)
    requires RowsStand(a, b) && IsAboutNew(b, op)
    ensures IsAboutNew(a, op)
  {}

  /** One source resumed: what is queued that was not is about rows that came. */
  lemma MoveQueuesNew(t: Tables, m: Move, p: Plan, op: Op)
    requires CanMove(t, m, p) && m.mode == Resume && m.only == Everything && !m.keep && QueuesNameRows(t)
    requires op in MoveRowsTo(t, m, p).tables.ops && op.source == m.target && op !in t.ops
    ensures IsAboutNew(RowsOf(t, m.target), op)
  {
    hide ValidPlan, WellFormed, MoveRowsTo, Place, Carry, Arrived;
    assert OpsNameRows(t, m.from);
    CarriedOpsNameRows(t, m, p, op);
  }

  lemma {:induction false} ResumesQueueNew(t: Tables, target: nat, homes: seq<nat>, plans: map<nat, Plan>, op: Op)
    requires ValidResumes(t, target, homes, plans) && QueuesNameRows(t)
    ensures var moved, rows := ResumeAll(t, target, homes, plans), RowsOf(t, Connection(target));
            && moved.owed.notes !! rows.notes.Keys && moved.owed.files !! rows.files.Keys
            && (op in moved.tables.ops && op.source == Connection(target) && op !in t.ops ==> IsAboutNew(rows, op))
    decreases |homes|
  {
    hide ValidPlan, WellFormed, MoveRowsTo, QueuesNameRows, RowsStand, IsAboutNew, RowsOf;
    if homes != [] {
      var m, p := Homeward(homes[0], target), plans[homes[0]];
      var first := MoveRowsTo(t, m, p);
      MoveKeepsAll(t, m, p);
      OwedAreNew(t, m, p);
      ResumesQueueNew(first.tables, target, homes[1..], plans, op);
      StandingKeys(RowsOf(t, Connection(target)), RowsOf(first.tables, Connection(target)));
      if op in first.tables.ops && op.source == Connection(target) && op !in t.ops {
        MoveQueuesNew(t, m, p, op);
      } else if op in ResumeAll(t, target, homes, plans).tables.ops && op.source == Connection(target) && op !in t.ops {
        NewThen(RowsOf(t, Connection(target)), RowsOf(first.tables, Connection(target)), op);
      }
    }
  }

  lemma StandingKeys(a: Rows, b: Rows)
    requires RowsStand(a, b)
    ensures a.notes.Keys <= b.notes.Keys && a.files.Keys <= b.files.Keys
  {}

  /** The source is one that was detached, and comes back. */
  predicate ComesBack(d: Device, c: nat) {
    c in d.states && d.states[c].detached.Some?
  }

  /** A row the source had is owed anew only where it comes back and its remote has not got it. */
  ghost predicate OwesOnlyUnsent(back: bool, rows: Rows, owed: Owed) {
    && (forall id :: id in owed.notes && id in rows.notes ==> back && IsLive(rows.notes[id]) && rows.notes[id].remoteId.None?)
    && (forall id :: id in owed.files && id in rows.files ==> back && rows.files[id].remoteId.None?)
  }

  lemma GatheredOwesUnsent(d: Device, input: BindInput, p: BindPlan)
    requires UnchangedSince(d, input.since) && ValidBind(d, input, p) && QueuesNameRows(d.tables)
    ensures OwesOnlyUnsent(ComesBack(d, input.connection), RowsOf(d.tables, Connection(input.connection)), Gathered(d, input, p).owed)
  {
    hide ValidPlan, WellFormed, MoveRowsTo, ValidResumes, ResumeAll, PileIsHeld, QueuesNameRows, Homes, IsFirstBinding, OwesOf,
      Enumerates, Waiting, RowsOf, RowsStand;
    var source, rows := Connection(input.connection), RowsOf(d.tables, Connection(input.connection));
    var resumed := ResumeAll(d.tables, input.connection, p.homes, p.resumes);
    ResumesQueueNew(d.tables, input.connection, p.homes, p.resumes, Op(source, Write, None, None, "", None, None));
    ResumesKeepQueues(d.tables, input.connection, p.homes, p.resumes);
    StandingKeys(rows, RowsOf(resumed.tables, source));
    WaitingOwesUnsent(d, input, resumed.tables, rows);
    if !PileIsHeld(d) {
      OwedAreNew(resumed.tables, PileMove(d, input), p.copy);
    }
  }

  lemma WaitingOwesUnsent(d: Device, input: BindInput, t: Tables, rows: Rows)
    requires RowsStand(rows, RowsOf(t, Connection(input.connection)))
    ensures OwesOnlyUnsent(ComesBack(d, input.connection), rows, Waiting(d, input, t))
  {
    hide FilesWith;
  }

  lemma GatheredQueuesNew(d: Device, input: BindInput, p: BindPlan, op: Op)
    requires UnchangedSince(d, input.since) && ValidBind(d, input, p) && QueuesNameRows(d.tables)
    requires op in Gathered(d, input, p).tables.ops && op.source == Connection(input.connection) && op !in d.tables.ops
    ensures IsAboutNew(RowsOf(d.tables, Connection(input.connection)), op)
  {
    hide ValidPlan, WellFormed, MoveRowsTo, ValidResumes, ResumeAll, PileIsHeld, QueuesNameRows, Homes, IsFirstBinding, OwesOf,
      Enumerates, Waiting, IsAboutNew, WhereOf, CarryOps, Arrived;
    var resumed := ResumeAll(d.tables, input.connection, p.homes, p.resumes);
    ResumesQueueNew(d.tables, input.connection, p.homes, p.resumes, op);
    if !PileIsHeld(d) {
      var m := PileMove(d, input);
      MoveUnfolds(resumed.tables, m, p.copy);
      WhereIs(resumed.tables, m, p.copy);
      CopyTakesOff(WhereOf(resumed.tables, m, p.copy), resumed.tables.ops, op);
    }
  }

  /**
    Whatever a bind queues for the source that was not queued is about a row that came; or, where
    the source was detached and comes back, about one its remote never had. So nothing that is on
    the remote is sent there again.
   */
  lemma BindQueuesOnly(d: Device, input: BindInput, p: BindPlan, op: Op)
    requires UnchangedSince(d, input.since) && ValidBind(d, input, p) && QueuesNameRows(d.tables)
    requires op in Bind(d, input, p).tables.ops && op.source == Connection(input.connection) && op !in d.tables.ops
    ensures var rows, back := RowsOf(d.tables, Connection(input.connection)), ComesBack(d, input.connection);
            && (op.noteId.Some? && op.noteId.value in rows.notes ==>
                  back && IsLive(rows.notes[op.noteId.value]) && rows.notes[op.noteId.value].remoteId.None?)
            && (op.fileId.Some? && op.fileId.value in rows.files ==>
                  back && rows.files[op.fileId.value].remoteId.None?)
  {
    hide CanMove, MoveRowsTo, ValidResumes, ResumeAll, PileIsHeld, QueuesNameRows, Gathered, Homes, IsFirstBinding, BoundState,
      QueueAll, ComesBack, IsUndone, IsQueuedOnce;
    var gathered, source := Gathered(d, input, p), Connection(input.connection);
    GatheredOwesUnsent(d, input, p);
    if op in gathered.tables.ops {
      GatheredQueuesNew(d, input, p, op);
    } else {
      QueueAllIs(gathered.tables.ops, source, p.owes);
      var owe :| owe in p.owes && op == MadeFor(source, owe);
      assert owe in OwesOf(RowsOf(gathered.tables, source), gathered.owed);
    }
  }
}
