/**
  What a move of unsent work takes from a detached source, what it leaves in the one it is
  moved to, and what it answers (`moveUnsyncedTo` in apps/web/src/store/connection.ts).
 */
module UnsentMoves {
  import opened Options
  import opened Paths
  import opened Naming
  import opened Library
  import opened MoveNotes
  import opened MoveRows
  import opened MoveFiles
  import opened MoveKeeps
  import opened MoveOutcomes
  import opened Unsynced
  import opened Sources
  import opened SourceRuns
  import opened SourcesKept
  import opened FilesKept
  import opened SourceEnds
  import opened Binds

  /** A live note with text the remote was not sent, as it was shown, and held by no editor. */
  ghost predicate IsNoteTaken(d: Device, input: MoveInput, id: Id) {
    var t, source := d.tables, Connection(input.from);
    var notes := RowsOf(t, source).notes;
    && id in notes && IsLive(notes[id])
    && (|| Unverified(d, input.from) || notes[id].dirty || notes[id].remoteId.None?
        || exists op :: op in t.ops && op.source == source && op.kind == Write && op.noteId == Some(id))
    && id in input.seen.notes && input.seen.notes[id] == notes[id].updatedAt && id !in input.holding
  }

  /** A file whose bytes are here, shown as owed, or linked by a note that is taken. */
  ghost predicate IsFileTaken(d: Device, input: MoveInput, id: Id) {
    var rows := RowsOf(d.tables, Connection(input.from));
    && id in rows.files && id in rows.bytes && HeldIsCurrent(rows.files[id], rows.bytes[id])
    && (|| (id in input.seen.files && IsFileOwed(rows, Unverified(d, input.from), id))
        || exists note, link :: note in rows.notes && IsNoteTaken(d, input, note)
                                && link in input.links(rows.notes[note].body, rows.notes[note].path)
                                && FoldPath(link) == FoldPath(rows.files[id].path))
  }

  /** A notebook shown as owed, or one above it, or above a note or a file that is taken. */
  ghost predicate IsNotebookTaken(d: Device, input: MoveInput, path: string) {
    var t, source := d.tables, Connection(input.from);
    var rows := RowsOf(t, source);
    || (exists each :: each in rows.folders && each in input.seen.folders && IsNotebookOwed(t, source, Unverified(d, input.from), each)
                       && (path == each || path in AncestorPaths(each)))
    || (exists id :: id in rows.notes && IsNoteTaken(d, input, id) && path in AncestorPaths(rows.notes[id].path))
    || (exists id :: id in rows.files && IsFileTaken(d, input, id) && path in AncestorPaths(rows.files[id].path))
  }

  lemma QueuedWrites(ops: seq<Op>, source: Source, id: Id)
    ensures id in NotesWith(ops, source, Write)
            <==> exists op :: op in ops && op.source == source && op.kind == Write && op.noteId == Some(id)
  {
    if op :| op in ops && op.source == source && op.kind == Write && op.noteId == Some(id) {
      var i :| 0 <= i < |ops| && ops[i] == op;
    }
  }

  lemma NotesTakenAre(d: Device, input: MoveInput, id: Id)
    ensures id in MovingNotes(d.tables, Connection(input.from), MovingUnsent(d, input), input.seen, input.holding)
            <==> IsNoteTaken(d, input, id)
  {
    hide IsUnsentFolder, NotesWith, FilesWith, PathsWith;
    QueuedWrites(d.tables.ops, Connection(input.from), id);
  }

  lemma FilesTakenAre(d: Device, input: MoveInput, notes: set<Id>, id: Id)
    requires forall note :: note in notes <==> IsNoteTaken(d, input, note)
    ensures id in MovingFiles(d.tables, Connection(input.from), MovingUnsent(d, input).portable * input.seen.files, notes, input.links)
            <==> IsFileTaken(d, input, id)
  {
    hide IsUnsentFolder, NotesWith, FilesWith, PathsWith, FoldPath, IsNoteTaken, HeldIsCurrent, IsOwedText;
  }

  /** A move of unsent work copies exactly those, out of the source, and keeps none of the notes there. */
  lemma MoveTakes(d: Device, input: MoveInput)
    ensures var m := UnsentMove(d, input);
            && m.mode == Copy && m.from == Connection(input.from) && m.target == Connection(input.target) && !m.keep && m.only.Named?
            && (forall id :: id in m.only.notes <==> IsNoteTaken(d, input, id))
            && (forall id :: id in m.only.files <==> IsFileTaken(d, input, id))
            && (forall path :: path in m.only.folders <==> IsNotebookTaken(d, input, path))
  {
    hide IsNoteTaken, IsFileTaken, MovingNotes, MovingFiles, UnsyncedIn, IsNotebookOwed;
    var t, source, unsent := d.tables, Connection(input.from), MovingUnsent(d, input);
    var notes := MovingNotes(t, source, unsent, input.seen, input.holding);
    var files := MovingFiles(t, source, unsent.portable * input.seen.files, notes, input.links);
    forall id
      ensures id in notes <==> IsNoteTaken(d, input, id)
    {
      NotesTakenAre(d, input, id);
    }
    forall id
      ensures id in files <==> IsFileTaken(d, input, id)
    {
      FilesTakenAre(d, input, notes, id);
    }
    NotebooksAreOwed(t, source, Unverified(d, input.from));
    TakenAreRows(d, input);
    FoldersTakenAre(d, input, notes, files);
  }

  lemma TakenAreRows(d: Device, input: MoveInput)
    ensures forall id :: IsNoteTaken(d, input, id) ==> id in RowsOf(d.tables, Connection(input.from)).notes
    ensures forall id :: IsFileTaken(d, input, id) ==> id in RowsOf(d.tables, Connection(input.from)).files
  {
    hide HeldIsCurrent, FoldPath;
  }

  lemma MovingFoldersAre(t: Tables, source: Source, notes: set<Id>, shown: set<string>, files: set<Id>, path: string)
    ensures var rows := RowsOf(t, source);
            path in MovingFolders(t, source, notes, shown, files) <==>
              || (exists each :: each in shown && (path == each || path in AncestorPaths(each)))
              || (exists id :: id in rows.notes && id in notes && path in AncestorPaths(rows.notes[id].path))
              || (exists id :: id in rows.files && id in files && path in AncestorPaths(rows.files[id].path))
  {
    hide AncestorPaths;
    var rows := RowsOf(t, source);
    forall each
      ensures path in AncestorPaths(each) + [each] <==> path == each || path in AncestorPaths(each)
    {}
    if each :| each in shown && (path == each || path in AncestorPaths(each)) {
      assert each in shown && path in AncestorPaths(each) + [each];
    } else if id :| id in rows.notes && id in notes && path in AncestorPaths(rows.notes[id].path) {
      assert id in notes && path in AncestorPaths(rows.notes[id].path);
    } else if id :| id in rows.files && id in files && path in AncestorPaths(rows.files[id].path) {
      assert id in files && path in AncestorPaths(rows.files[id].path);
    }
  }

  lemma FoldersTakenAre(d: Device, input: MoveInput, notes: set<Id>, files: set<Id>)
    requires forall id :: id in notes <==> IsNoteTaken(d, input, id)
    requires forall id :: id in files <==> IsFileTaken(d, input, id)
    ensures var t, source := d.tables, Connection(input.from);
            forall path :: path in MovingFolders(t, source, notes, MovingUnsent(d, input).folders * input.seen.folders, files)
                           <==> IsNotebookTaken(d, input, path)
  {
    hide IsNoteTaken, IsFileTaken, IsNotebookOwed, AncestorPaths, UnsyncedIn, MovingFolders;
    var t, source := d.tables, Connection(input.from);
    var shown := MovingUnsent(d, input).folders * input.seen.folders;
    NotebooksAreOwed(t, source, Unverified(d, input.from));
    forall path
      ensures path in MovingFolders(t, source, notes, shown, files) <==> IsNotebookTaken(d, input, path)
    {
      MovingFoldersAre(t, source, notes, shown, files, path);
      assert forall each :: each in shown <==>
               each in RowsOf(t, source).folders && each in input.seen.folders
               && IsNotebookOwed(t, source, Unverified(d, input.from), each);
    }
  }

  // ----- Where it goes -----------------------------------------------------------------

  /**
    A move that is not refused puts every note it takes into the target as a note of its own,
    its write queued, and every file; and no note comes that was not taken.
   */
  lemma MovedIsThere(d: Device, e: Event)
    requires e.Moving? && IsEnabled(d, e) && Refusal(d, e.move).None?
    ensures var from, target, after := Connection(e.move.from), Connection(e.move.target), Step(d, e);
            var rows, was, now := RowsOf(d.tables, from), RowsOf(d.tables, target), RowsOf(after.tables, target);
            && RowsStand(was, now)
            && (forall id :: id in rows.notes && IsNoteTaken(d, e.move, id) ==>
                  && id in e.landing.noteIds && IsTakenIn(id, rows.notes[id], was, now, e.landing.noteIds[id])
                  && IsQueuedFor(after.tables.ops, target, WriteNote(e.landing.noteIds[id], rows.notes[id].path)))
            && (forall k :: k in now.notes && k !in was.notes ==>
                  exists id :: IsNoteTaken(d, e.move, id) && id in e.landing.noteIds && e.landing.noteIds[id] == k)
            && (forall id :: id in rows.files && id in rows.bytes && IsFileTaken(d, e.move, id) ==>
                  IsFileTakenIn(rows.files[id], rows.bytes[id], was, now))
  {
    hide CanMove, MoveRowsTo, QueueAll, UnsentMove, Refusal, IsNoteTaken, IsFileTaken, IsNotebookTaken, Step, IsEnabled, IsTakenIn,
      IsFileTakenIn, IsQueuedFor, AfterMove, RowsStand, RowsOf;
    MoveTakes(d, e.move);
    TargetAfterMove(d, e);
    var m, t := UnsentMove(d, e.move), d.tables;
    MoveRowsStand(t, m, e.landing);
    forall id | id in RowsOf(t, m.from).notes && IsNoteTaken(d, e.move, id)
      ensures id in e.landing.noteIds
      ensures IsTakenIn(id, RowsOf(t, m.from).notes[id], RowsOf(t, m.target), RowsOf(Step(d, e).tables, m.target), e.landing.noteIds[id])
      ensures IsQueuedFor(Step(d, e).tables.ops, m.target, WriteNote(e.landing.noteIds[id], RowsOf(t, m.from).notes[id].path))
    {
      OneNoteIsThere(d, e, id);
    }
    forall k | k in RowsOf(Step(d, e).tables, m.target).notes && k !in RowsOf(t, m.target).notes
      ensures exists id :: IsNoteTaken(d, e.move, id) && id in e.landing.noteIds && e.landing.noteIds[id] == k
    {
      NotesThatCome(t, m, e.landing);
      var id :| id in RowsOf(t, m.from).notes && Arrives(t, m, id) && e.landing.noteIds[id] == k;
      ArrivesIsTaken(t, m, id);
    }
    forall id | id in RowsOf(t, m.from).files && id in RowsOf(t, m.from).bytes && IsFileTaken(d, e.move, id)
      ensures IsFileTakenIn(RowsOf(t, m.from).files[id], RowsOf(t, m.from).bytes[id], RowsOf(t, m.target), RowsOf(Step(d, e).tables, m.target))
    {
      FileTakenIsCurrent(d, e.move, id);
      CopiedFileIsTakenIn(t, m, e.landing, id);
    }
  }

  lemma ArrivesIsTaken(t: Tables, m: Move, id: Id)
    requires id in RowsOf(t, m.from).notes && Arrives(t, m, id) && m.only.Named?
    ensures id in m.only.notes
  {
    hide MeetsItself;
  }

  lemma MoveRowsStand(t: Tables, m: Move, p: Plan)
    requires CanMove(t, m, p)
    ensures RowsStand(RowsOf(t, m.target), RowsOf(MoveRowsTo(t, m, p).tables, m.target))
  {
    hide ValidPlan, WellFormed, MoveRowsTo, Arrived, RowsStand;
    MoveUnfolds(t, m, p);
    TargetStands(t, m, p);
  }

  lemma FileTakenIsCurrent(d: Device, input: MoveInput, id: Id)
    requires IsFileTaken(d, input, id)
    ensures var rows := RowsOf(d.tables, Connection(input.from));
            && id in rows.files && id in rows.bytes && HeldIsCurrent(rows.files[id], rows.bytes[id])
            && id in FilesTaken(UnsentMove(d, input), rows)
  {
    hide HeldIsCurrent, IsNoteTaken, FoldPath, IsNotebookTaken, UnsentMove;
    MoveTakes(d, input);
  }

  /** The target's rows and queue as the move leaves them, which nothing after it touches. */
  lemma TargetAfterMove(d: Device, e: Event)
    requires e.Moving? && IsEnabled(d, e) && Refusal(d, e.move).None?
    ensures CanMove(d.tables, UnsentMove(d, e.move), e.landing)
    ensures var target, moved := Connection(e.move.target), MoveRowsTo(d.tables, UnsentMove(d, e.move), e.landing);
            && RowsOf(Step(d, e).tables, target) == RowsOf(moved.tables, target)
            && (forall op: Op :: op in QueueAll(moved.tables.ops, target, e.owes) && op.source == target ==> op in Step(d, e).tables.ops)
            && (forall owe :: owe in OwesOf(RowsOf(moved.tables, target), moved.owed) ==> owe in e.owes)
  {
    hide ValidPlan, WellFormed, MoveRowsTo, QueueAll, UnsentMove, Refusal, KeepUnseen, UnseenIn, HeldIn, UnsyncedIn, OwesOf, OpsOf;
    MovingUnfolds(d, e);
    UnsentMoveGoes(d, e.move);
    var after, target := AfterMove(d, e.move, e.landing, e.owes), Connection(e.move.target);
    KeepUnseenTouches(after, e.move.from, e.move.seen, e.move.holding, e.move.links, e.move.now, target);
    forall op: Op | op in after.tables.ops && op.source == target
      ensures op in Step(d, e).tables.ops
    {
      OpsAreOf(after.tables.ops, target, op);
      OpsAreOf(Step(d, e).tables.ops, target, op);
    }
  }

  lemma {:induction false} OpsAreOf(ops: seq<Op>, source: Source, op: Op)
    requires op.source == source
    ensures op in ops <==> op in OpsOf(ops, source)
  {
    if ops != [] {
      OpsAreOf(ops[1..], source, op);
    }
  }

  lemma OneNoteIsThere(d: Device, e: Event, id: Id)
    requires e.Moving? && IsEnabled(d, e) && Refusal(d, e.move).None?
    requires id in RowsOf(d.tables, Connection(e.move.from)).notes && IsNoteTaken(d, e.move, id)
    ensures id in e.landing.noteIds
    ensures var from, target, after := Connection(e.move.from), Connection(e.move.target), Step(d, e);
            var note, was, now := RowsOf(d.tables, from).notes[id], RowsOf(d.tables, target), RowsOf(after.tables, target);
            && IsTakenIn(id, note, was, now, e.landing.noteIds[id])
            && IsQueuedFor(after.tables.ops, target, WriteNote(e.landing.noteIds[id], note.path))
  {
    hide CanMove, MoveRowsTo, QueueAll, UnsentMove, Refusal, IsNotebookTaken, IsFileTaken, Step, IsEnabled, AfterMove, RowsOf, NoteFile,
      FoldPath, ParentPath;
    MoveTakes(d, e.move);
    TargetAfterMove(d, e);
    var m, t, to := UnsentMove(d, e.move), d.tables, e.landing.noteIds;
    CopiedIsTakenIn(t, m, e.landing, id);
    var moved := MoveAs(t, m, e.landing);
    QueueAllKeeps(moved.tables.ops, m.target, e.owes);
    var owe := WriteNote(to[id], RowsOf(moved.tables, m.target).notes[to[id]].path);
    assert owe in e.owes;
    var op :| op in QueueAll(moved.tables.ops, m.target, e.owes) && IsOwedBy(op, m.target, owe);
    assert IsOwedBy(op, m.target, WriteNote(to[id], RowsOf(t, m.from).notes[id].path));
  }

  function MoveAs(t: Tables, m: Move, p: Plan): Moved
    requires CanMove(t, m, p)
  {
    MoveRowsTo(t, m, p)
  }

  // ----- What is answered --------------------------------------------------------------

  /** Something of the source was shown that can go: a note as it stands, a notebook owed, or a file owed whose bytes are here. */
  ghost predicate IsAnythingShown(d: Device, input: MoveInput) {
    var t, source := d.tables, Connection(input.from);
    var rows := RowsOf(t, source);
    || (exists id :: IsNoteTaken(d, input, id))
    || (exists path :: path in rows.folders && path in input.seen.folders && IsNotebookOwed(t, source, Unverified(d, input.from), path))
    || (exists id :: id in rows.files && id in rows.bytes && id in input.seen.files && IsFileOwed(rows, Unverified(d, input.from), id))
  }

  lemma ShownIsSomething(d: Device, input: MoveInput)
    ensures var t, source, unsent := d.tables, Connection(input.from), MovingUnsent(d, input);
            && unsent.unverified == Unverified(d, input.from)
            && (IsAnythingShown(d, input) <==>
                  !(MovingNotes(t, source, unsent, input.seen, input.holding) == {}
                    && unsent.folders * input.seen.folders == {} && unsent.portable * input.seen.files == {}))
  {
    hide IsNoteTaken, MovingNotes, IsNotebookOwed, IsUnsentFolder, IsOwedText, NotesWith, FilesWith, PathsWith;
    var t, source, unsent := d.tables, Connection(input.from), MovingUnsent(d, input);
    var notes := MovingNotes(t, source, unsent, input.seen, input.holding);
    forall id
      ensures id in notes <==> IsNoteTaken(d, input, id)
    {
      NotesTakenAre(d, input, id);
    }
    NotebooksAreOwed(t, source, Unverified(d, input.from));
    var rows, unverified := RowsOf(t, source), Unverified(d, input.from);
    assert forall path :: path in unsent.folders * input.seen.folders <==>
             path in rows.folders && path in input.seen.folders && IsNotebookOwed(t, source, unverified, path);
    assert forall id :: id in unsent.portable * input.seen.files <==>
             id in rows.files && id in rows.bytes && id in input.seen.files && IsFileOwed(rows, unverified, id);
    SetsAreEmpty(notes, unsent.folders * input.seen.folders, unsent.portable * input.seen.files);
  }

  lemma SetsAreEmpty(a: set<Id>, b: set<string>, c: set<Id>)
    ensures (a == {} <==> forall x :: x !in a) && (b == {} <==> forall x :: x !in b) && (c == {} <==> forall x :: x !in c)
  {
    if a != {} {
      var x :| x in a;
    }
    if b != {} {
      var x :| x in b;
    }
    if c != {} {
      var x :| x in c;
    }
  }

  /**
    A move is refused, having changed nothing, from a source that is gone or live, into itself
    or one that is not live, from one nobody has looked for, or where nothing was shown that
    can go. Otherwise the answer says why the source stays, if it does.
   */
  lemma MoveAnswers(d: Device, input: MoveInput, p: Plan, owes: seq<Owe>)
    requires Refusal(d, input).None? ==> ValidMove(d, input, p, owes)
    ensures var t, source, answer := d.tables, Connection(input.from), MoveUnsyncedTo(d, input, p, owes);
            if input.from !in d.states then answer == Answer(d, Released)
            else if d.states[input.from].detached.None? then answer == Answer(d, Reconnected)
            else if input.target == input.from || input.target !in d.states || d.states[input.target].detached.Some? then
              answer == Answer(d, NoTarget)
            else if d.states[input.from].resumeUnverified then answer == Answer(d, IsUnverified)
            else if !IsAnythingShown(d, input) then
              answer == Answer(d, if HasUnseen(t, source, false, input.seen, {}) then StaysDetached else NothingToMove)
            else
              answer.outcome == if exists id :: id in RowsOf(t, source).notes && id in input.holding then Holding
                                else if HasUnseen(t, source, false, input.seen, input.holding) then StaysDetached
                                else Released
  {
    hide ValidMove, MovingNotes, UnsyncedIn, UnseenIn, HeldIn, HasUnseen, IsAnythingShown, QueueAll, MoveRowsTo, UnsentMove, KeepUnseen,
      CanMove;
    var t, source := d.tables, Connection(input.from);
    ShownIsSomething(d, input);
    UnseenIsThere(t, source, Unverified(d, input.from), input.seen, input.holding);
    UnseenIsThere(t, source, Unverified(d, input.from), input.seen, {});
    HeldAre(t, source, input.holding);
    HeldAre(t, source, {});
  }
}
