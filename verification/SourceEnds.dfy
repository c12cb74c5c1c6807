/**
  What the pile is left with when a source is bound, and what a source is left with when its
  resume is cut loose, or its first import is finished or cancelled (`bindConnection`,
  `cutLoose`, `finishImport` and `abandonImport` in apps/web/src/store/connection.ts).
 */
module SourceEnds {
  import opened Options
  import opened Paths
  import opened Naming
  import opened Library
  import opened MoveNotes
  import opened MoveFiles
  import opened MoveSpellings
  import opened MoveRows
  import opened MoveKeeps
  import opened MoveQueue
  import opened MoveOutcomes
  import opened PlainMoves
  import opened Unsynced
  import opened Sources
  import opened SourceRuns
  import opened SourceClashes
  import opened Imports
  import opened Binds

  // ----- The pile ----------------------------------------------------------------------

  /** Some live source holds the pile: its first import can still be cancelled. */
  ghost predicate IsPileHeld(d: Device) {
    exists c :: c in d.states && d.states[c].importing.Some? && d.states[c].detached.None?
  }

  /** A note of the pile as a source has it: a row of its own, of its text, never sent, its write queued. */
  ghost predicate IsTakenIn(id: Id, note: Note, before: Rows, after: Rows, to: Id) {
    && to !in before.notes && to in after.notes
    && after.notes[to] ==
         note.(path := after.notes[to].path, remoteId := None, remoteVersion := None, dirty := true,
               source := Some(NoteFile(id, note)))
    && FoldPath(ParentPath(after.notes[to].path)) == FoldPath(ParentPath(note.path))
  }

  /**
    A bind takes every live note of the pile into the source, unless another import holds
    the pile. The pile is then empty, with nothing queued for it, except where the source is
    new to this device; then, and where the pile is held, it is as it was.
   */
  lemma BindTakesPile(d: Device, input: BindInput, p: BindPlan)
    requires UnchangedSince(d, input.since) && ValidBind(d, input, p)
    ensures var source, pile, u := Connection(input.connection), RowsOf(d.tables, Pile), Bind(d, input, p).tables;
            && (IsPileHeld(d) || IsNew(d, input) ==> IsUntouched(d.tables, u, Pile))
            && (!IsPileHeld(d) && !IsNew(d, input) ==> RowsOf(u, Pile) == NO_ROWS && OpsOf(u.ops, Pile) == [])
            && (!IsPileHeld(d) ==>
                  forall id :: id in pile.notes && IsLive(pile.notes[id]) ==>
                    && id in p.copy.noteIds
                    && IsTakenIn(id, pile.notes[id], RowsOf(d.tables, source), RowsOf(u, source), p.copy.noteIds[id])
                    && IsQueuedFor(u.ops, source, WriteNote(p.copy.noteIds[id], pile.notes[id].path)))
  {
    hide CanMove, MoveRowsTo, ValidResumes, ResumeAll, QueueAll, BoundState, OpsOf, ValidBind, Gathered, Bind, RowsOf, IsTakenIn,
      IsQueuedFor, Homes, PileIsHeld, IsFirstBinding;
    PileHeldIs(d);
    NewIsFirst(d, input);
    if PileIsHeld(d) || IsFirstBinding(d, input) {
      assert !IsNamed(d, Binding(input, p), Pile);
      BindTouches(d, input, p, Pile);
    } else {
      PileIsEmptied(d, input, p);
    }
    if !PileIsHeld(d) {
      forall id | id in RowsOf(d.tables, Pile).notes && IsLive(RowsOf(d.tables, Pile).notes[id])
        ensures id in p.copy.noteIds
        ensures var source, note, u := Connection(input.connection), RowsOf(d.tables, Pile).notes[id], Bind(d, input, p).tables;
                && IsTakenIn(id, note, RowsOf(d.tables, source), RowsOf(u, source), p.copy.noteIds[id])
                && IsQueuedFor(u.ops, source, WriteNote(p.copy.noteIds[id], note.path))
      {
        PileNoteIsTaken(d, input, p, id);
      }
    }
  }

  lemma PileHeldIs(d: Device)
    ensures PileIsHeld(d) <==> IsPileHeld(d)
  {
    if c :| c in d.states && d.states[c].importing.Some? && d.states[c].detached.None? {
      assert HoldsPile(d.states[c]);
    }
  }

  lemma NewIsFirst(d: Device, input: BindInput)
    ensures IsFirstBinding(d, input) <==> IsNew(d, input)
  {
    if IsNew(d, input) {
      assert Homes(d, input) == {};
    } else if c :| c in d.states && IsOfAccount(d.states[c], input) {
      if c != input.connection {
        assert c in Homes(d, input);
      }
    }
  }

  /** The tables as the resumes leave them, where the pile is as it was, and as the copy then leaves them. */
  lemma PileAfterResumes(d: Device, input: BindInput, p: BindPlan) returns (t: Tables)
    requires UnchangedSince(d, input.since) && ValidBind(d, input, p) && !PileIsHeld(d)
    ensures IsUntouched(d.tables, t, Pile) && CanMove(t, PileMove(d, input), p.copy)
    ensures RowsStand(RowsOf(d.tables, Connection(input.connection)), RowsOf(t, Connection(input.connection)))
    ensures var moved := MoveRowsTo(t, PileMove(d, input), p.copy);
            && (forall source :: RowsOf(Bind(d, input, p).tables, source) == RowsOf(moved.tables, source))
            && Bind(d, input, p).tables.ops == QueueAll(moved.tables.ops, Connection(input.connection), p.owes)
            && (forall id :: id in moved.owed.notes && id in RowsOf(moved.tables, Connection(input.connection)).notes ==>
                  WriteNote(id, RowsOf(moved.tables, Connection(input.connection)).notes[id].path) in p.owes)
  {
    hide CanMove, MoveRowsTo, ValidResumes, ResumeAll, QueueAll, BoundState, OpsOf, Homes, Waiting, IsFirstBinding;
    t := ResumeAll(d.tables, input.connection, p.homes, p.resumes).tables;
    assert Connection(input.connection) != Pile && forall h :: h in p.homes ==> Connection(h) != Pile;
    ResumesTouch(d.tables, input.connection, p.homes, p.resumes, Pile);
    ResumesStand(d.tables, input.connection, p.homes, p.resumes);
  }

  lemma PileIsEmptied(d: Device, input: BindInput, p: BindPlan)
    requires UnchangedSince(d, input.since) && ValidBind(d, input, p) && !PileIsHeld(d) && !IsFirstBinding(d, input)
    ensures RowsOf(Bind(d, input, p).tables, Pile) == NO_ROWS && OpsOf(Bind(d, input, p).tables.ops, Pile) == []
  {
    hide MoveRowsTo, QueueAll, OpsOf, ValidBind, Bind, IsFirstBinding, PileIsHeld, ValidPlan, WellFormed, WhereOf, CarryOps, Arrived;
    var t := PileAfterResumes(d, input, p);
    var m := PileMove(d, input);
    MoveUnfolds(t, m, p.copy);
    WhereIs(t, m, p.copy);
    NothingIsLeftQueued(WhereOf(t, m, p.copy), t.ops);
    QueueTouches(MoveRowsTo(t, m, p.copy).tables.ops, Connection(input.connection), p.owes, Pile);
  }

  lemma PileNoteIsTaken(d: Device, input: BindInput, p: BindPlan, id: Id)
    requires UnchangedSince(d, input.since) && ValidBind(d, input, p) && !PileIsHeld(d)
    requires id in RowsOf(d.tables, Pile).notes && IsLive(RowsOf(d.tables, Pile).notes[id])
    ensures id in p.copy.noteIds
    ensures var source, note, u := Connection(input.connection), RowsOf(d.tables, Pile).notes[id], Bind(d, input, p).tables;
            && IsTakenIn(id, note, RowsOf(d.tables, source), RowsOf(u, source), p.copy.noteIds[id])
            && IsQueuedFor(u.ops, source, WriteNote(p.copy.noteIds[id], note.path))
  {
    hide MoveRowsTo, QueueAll, OpsOf, ValidBind, Bind, IsFirstBinding, PileIsHeld, ValidPlan, WellFormed, NoteFile, FoldPath,
      ParentPath;
    var t := PileAfterResumes(d, input, p);
    var m, source := PileMove(d, input), Connection(input.connection);
    CopiedIsTakenIn(t, m, p.copy, id);
    var moved, to := MoveRowsTo(t, m, p.copy), p.copy.noteIds[id];
    QueueAllKeeps(moved.tables.ops, source, p.owes);
    var owe := WriteNote(to, RowsOf(moved.tables, source).notes[to].path);
    assert owe in p.owes;
    var op :| op in QueueAll(moved.tables.ops, source, p.owes) && IsOwedBy(op, source, owe);
    assert IsOwedBy(op, source, WriteNote(to, RowsOf(d.tables, Pile).notes[id].path));
  }

  /** A live note copied, whatever it is copied from. */
  lemma CopiedIsTakenIn(t: Tables, m: Move, p: Plan, id: Id)
    requires CanMove(t, m, p) && m.mode == Copy && id in RowsOf(t, m.from).notes && IsTaken(m.only, id)
    requires IsLive(RowsOf(t, m.from).notes[id])
    ensures id in p.noteIds
    ensures var moved := MoveRowsTo(t, m, p);
            && IsTakenIn(id, RowsOf(t, m.from).notes[id], RowsOf(t, m.target), RowsOf(moved.tables, m.target), p.noteIds[id])
            && p.noteIds[id] in moved.owed.notes
  {
    hide MoveRowsTo, ValidPlan, WellFormed, NoteFile, FoldPath, ParentPath, MeetsItself;
    assert !MeetsItself(m, RowsOf(t, m.target), RowsOf(t, m.from).notes[id]) by { CopyMeetsNone(m, RowsOf(t, m.target), RowsOf(t, m.from).notes[id]); }
    RowsThatCome(t, m, p, id);
    NotesThatCome(t, m, p);
    NoteStaysInItsNotebook(t, m, p, id);
  }

  lemma CopyMeetsNone(m: Move, theirs: Rows, note: Note)
    requires m.mode == Copy
    ensures !MeetsItself(m, theirs, note)
  {}

  lemma NoteStaysInItsNotebook(t: Tables, m: Move, p: Plan, id: Id)
    requires CanMove(t, m, p) && id in RowsOf(t, m.from).notes && IsLive(RowsOf(t, m.from).notes[id]) && Arrives(t, m, id)
    ensures id in p.noteIds && p.noteIds[id] in RowsOf(MoveRowsTo(t, m, p).tables, m.target).notes
    ensures FoldPath(ParentPath(RowsOf(MoveRowsTo(t, m, p).tables, m.target).notes[p.noteIds[id]].path))
            == FoldPath(ParentPath(RowsOf(t, m.from).notes[id].path))
  {
    hide ValidPlan, WellFormed, Place, Shelve, Carry, PlacedInNotebooks, SpellingsGrow, Faithful, MoveRowsTo, Goes, Arrives,
      ValidMoving, FoldPath, ParentPath, RowAt, OwedAt;
    NotesArePlaced(t, m, p);
    MoveUnfolds(t, m, p);
    GoesIffArrives(t, m, p, id);
    var c, g := MovingOf(t, m, p), Place(t, m, p);
    assert id in c.notes.Keys && id in g.placed;
    assert PlacedRight(c, g, id);
  }

  // ----- A resume cut loose ------------------------------------------------------------

  /** A file that can be sent anew: never uploaded, or with the bytes the remote has. */
  predicate IsToSend(rows: Rows, id: Id)
    requires id in rows.files
  {
    rows.files[id].remoteId.None? || (id in rows.bytes && HeldIsCurrent(rows.files[id], rows.bytes[id]))
  }

  /** Rows beside those they were: nothing names the remote, every note is dirty with its file pinned, every file can be sent. */
  ghost predicate IsCutFrom(before: Rows, after: Rows) {
    && (forall id :: id in after.notes <==> id in before.notes && IsLive(before.notes[id]))
    && (forall id :: id in after.notes ==>
          after.notes[id] == before.notes[id].(remoteId := None, remoteVersion := None, dirty := true,
                                               source := Some(NoteFile(id, before.notes[id]))))
    && after.folders == (map path | path in before.folders :: Folder(None, before.folders[path].createdAt))
    && (forall id :: id in after.files <==> id in before.files && IsToSend(before, id))
    && (forall id :: id in after.files ==> FileIsCut(before, after, id))
    && (forall id :: id in before.files && id !in after.files ==> id !in after.bytes)
  }

  ghost predicate FileIsCut(before: Rows, after: Rows, id: Id)
    requires id in before.files && id in after.files
  {
    if before.files[id].remoteId.None? then
      && after.files[id] == before.files[id]
      && (id in after.bytes <==> id in before.bytes) && (id in after.bytes ==> after.bytes[id] == before.bytes[id])
    else
      && after.files[id] == File(before.files[id].path, None, None, before.files[id].size)
      && id in before.bytes && id in after.bytes && after.bytes[id] == Held(before.bytes[id].bytes, None, true)
  }

  /** Everything of a source is queued to go up: its notebooks, its files and its notes. */
  ghost predicate IsAllQueued(rows: Rows, ops: seq<Op>, source: Source) {
    && (forall id :: id in rows.notes ==> IsQueuedFor(ops, source, WriteNote(id, rows.notes[id].path)))
    && (forall path :: path in rows.folders ==> IsQueuedFor(ops, source, MakeNotebook(path)))
    && (forall id :: id in rows.files ==> IsQueuedFor(ops, source, SendFile(id, rows.files[id].path)))
  }

  /** And nothing else is, but an upload that was. */
  ghost predicate IsQueuedOnly(rows: Rows, before: seq<Op>, after: seq<Op>, source: Source) {
    forall op :: op in after && op.source == source ==> (op in before && op.kind == Upload) || IsOfRows(rows, op)
  }

  predicate IsOfRows(rows: Rows, op: Op) {
    || (op.kind == Write && op.noteId.Some? && op.noteId.value in rows.notes)
    || (op.kind == Mkdir && op.path in rows.folders)
    || (op.kind == Upload && op.fileId.Some? && op.fileId.value in rows.files)
  }

  /**
    The answer that none of a source's files is there cuts it loose: it keeps every note and
    notebook, and every file it can send, names nothing on the remote, and queues all of it,
    with every other source as it was. The answer that one is there changes nothing of it but
    that it has been asked.
   */
  lemma CutIsNew(d: Device, c: nat, found: bool, owes: seq<Owe>)
    requires c in d.states && (!found ==> OwesWhatItCut(d, c, owes))
    ensures var source, after := Connection(c), VerifyResume(d, c, found, owes);
            && after.active == d.active && after.states == d.states[c := d.states[c].(resumeUnverified := false)]
            && (found ==> after.tables == d.tables && after.bindings == d.bindings)
            && (!found ==>
                  && after.bindings == d.bindings + 1
                  && IsCutFrom(RowsOf(d.tables, source), RowsOf(after.tables, source))
                  && IsAllQueued(RowsOf(after.tables, source), after.tables.ops, source)
                  && IsQueuedOnly(RowsOf(after.tables, source), d.tables.ops, after.tables.ops, source)
                  && forall other :: other != source ==> IsUntouched(d.tables, after.tables, other))
  {
    hide QueueAll, OnlyUploads, CutRows, IsCutFrom, IsAllQueued, IsQueuedOnly, OpsOf;
    if !found {
      var source, rows := Connection(c), RowsOf(d.tables, Connection(c));
      RowsAreCut(rows);
      CutIsQueued(CutRows(rows), d.tables.ops, source, owes);
      forall other | other != source
        ensures IsUntouched(d.tables, VerifyResume(d, c, found, owes).tables, other)
      {
        CutTouches(d, c, found, owes, other);
      }
    }
  }

  lemma RowsAreCut(rows: Rows)
    ensures IsCutFrom(rows, CutRows(rows))
  {
    hide NoteFile;
  }

  lemma CutIsQueued(rows: Rows, before: seq<Op>, source: Source, owes: seq<Owe>)
    requires Enumerates(owes, OwesOf(rows, Owed(rows.notes.Keys, rows.folders.Keys, rows.files.Keys, false)))
    ensures IsAllQueued(rows, QueueAll(OnlyUploads(before, source), source, owes), source)
    ensures IsQueuedOnly(rows, before, QueueAll(OnlyUploads(before, source), source, owes), source)
  {
    hide QueueAll, OwesOf, IsOwedBy, IsOfRows, OnlyUploads, Enumerates;
    var kept := OnlyUploads(before, source);
    var after := QueueAll(kept, source, owes);
    QueueAllKeeps(kept, source, owes);
    AllIsOwed(rows, owes);
    AllAreQueued(rows, after, source, owes);
    forall op | op in after && op.source == source && op !in kept
      ensures IsOfRows(rows, op)
    {
      var owe :| owe in owes && IsOwedBy(op, source, owe);
      OwedIsOfRows(rows, op, source, owe);
    }
  }

  lemma AllAreQueued(rows: Rows, after: seq<Op>, source: Source, owes: seq<Owe>)
    requires forall owe :: owe in owes ==> exists op :: op in after && IsOwedBy(op, source, owe)
    requires forall id :: id in rows.notes ==> WriteNote(id, rows.notes[id].path) in owes
    requires forall path :: path in rows.folders ==> MakeNotebook(path) in owes
    requires forall id :: id in rows.files ==> SendFile(id, rows.files[id].path) in owes
    ensures IsAllQueued(rows, after, source)
  {
    hide IsOwedBy;
    assert forall owe :: owe in owes ==> IsQueuedFor(after, source, owe);
  }

  lemma OwedIsOfRows(rows: Rows, op: Op, source: Source, owe: Owe)
    requires IsOwedBy(op, source, owe)
    requires match owe {
               case MakeNotebook(path) => path in rows.folders
               case SendFile(id, _) => id in rows.files
               case WriteNote(id, _) => id in rows.notes
             }
    ensures IsOfRows(rows, op)
  {}

  lemma AllIsOwed(rows: Rows, owes: seq<Owe>)
    requires Enumerates(owes, OwesOf(rows, Owed(rows.notes.Keys, rows.folders.Keys, rows.files.Keys, false)))
    ensures forall id :: id in rows.notes ==> WriteNote(id, rows.notes[id].path) in owes
    ensures forall path :: path in rows.folders ==> MakeNotebook(path) in owes
    ensures forall id :: id in rows.files ==> SendFile(id, rows.files[id].path) in owes
    ensures forall owe :: owe in owes ==>
              match owe {
                case MakeNotebook(path) => path in rows.folders
                case SendFile(id, _) => id in rows.files
                case WriteNote(id, _) => id in rows.notes
              }
  {}

  /** An answer is taken exactly where nothing was bound, moved or cancelled since it was asked for and the source is there. */
  lemma VerifyAnswers(d: Device, c: nat, since: nat, found: bool, owes: seq<Owe>)
    ensures var (after, verdict) := Verify(d, c, since, found, owes);
            if d.bindings != since || c !in d.states then after == d && verdict == Superseded
            else after == VerifyResume(d, c, found, owes) && verdict == (if found then Resumed else Copied)
  {
    hide VerifyResume;
  }

  // ----- An import finished ------------------------------------------------------------

  /** A live note of the pile written in since the source was bound. */
  predicate IsLate(e: Device, c: nat, id: Id)
    requires c in e.states
  {
    var pile := RowsOf(e.tables, Pile).notes;
    id in pile && IsLive(pile[id]) && pile[id].updatedAt > (if e.states[c].boundAt.Some? then e.states[c].boundAt.value else 0)
  }

  /** A late note links the file, as providers compare names. */
  ghost predicate IsLinkedLate(e: Device, c: nat, links: Links, path: string)
    requires c in e.states
  {
    var pile := RowsOf(e.tables, Pile).notes;
    exists id, link :: IsLate(e, c, id) && link in links(pile[id].body, pile[id].path) && FoldPath(link) == FoldPath(path)
  }

  /** A file of the pile as the source has it: one of that name and size, or one pending with its bytes. */
  ghost predicate IsFileTakenIn(file: File, held: Held, before: Rows, after: Rows) {
    || (exists k :: k in after.files && FoldPath(after.files[k].path) == FoldPath(file.path) && after.files[k].size == file.size)
    || (exists k :: k in after.files && k !in before.files && after.files[k].size == file.size
                    && k in after.bytes && after.bytes[k] == Held(held.bytes, None, true))
  }

  /** What an import's source has once it is finished: every row it had, and beside them the late notes and what they link. */
  ghost predicate LateCame(e: Device, c: nat, links: Links, noteIds: map<Id, Id>, u: Tables)
    requires c in e.states
  {
    var source, pile := Connection(c), RowsOf(e.tables, Pile);
    var was, now := RowsOf(e.tables, source), RowsOf(u, source);
    && RowsStand(was, now)
    && (forall id :: id in pile.notes && IsLate(e, c, id) ==>
          && id in noteIds && IsTakenIn(id, pile.notes[id], was, now, noteIds[id])
          && IsQueuedFor(u.ops, source, WriteNote(noteIds[id], pile.notes[id].path)))
    && (forall k :: k in now.notes && k !in was.notes ==> exists id :: IsLate(e, c, id) && id in noteIds && noteIds[id] == k)
    && (forall id :: id in pile.files && id in pile.bytes && HeldIsCurrent(pile.files[id], pile.bytes[id])
                     && IsLinkedLate(e, c, links, pile.files[id].path) ==>
          IsFileTakenIn(pile.files[id], pile.bytes[id], was, now))
  }

  /**
    An import that finishes changes no source but its own, which is no longer importing, and
    the pile: the late notes come in with what they link, owed, and no other note does. On a
    device where it is not importing, or is detached, nothing changes.
   */
  lemma FinishTakesLate(e: Device, c: nat, links: Links, p: Plan, owes: seq<Owe>)
    requires CanFinish(e, c) ==> ValidFinish(e, c, links, p, owes)
    ensures var after := FinishImport(e, c, links, p, owes);
            if c in e.states && e.states[c].importing.Some? && e.states[c].detached.None? then
              && after.states == e.states[c := e.states[c].(importing := None)]
              && after.active == e.active && after.bindings == e.bindings
              && (forall other :: other != Connection(c) && other != Pile ==> IsUntouched(e.tables, after.tables, other))
              && RowsOf(after.tables, Pile) == NO_ROWS && OpsOf(after.tables.ops, Pile) == []
              && LateCame(e, c, links, p.noteIds, after.tables)
            else after == e
  {
    hide CanMove, MoveRowsTo, QueueAll, ForgetRows, OpsOf, LateTables, ValidFinish, LateCame, RowsOf;
    if CanFinish(e, c) {
      FinishUnfolds(e, c, links, p, owes);
      var late, after := LateTables(e, c, links, p, owes), FinishImport(e, c, links, p, owes);
      hide FinishImport, LateNotes;
      ForgottenRows(late, Pile);
      LateComesIn(e, c, links, p, owes);
      assert IsUntouched(late, after.tables, Connection(c));
      PileForgottenLeaves(late);
      SameLateCame(e, c, links, p.noteIds, late, after.tables);
      forall other | other != Connection(c) && other != Pile
        ensures IsUntouched(e.tables, after.tables, other)
      {
        assert IsUntouched(late, after.tables, other);
        LateTouches(e, c, links, p, owes, other);
      }
    }
  }

  lemma PileForgottenLeaves(t: Tables)
    ensures forall op: Op :: op.source != Pile ==> (op in ForgetRows(t, Pile).ops <==> op in t.ops)
  {
    hide OpsNotOf;
  }

  lemma SameLateCame(e: Device, c: nat, links: Links, noteIds: map<Id, Id>, u: Tables, v: Tables)
    requires c in e.states && LateCame(e, c, links, noteIds, u) && RowsOf(v, Connection(c)) == RowsOf(u, Connection(c))
    requires forall op: Op :: op.source != Pile ==> (op in v.ops <==> op in u.ops)
    ensures LateCame(e, c, links, noteIds, v)
  {
    hide RowsStand, IsTakenIn, IsFileTakenIn, IsLinkedLate, IsLate, RowsOf;
    forall owe | IsQueuedFor(u.ops, Connection(c), owe)
      ensures IsQueuedFor(v.ops, Connection(c), owe)
    {
      var op :| op in u.ops && IsOwedBy(op, Connection(c), owe);
      assert op in v.ops;
    }
  }

  lemma LateTouches(e: Device, c: nat, links: Links, p: Plan, owes: seq<Owe>, other: Source)
    requires CanFinish(e, c) && ValidFinish(e, c, links, p, owes) && other != Connection(c) && other != Pile
    ensures IsUntouched(e.tables, LateTables(e, c, links, p, owes), other)
  {
    hide ValidPlan, WellFormed, MoveRowsTo, QueueAll, OpsOf, LateNotes;
    if LateNotes(e, c) != {} {
      OthersAreUntouched(e.tables, LateMove(e, c, links), p, other);
      QueueTouches(MoveRowsTo(e.tables, LateMove(e, c, links), p).tables.ops, Connection(c), owes, other);
    }
  }

  lemma LateNotesAre(e: Device, c: nat)
    requires c in e.states
    ensures forall id :: id in LateNotes(e, c) <==> IsLate(e, c, id)
  {}

  lemma LateComesIn(e: Device, c: nat, links: Links, p: Plan, owes: seq<Owe>)
    requires CanFinish(e, c) && ValidFinish(e, c, links, p, owes)
    ensures LateCame(e, c, links, p.noteIds, LateTables(e, c, links, p, owes))
  {
    hide ValidPlan, WellFormed, MoveRowsTo, QueueAll, LateNotes, IsLate, IsTakenIn, IsFileTakenIn, IsQueuedFor;
    LateNotesAre(e, c);
    if LateNotes(e, c) != {} {
      var m, t, u, source := LateMove(e, c, links), e.tables, LateTables(e, c, links, p, owes), Connection(c);
      assert RowsOf(u, source) == RowsOf(MoveRowsTo(t, m, p).tables, source);
      MoveStands(t, m, p);
      forall id | id in RowsOf(t, Pile).notes && IsLate(e, c, id)
        ensures id in p.noteIds && IsTakenIn(id, RowsOf(t, Pile).notes[id], RowsOf(t, source), RowsOf(u, source), p.noteIds[id])
        ensures IsQueuedFor(u.ops, source, WriteNote(p.noteIds[id], RowsOf(t, Pile).notes[id].path))
      {
        OneLateComesIn(e, c, links, p, owes, id);
      }
      forall k | k in RowsOf(u, source).notes && k !in RowsOf(t, source).notes
        ensures exists id :: IsLate(e, c, id) && id in p.noteIds && p.noteIds[id] == k
      {
        OnlyLateComesIn(e, c, links, p, k);
      }
      forall id | id in RowsOf(t, Pile).files && id in RowsOf(t, Pile).bytes
                  && HeldIsCurrent(RowsOf(t, Pile).files[id], RowsOf(t, Pile).bytes[id])
                  && IsLinkedLate(e, c, links, RowsOf(t, Pile).files[id].path)
        ensures IsFileTakenIn(RowsOf(t, Pile).files[id], RowsOf(t, Pile).bytes[id], RowsOf(t, source), RowsOf(u, source))
      {
        LinkedIsTaken(e, c, links, id);
        CopiedFileIsTakenIn(t, m, p, id);
      }
    } else {
      NothingLate(e, c, links, p.noteIds);
    }
  }

  lemma NothingLate(e: Device, c: nat, links: Links, noteIds: map<Id, Id>)
    requires c in e.states && forall id :: !IsLate(e, c, id)
    ensures LateCame(e, c, links, noteIds, e.tables)
  {
    hide IsLate, IsTakenIn, IsFileTakenIn, IsQueuedFor;
  }

  lemma OneLateComesIn(e: Device, c: nat, links: Links, p: Plan, owes: seq<Owe>, id: Id)
    requires CanFinish(e, c) && ValidFinish(e, c, links, p, owes) && id in RowsOf(e.tables, Pile).notes && IsLate(e, c, id)
    ensures var t, u, source := e.tables, LateTables(e, c, links, p, owes), Connection(c);
            && id in p.noteIds
            && IsTakenIn(id, RowsOf(t, Pile).notes[id], RowsOf(t, source), RowsOf(u, source), p.noteIds[id])
            && IsQueuedFor(u.ops, source, WriteNote(p.noteIds[id], RowsOf(t, Pile).notes[id].path))
  {
    hide ValidPlan, WellFormed, MoveRowsTo, QueueAll, LateNotes, LinkedRows, NoteFile, FoldPath, ParentPath;
    LateNotesAre(e, c);
    var m, t, source := LateMove(e, c, links), e.tables, Connection(c);
    CopiedIsTakenIn(t, m, p, id);
    var moved, to := MoveRowsTo(t, m, p), p.noteIds[id];
    QueueAllKeeps(moved.tables.ops, source, owes);
    var owe := WriteNote(to, RowsOf(moved.tables, source).notes[to].path);
    assert owe in owes;
    var op :| op in QueueAll(moved.tables.ops, source, owes) && IsOwedBy(op, source, owe);
    assert IsOwedBy(op, source, WriteNote(to, RowsOf(t, Pile).notes[id].path));
  }

  lemma OnlyLateComesIn(e: Device, c: nat, links: Links, p: Plan, k: Id)
    requires c in e.states && CanMove(e.tables, LateMove(e, c, links), p)
    requires k in RowsOf(MoveRowsTo(e.tables, LateMove(e, c, links), p).tables, Connection(c)).notes
    requires k !in RowsOf(e.tables, Connection(c)).notes
    ensures exists id :: IsLate(e, c, id) && id in p.noteIds && p.noteIds[id] == k
  {
    hide CanMove, MoveRowsTo, LateNotes, LinkedRows, MeetsItself;
    LateNotesAre(e, c);
    var m, t := LateMove(e, c, links), e.tables;
    NotesThatCome(t, m, p);
    var id :| id in RowsOf(t, Pile).notes && Arrives(t, m, id) && p.noteIds[id] == k;
    assert id in LateNotes(e, c);
  }

  lemma LinkedIsTaken(e: Device, c: nat, links: Links, id: Id)
    requires c in e.states && id in RowsOf(e.tables, Pile).files && IsLinkedLate(e, c, links, RowsOf(e.tables, Pile).files[id].path)
    ensures id in FilesTaken(LateMove(e, c, links), RowsOf(e.tables, Pile))
  {
    hide LateNotes, FoldPath;
    LateNotesAre(e, c);
    var pile, path := RowsOf(e.tables, Pile).notes, RowsOf(e.tables, Pile).files[id].path;
    var note, link :| IsLate(e, c, note) && link in links(pile[note].body, pile[note].path) && FoldPath(link) == FoldPath(path);
    assert FoldPath(link) in LinkedPaths(pile, LateNotes(e, c), links);
  }

  /** A file copied whose bytes are here. */
  lemma CopiedFileIsTakenIn(t: Tables, m: Move, p: Plan, id: Id)
    requires CanMove(t, m, p) && m.mode == Copy && id in FilesTaken(m, RowsOf(t, m.from)) && id in RowsOf(t, m.from).bytes
    requires HeldIsCurrent(RowsOf(t, m.from).files[id], RowsOf(t, m.from).bytes[id])
    ensures IsFileTakenIn(RowsOf(t, m.from).files[id], RowsOf(t, m.from).bytes[id], RowsOf(t, m.target),
                          RowsOf(MoveRowsTo(t, m, p).tables, m.target))
  {
    hide ValidPlan, WellFormed, Place, Shelve, Carry, MoveRowsTo, ValidCarrying, DistinctFiles, HeldIsCurrent, FoldPath, ParentPath,
      AtTells, Faithful;
    FilesArePlaced(t, m, p);
    CarryingIsTheirs(t, m, p);
    MoveUnfolds(t, m, p);
    var c, g := CarryingOf(t, m, p), Carry(t, m, p);
    assert id in c.files && FileIsKept(c, g, id);
    if id in g.placed {
      assert FiledAs(c, g, id);
    }
  }

  // ----- An import cancelled -----------------------------------------------------------

  /** Something of the source that a copy of the pile as it stands would not have: a note, or what an op is about. */
  ghost predicate IsWrittenIn(t: Tables, source: Source) {
    var pile, rows := RowsOf(t, Pile), RowsOf(t, source);
    || (exists id :: id in rows.notes && rows.notes[id].deleted)
    || (exists id :: id in rows.notes && id !in pile.notes && rows.notes[id].dirty)
    || (exists id :: id in rows.notes && id in pile.notes && rows.notes[id].body != pile.notes[id].body)
    || (exists id :: id in rows.notes && id in pile.notes && rows.notes[id].path != pile.notes[id].path)
    || (exists op :: op in t.ops && op.source == source && op.noteId.Some? && op.noteId.value !in pile.notes)
    || (exists op :: op in t.ops && op.source == source && op.noteId.None? && op.path !in pile.folders)
  }

  lemma WrittenIsWritten(t: Tables, source: Source)
    ensures WrittenSince(t, source) <==> IsWrittenIn(t, source)
  {
    var pile, rows := RowsOf(t, Pile), RowsOf(t, source);
    if id :| id in rows.notes && (rows.notes[id].deleted || (id !in pile.notes && rows.notes[id].dirty)
                                  || (id in pile.notes && (rows.notes[id].body != pile.notes[id].body
                                                           || rows.notes[id].path != pile.notes[id].path))) {
      assert NoteChanged(pile.notes, id, rows.notes[id]);
    }
    if op :| op in t.ops && op.source == source
             && (if op.noteId.None? then op.path !in pile.folders else op.noteId.value !in pile.notes) {
      var i :| 0 <= i < |t.ops| && t.ops[i] == op;
    }
  }

  /**
    A cancel is refused, having changed nothing, of a source that is not importing, and of one
    whose app is not held and that has been written in. Otherwise the source is gone, every
    other is as it was, what was in front before is in front, and the cancel is counted.
   */
  lemma AbandonIff(e: Device, c: nat)
    ensures var (after, outcome) := AbandonImport(e, c);
            if c !in e.states || e.states[c].importing.None? then after == e && outcome == Imported
            else if !e.states[c].importing.value.lock && IsWrittenIn(e.tables, Connection(c)) then after == e && outcome == Written
            else
              && outcome == Abandoned && after.active == Some(e.states[c].importing.value.returnTo)
              && after.states == e.states - {c} && after.bindings == e.bindings + 1
              && RowsOf(after.tables, Connection(c)) == NO_ROWS && OpsOf(after.tables.ops, Connection(c)) == []
              && forall other :: other != Connection(c) ==> IsUntouched(e.tables, after.tables, other)
  {
    hide WrittenSince, IsWrittenIn, ForgetRows, OpsOf;
    WrittenIsWritten(e.tables, Connection(c));
    ForgottenRows(e.tables, Connection(c));
  }

  /** A file of the pile that is copied, under a path that is no notebook's. */
  ghost predicate HasPicture(pile: Rows) {
    exists id :: id in pile.files && id in pile.bytes && HeldIsCurrent(pile.files[id], pile.bytes[id])
                 && pile.files[id].path !in pile.folders
  }

  /**
    A cancel right after a first bind that met nothing, the app let go of and nothing written
    by anyone, is refused exactly where the bind copied a file: its upload, which names no
    note and no notebook, reads as something written in.
   */
  lemma JustBoundIsWrittenIff(d: Device, input: BindInput, p: BindPlan, dirs: set<string>, e: Device)
    requires UnchangedSince(d, input.since) && ValidBind(d, input, p) && IsNew(d, input) && !IsPileHeld(d)
    requires RowsOf(d.tables, Connection(input.connection)) == NO_ROWS
    requires forall op :: op in d.tables.ops ==> op.source != Connection(input.connection)
    requires MeetsNothing(d.tables, PileMove(d, input), dirs)
    requires e.tables == Bind(d, input, p).tables && input.connection in e.states
    requires e.states[input.connection].importing.Some? && !e.states[input.connection].importing.value.lock
    ensures AbandonImport(e, input.connection).1 == Written <==> HasPicture(RowsOf(d.tables, Pile))
  {
    hide ValidBind, Bind, MeetsNothing, IsWrittenIn, HasPicture, IsNew, IsPileHeld;
    AbandonIff(e, input.connection);
    JustCopied(d, input, p, dirs);
  }

  /** A first bind is a copy of the pile, with what it owes queued. */
  lemma FirstBindIsCopy(d: Device, input: BindInput, p: BindPlan)
    requires UnchangedSince(d, input.since) && ValidBind(d, input, p) && IsNew(d, input) && !IsPileHeld(d)
    ensures CanMove(d.tables, PileMove(d, input), p.copy) && PileMove(d, input).keep
    ensures var source, moved := Connection(input.connection), MoveRowsTo(d.tables, PileMove(d, input), p.copy);
            && RowsOf(Bind(d, input, p).tables, source) == RowsOf(moved.tables, source)
            && Bind(d, input, p).tables.ops == QueueAll(moved.tables.ops, source, p.owes)
            && (forall owe :: owe in p.owes <==> owe in OwesOf(RowsOf(moved.tables, source), moved.owed))
  {
    hide ValidPlan, WellFormed, MoveRowsTo, QueueAll, PileIsHeld, IsFirstBinding, OwesOf;
    PileHeldIs(d);
    NewIsFirst(d, input);
    FirstHasNone(d, input, p);
    var moved := MoveRowsTo(d.tables, PileMove(d, input), p.copy);
    assert Together(Together(NOTHING_OWED, NOTHING_OWED), moved.owed) == moved.owed;
  }

  lemma FirstHasNone(d: Device, input: BindInput, p: BindPlan)
    requires ValidBind(d, input, p) && IsFirstBinding(d, input)
    ensures p.homes == [] && input.connection !in d.states
  {
    hide CanMove, MoveRowsTo, PileIsHeld, ValidResumes, ResumeAll, OwesOf, Gathered;
    NothingEnumerated(p.homes, Homes(d, input));
  }

  lemma JustCopied(d: Device, input: BindInput, p: BindPlan, dirs: set<string>)
    requires UnchangedSince(d, input.since) && ValidBind(d, input, p) && IsNew(d, input) && !IsPileHeld(d)
    requires RowsOf(d.tables, Connection(input.connection)) == NO_ROWS
    requires forall op :: op in d.tables.ops ==> op.source != Connection(input.connection)
    requires MeetsNothing(d.tables, PileMove(d, input), dirs)
    ensures IsWrittenIn(Bind(d, input, p).tables, Connection(input.connection)) <==> HasPicture(RowsOf(d.tables, Pile))
  {
    hide ValidBind, Bind, MeetsNothing, IsNew, IsPileHeld, MoveRowsTo, OwesOf, QueueAll, ValidPlan, WellFormed, HasPicture,
      IsTakenIn, IsQueuedFor;
    BindTakesPile(d, input, p);
    FirstBindIsCopy(d, input, p);
    var m, source := PileMove(d, input), Connection(input.connection);
    NotesAreCopies(d.tables, m, p.copy, dirs);
    CopyIsQueued(d.tables, m, p.copy, p.owes);
    OwesAreOfPile(d.tables, m, p.copy, dirs, p.owes);
    QueuedAreOfPile(RowsOf(d.tables, Pile), MoveRowsTo(d.tables, m, p.copy).tables.ops, source, p.owes);
  }

  lemma NotesAreCopies(t: Tables, m: Move, p: Plan, dirs: set<string>)
    requires CanMove(t, m, p) && m.mode == Copy && m.only.Everything? && RowsOf(t, m.target) == NO_ROWS && MeetsNothing(t, m, dirs)
    ensures var pile, rows := RowsOf(t, m.from), RowsOf(MoveRowsTo(t, m, p).tables, m.target);
            forall k :: k in rows.notes ==>
              k in pile.notes && !rows.notes[k].deleted && rows.notes[k].body == pile.notes[k].body
              && rows.notes[k].path == pile.notes[k].path
  {
    hide MoveRowsTo, ValidPlan, WellFormed, MeetsItself, MeetsNothing, NotebooksLandedThere, FilesLandedThere, NoteFile;
    NotesThatCome(t, m, p);
    PlainMove(t, m, p, dirs);
    var pile, rows := RowsOf(t, m.from), RowsOf(MoveRowsTo(t, m, p).tables, m.target);
    forall k | k in rows.notes
      ensures k in pile.notes && !rows.notes[k].deleted && rows.notes[k].body == pile.notes[k].body
              && rows.notes[k].path == pile.notes[k].path
    {
      var id :| id in pile.notes && Arrives(t, m, id) && p.noteIds[id] == k;
      CopyMeetsNone(m, RowsOf(t, m.target), pile.notes[id]);
      IdIsKept(t, m, p, id);
      RowsThatCome(t, m, p, id);
    }
  }

  /** What an owed row is of: the pile as it was. */
  ghost predicate IsOwedOfPile(pile: Rows, owe: Owe) {
    match owe
    case MakeNotebook(path) => path in pile.folders
    case SendFile(id, path) => id in pile.files && path == pile.files[id].path && id in pile.bytes && HeldIsCurrent(pile.files[id], pile.bytes[id])
    case WriteNote(id, _) => id in pile.notes
  }

  lemma CopyIsQueued(t: Tables, m: Move, p: Plan, owes: seq<Owe>)
    requires CanMove(t, m, p) && m.mode == Copy && forall op :: op in t.ops ==> op.source != m.target
    ensures forall op :: op in MoveRowsTo(t, m, p).tables.ops ==> op.source != m.target
  {
    hide ValidPlan, WellFormed, MoveRowsTo, WhereOf, CarryOps, Arrived;
    MoveUnfolds(t, m, p);
    WhereIs(t, m, p);
    forall op | op in MoveRowsTo(t, m, p).tables.ops
      ensures op.source != m.target
    {
      CopyTakesOff(WhereOf(t, m, p), t.ops, op);
    }
  }

  lemma OwesAreOfPile(t: Tables, m: Move, p: Plan, dirs: set<string>, owes: seq<Owe>)
    requires CanMove(t, m, p) && m.mode == Copy && m.only.Everything? && RowsOf(t, m.target) == NO_ROWS && MeetsNothing(t, m, dirs)
    requires forall owe :: owe in owes <==> owe in OwesOf(RowsOf(MoveRowsTo(t, m, p).tables, m.target), MoveRowsTo(t, m, p).owed)
    ensures forall owe :: owe in owes ==> IsOwedOfPile(RowsOf(t, m.from), owe)
    ensures forall id :: id in RowsOf(t, m.from).files && id in RowsOf(t, m.from).bytes
                         && HeldIsCurrent(RowsOf(t, m.from).files[id], RowsOf(t, m.from).bytes[id]) ==>
              SendFile(id, RowsOf(t, m.from).files[id].path) in owes
  {
    hide MoveRowsTo, ValidPlan, WellFormed, MeetsNothing, HeldIsCurrent, NotesLandedThere, NotebooksLandedThere, FilesLandedThere;
    NotesAreCopies(t, m, p, dirs);
    PlainMove(t, m, p, dirs);
    NotebooksAreCopies(m, RowsOf(t, m.from), RowsOf(MoveRowsTo(t, m, p).tables, m.target));
    FilesAreCopies(t, m, p);
    FoldersOwed(t, m, p);
  }

  lemma FoldersOwed(t: Tables, m: Move, p: Plan)
    requires CanMove(t, m, p)
    ensures forall path :: path in MoveRowsTo(t, m, p).owed.folders ==> path in RowsOf(MoveRowsTo(t, m, p).tables, m.target).folders
  {
    hide ValidPlan, WellFormed, Shelve, MoveRowsTo, Shelved, Place, Carry, NormalSpellings, NormalFolders, DistinctFolders;
    MoveUnfolds(t, m, p);
    FoldersAreShelved(t, m, p);
    OwedAreShelved(t, m, p);
    hide OwedFolders;
    ShelvedOwes(Shelve(t, m, p));
  }

  lemma ShelvedOwes(g: Shelves)
    requires Shelved(g)
    ensures g.owed <= g.folders.Keys
  {}

  lemma NotebooksAreCopies(m: Move, pile: Rows, rows: Rows)
    requires m.only.Everything? && NotebooksLandedThere(m.mode, TakenFolders(m, pile), NO_ROWS, rows)
    ensures forall path :: path in rows.folders <==> path in pile.folders
  {}

  lemma FilesAreCopies(t: Tables, m: Move, p: Plan)
    requires CanMove(t, m, p) && m.mode == Copy && m.only.Everything? && RowsOf(t, m.target) == NO_ROWS
    requires FilesLandedThere(m, RowsOf(t, m.from), RowsOf(MoveRowsTo(t, m, p).tables, m.target), p.fileIds)
    ensures var pile, moved := RowsOf(t, m.from), MoveRowsTo(t, m, p);
            var rows := RowsOf(moved.tables, m.target);
            && (forall k :: k in rows.files ==>
                  k in pile.files && k in pile.bytes && HeldIsCurrent(pile.files[k], pile.bytes[k])
                  && rows.files[k].path == pile.files[k].path && k in moved.owed.files)
            && (forall id :: id in pile.files && id in pile.bytes && HeldIsCurrent(pile.files[id], pile.bytes[id]) ==> id in rows.files)
  {
    hide MoveRowsTo, ValidPlan, WellFormed, HeldIsCurrent, MeetsItsFile, FoldPath, ParentPath;
    var pile, moved := RowsOf(t, m.from), MoveRowsTo(t, m, p);
    var rows := RowsOf(moved.tables, m.target);
    forall k | k in rows.files
      ensures k in pile.files && k in pile.bytes && HeldIsCurrent(pile.files[k], pile.bytes[k])
              && rows.files[k].path == pile.files[k].path && k in moved.owed.files && To(p.fileIds, k) == k
    {
      FilesThatCome(t, m, p, k);
    }
    forall id | id in pile.files && id in pile.bytes && HeldIsCurrent(pile.files[id], pile.bytes[id])
      ensures id in rows.files
    {
      assert id in FilesTaken(m, pile);
      FileIdIsKept(t, m, p, id);
    }
  }

  lemma FileIdIsKept(t: Tables, m: Move, p: Plan, id: Id)
    requires CanMove(t, m, p) && id in FilesTaken(m, RowsOf(t, m.from)) && RowsOf(t, m.target) == NO_ROWS
    ensures To(p.fileIds, id) == id
  {
    hide ValidPlan, WellFormed, ValidMoving, AtTells, Enumerates;
    PlanIsValid(t, m, p);
  }

  /** An op about a note, or at a path, that the pile has not. */
  predicate IsForeign(pile: Rows, op: Op) {
    if op.noteId.Some? then op.noteId.value !in pile.notes else op.path !in pile.folders
  }

  lemma MadeForPicture(pile: Rows, source: Source, owe: Owe)
    requires IsOwedOfPile(pile, owe)
    ensures IsForeign(pile, MadeFor(source, owe)) ==> HasPicture(pile)
    ensures IsForeign(pile, MadeFor(source, owe)) <==> owe.SendFile? && owe.path !in pile.folders
  {
    hide HeldIsCurrent;
  }

  lemma QueuedAreOfPile(pile: Rows, ops: seq<Op>, source: Source, owes: seq<Owe>)
    requires forall op :: op in ops ==> op.source != source
    requires forall owe :: owe in owes ==> IsOwedOfPile(pile, owe)
    requires forall id :: id in pile.files && id in pile.bytes && HeldIsCurrent(pile.files[id], pile.bytes[id]) ==>
               SendFile(id, pile.files[id].path) in owes
    ensures (exists op :: op in QueueAll(ops, source, owes) && op.source == source && IsForeign(pile, op)) <==> HasPicture(pile)
  {
    hide QueueAll, HeldIsCurrent, IsOwedOfPile, HasPicture, IsForeign;
    if op :| op in QueueAll(ops, source, owes) && op.source == source && IsForeign(pile, op) {
      ForeignIsPicture(pile, ops, source, owes, op);
    }
    if HasPicture(pile) {
      var owe := PictureIsOwed(pile, owes);
      var op := PictureIsForeign(pile, ops, source, owes, owe);
    }
  }

  lemma ForeignIsPicture(pile: Rows, ops: seq<Op>, source: Source, owes: seq<Owe>, op: Op)
    requires forall each :: each in ops ==> each.source != source
    requires forall owe :: owe in owes ==> IsOwedOfPile(pile, owe)
    requires op in QueueAll(ops, source, owes) && op.source == source && IsForeign(pile, op)
    ensures HasPicture(pile)
  {
    hide QueueAll, IsUndone, IsOwedOfPile, HasPicture, IsOwedBy, MadeFor, IsForeign, IsQueuedOnce;
    QueueAllIs(ops, source, owes);
    var owe :| owe in owes && op == MadeFor(source, owe);
    MadeForPicture(pile, source, owe);
  }

  lemma PictureIsForeign(pile: Rows, ops: seq<Op>, source: Source, owes: seq<Owe>, owe: Owe) returns (op: Op)
    requires forall each :: each in ops ==> each.source != source
    requires forall other :: other in owes ==> IsOwedOfPile(pile, other)
    requires owe in owes && owe.SendFile? && owe.path !in pile.folders && owe.id in pile.files && owe.path == pile.files[owe.id].path
    ensures op in QueueAll(ops, source, owes) && op.source == source && IsForeign(pile, op)
  {
    hide QueueAll, IsUndone, IsOwedOfPile, IsOwedBy, MadeFor, IsForeign, IsQueuedOnce;
    QueueAllIs(ops, source, owes);
    QueueAllKeeps(ops, source, owes);
    op :| op in QueueAll(ops, source, owes) && IsOwedBy(op, source, owe);
    IsOfSource(op, source, owe);
    var other :| other in owes && op == MadeFor(source, other);
    SameFileOwed(pile, op, source, owe, other);
    MadeForPicture(pile, source, other);
  }

  lemma PictureIsOwed(pile: Rows, owes: seq<Owe>) returns (owe: Owe)
    requires HasPicture(pile)
    requires forall id :: id in pile.files && id in pile.bytes && HeldIsCurrent(pile.files[id], pile.bytes[id]) ==>
               SendFile(id, pile.files[id].path) in owes
    ensures owe in owes && owe.SendFile? && owe.path !in pile.folders && owe.id in pile.files && owe.path == pile.files[owe.id].path
  {
    hide HeldIsCurrent;
    var id :| id in pile.files && id in pile.bytes && HeldIsCurrent(pile.files[id], pile.bytes[id])
              && pile.files[id].path !in pile.folders;
    owe := SendFile(id, pile.files[id].path);
  }

  lemma IsOfSource(op: Op, source: Source, owe: Owe)
    requires IsOwedBy(op, source, owe)
    ensures op.source == source
  {}

  lemma SameFileOwed(pile: Rows, op: Op, source: Source, owe: Owe, other: Owe)
    requires owe.SendFile? && owe.id in pile.files && owe.path == pile.files[owe.id].path && IsOwedBy(op, source, owe)
    requires op == MadeFor(source, other) && IsOwedOfPile(pile, other)
    ensures other == owe
  {
    hide HeldIsCurrent;
  }
}
