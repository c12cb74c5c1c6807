/**
  What a move of rows does for the text and for the queue: every note that goes is under
  the target with its text, and after a resume the queue names the rows that are there.
 */
module MoveQueue {
  import opened Options
  import opened Paths
  import opened Naming
  import opened Library
  import opened MoveNotes
  import opened MoveSpellings
  import opened MoveFiles
  import opened MoveRows
  import opened MoveKeeps
  import opened MoveClash
  import opened MoveForetold

  // ----- Text --------------------------------------------------------------------------

  /** The row under the target that is this note: its own text and times, under a key nothing had. */
  ghost predicate IsCarried(before: Rows, after: Rows, note: Note, to: Id) {
    && to !in before.notes && to in after.notes
    && after.notes[to].body == note.body && after.notes[to].deleted == note.deleted
    && after.notes[to].createdAt == note.createdAt && after.notes[to].updatedAt == note.updatedAt
    && (IsUnsent(note) ==> IsUnsent(after.notes[to]))
  }

  /** A note that goes is under the target, as itself. */
  lemma NoteArrives(t: Tables, m: Move, p: Plan, id: Id)
    requires CanMove(t, m, p) && id in RowsOf(t, m.from).notes && Goes(MovingOf(t, m, p), id)
    ensures id in p.noteIds
    ensures IsCarried(RowsOf(t, m.target), Arrived(t, m, p), RowsOf(t, m.from).notes[id], p.noteIds[id])
    ensures m.mode == Copy ==> Arrived(t, m, p).notes[p.noteIds[id]].dirty
  {
    NotesArePlaced(t, m, p);
    hide ValidPlan, Place, Shelve, Carry, Goes, PlacedInNotebooks, SpellingsGrow, Faithful, WellFormed, LandsRight,
      RowAt, FoldPath, ParentPath;
    var c, g := MovingOf(t, m, p), Place(t, m, p);
    assert id in c.notes.Keys && Goes(c, id);
    assert id in g.placed;
    assert PlacedRight(c, g, id);
    RowIsPinnedOrNew(c, id, g.notes[p.noteIds[id]].path);
  }

  /** A note copied is new to the target: no file, no version, dirty, and owed. */
  lemma CopiedIsOwed(t: Tables, m: Move, p: Plan, id: Id)
    requires CanMove(t, m, p) && m.mode == Copy && id in RowsOf(t, m.from).notes && Goes(MovingOf(t, m, p), id)
    ensures id in p.noteIds && p.noteIds[id] in Arrived(t, m, p).notes
    ensures var row := Arrived(t, m, p).notes[p.noteIds[id]];
            row.remoteId.None? && row.remoteVersion.None? && row.dirty && IsLive(row)
    ensures p.noteIds[id] in MoveRowsTo(t, m, p).owed.notes
  {
    NotesArePlaced(t, m, p);
    hide ValidPlan, Place, Shelve, Carry, Goes, PlacedInNotebooks, SpellingsGrow, Faithful, WellFormed, LandedSoFar,
      ValidMoving, CarryOps, IsLinked;
    LandedCopyIsOwed(MovingOf(t, m, p), Place(t, m, p), id);
  }

  lemma LandedCopyIsOwed(c: Moving, g: Landed, id: Id)
    requires ValidMoving(c) && LandedSoFar(c, g, c.notes.Keys) && id in c.notes && Goes(c, id) && c.mode == Copy
    ensures id in c.landing && c.landing[id] in g.notes && c.landing[id] in g.owed
    ensures var row := g.notes[c.landing[id]]; row.remoteId.None? && row.remoteVersion.None? && row.dirty && IsLive(row)
  {
    assert id in c.notes.Keys && id in g.placed;
    assert PlacedRight(c, g, id);
    hide FoldPath, ParentPath, Faithful, LandsRight, ValidMoving, LandedSoFar;
    RowIsPinnedOrNew(c, id, g.notes[c.landing[id]].path);
  }

  /**
    What a moved row serializes to is what it did before it moved. A conflict copy
    serializes to a file of its own, under its new id.
   */
  lemma FileIsPinned(t: Tables, m: Move, p: Plan, id: Id)
    requires CanMove(t, m, p) && id in RowsOf(t, m.from).notes && Goes(MovingOf(t, m, p), id)
    ensures id in p.noteIds && p.noteIds[id] in Arrived(t, m, p).notes
    ensures var note, row := RowsOf(t, m.from).notes[id], Arrived(t, m, p).notes[p.noteIds[id]];
            NoteFile(p.noteIds[id], row) ==
              if HasTwin(MovingOf(t, m, p), id) && IsLive(note)
              then FileText(p.noteIds[id], row.path, note.body, note.createdAt, note.updatedAt)
              else NoteFile(id, note)
  {
    NotesArePlaced(t, m, p);
    hide ValidPlan, Place, Shelve, Carry, Goes, PlacedInNotebooks, SpellingsGrow, Faithful, WellFormed, LandedSoFar,
      ValidMoving, NoteFile;
    LandedIsPinned(MovingOf(t, m, p), Place(t, m, p), id);
  }

  lemma LandedIsPinned(c: Moving, g: Landed, id: Id)
    requires ValidMoving(c) && LandedSoFar(c, g, c.notes.Keys) && id in c.notes && Goes(c, id)
    ensures id in c.landing && c.landing[id] in g.notes
    ensures IsPinned(c, id, g.notes[c.landing[id]])
  {
    hide Faithful, Goes, LandsRight, ValidMoving, CarriedAs, OwedAt, NoteFile;
    assert id in c.notes.Keys && id in g.placed;
    assert PlacedRight(c, g, id);
    CarriedIsPinned(c, id, g.notes[c.landing[id]]);
  }

  predicate IsPinned(c: Moving, id: Id, row: Note)
    requires id in c.notes && id in c.landing
  {
    var note := c.notes[id];
    NoteFile(c.landing[id], row) ==
      if HasTwin(c, id) && IsLive(note) then FileText(c.landing[id], row.path, note.body, note.createdAt, note.updatedAt)
      else NoteFile(id, note)
  }

  lemma CarriedIsPinned(c: Moving, id: Id, row: Note)
    requires id in c.notes && id in c.landing && CarriedAs(c, id, row)
    ensures IsPinned(c, id, row)
  {
    hide FoldPath, ParentPath, HasTwin;
  }

  /**
    No text the remote was never sent is lost to a move: the note is under the target, or
    is one the move is not about and stays as it was.
   */
  lemma UnsentFollows(t: Tables, m: Move, p: Plan, id: Id)
    requires CanMove(t, m, p) && id in RowsOf(t, m.from).notes && IsUnsent(RowsOf(t, m.from).notes[id])
    ensures var u, note := MoveRowsTo(t, m, p).tables, RowsOf(t, m.from).notes[id];
            if id in NotesTaken(m, RowsOf(t, m.from)) then
              && id in p.noteIds
              && IsCarried(RowsOf(t, m.target), RowsOf(u, m.target), note, p.noteIds[id])
            else
              id in RowsOf(u, m.from).notes && RowsOf(u, m.from).notes[id] == note
  {
    hide ValidPlan, Place, Shelve, Carry, CarryOps, IsLinked, WellFormed, Arrived, MoveRowsTo, IsCarried;
    MoveUnfolds(t, m, p);
    if id in NotesTaken(m, RowsOf(t, m.from)) {
      NoteArrives(t, m, p, id);
    }
  }

  /** No two notes land as one. */
  lemma LandingsDiffer(t: Tables, m: Move, p: Plan, i: Id, j: Id)
    requires CanMove(t, m, p) && i in RowsOf(t, m.from).notes && j in RowsOf(t, m.from).notes && i != j
    requires Goes(MovingOf(t, m, p), i) && Goes(MovingOf(t, m, p), j)
    ensures i in p.noteIds && j in p.noteIds && p.noteIds[i] != p.noteIds[j]
  {
    PlanIsValid(t, m, p);
    GoesDoesNotYield(MovingOf(t, m, p), i);
    GoesDoesNotYield(MovingOf(t, m, p), j);
    hide ValidPlan, Goes, LandsRight, Yields, Enumerates, ValidCarrying, AtTells;
  }

  /**
    Moved notes are in their notebooks as the target's rows spell them: as one of them does
    where several rows are one directory, and as the only one does where none are.
   */
  lemma MovedNotesAreSpelled(t: Tables, m: Move, p: Plan, id: Id, folder: string)
    requires CanMove(t, m, p) && id in RowsOf(t, m.from).notes && IsLive(RowsOf(t, m.from).notes[id])
    requires Goes(MovingOf(t, m, p), id) && folder in Arrived(t, m, p).folders
    ensures id in p.noteIds && p.noteIds[id] in Arrived(t, m, p).notes
    ensures var path := Arrived(t, m, p).notes[p.noteIds[id]].path;
            FoldPath(folder) == FoldPath(ParentPath(path)) ==>
              && ParentPath(path) in Arrived(t, m, p).folders
              && (DistinctFolders(RowsOf(t, m.target).folders) ==> folder == ParentPath(path))
  {
    NotesArePlaced(t, m, p);
    FoldersAreShelved(t, m, p);
    hide ValidPlan, Place, Shelve, Carry, Goes, WellFormed, FoldPath, ParentPath, ValidMoving, Faithful,
      NormalSpellings, CarriedAs, OwedAt, InItsNotebook, IsNormal, SpelledByRows, SpellingsGrow, DistinctFolders;
    var c, g, shelves := MovingOf(t, m, p), Place(t, m, p), Shelve(t, m, p);
    assert id in c.notes.Keys && id in g.placed;
    assert PlacedRight(c, g, id);
    var path := g.notes[p.noteIds[id]].path;
    StillSpelled(shelves.folders, shelves.spellings, g.spellings);
    assert IsNormal(folder) && folder != ROOT;
    if FoldPath(folder) == FoldPath(ParentPath(path)) {
      OneSpellingANotebook(shelves.folders, g.spellings, path, folder);
    }
  }

  lemma StillSpelled(folders: map<string, Folder>, before: Spellings, after: Spellings)
    requires SpelledByRows(folders, before) && SpellingsGrow(before, after)
    ensures SpelledByRows(folders, after)
  {
    hide FoldPath;
  }

  /**
    A move leaves no two live notes of the target at one path exactly when none were and,
    of the rows as they are beforehand, no conflict copy would be beside its own path at
    one that is claimed. A copy makes none.
   */
  lemma MoveKeepsPathsIff(t: Tables, m: Move, p: Plan)
    requires CanMove(t, m, p)
    ensures forall id :: id in p.notes ==> id in RowsOf(t, m.from).notes
    ensures DistinctPaths(Arrived(t, m, p).notes) <==>
              && DistinctPaths(RowsOf(t, m.target).notes)
              && CopiesAreFree(MovingOf(t, m, p), LivePaths(RowsOf(t, m.target).notes), p.notes)
    ensures m.mode == Copy ==> CopiesAreFree(MovingOf(t, m, p), LivePaths(RowsOf(t, m.target).notes), p.notes)
  {
    PlanIsValid(t, m, p);
    FoldersAreShelved(t, m, p);
    hide ValidPlan, Shelve, Carry, WellFormed, LandsRight, Faithful, NormalSpellings, CopiesAreFree, PlaceNotes,
      DistinctPaths, Goes, ValidMoving, LandedSoFar, LivePaths, AreFolded;
    var c := MovingOf(t, m, p);
    PathsStayDistinctForetold(c, Shelve(t, m, p).spellings, p.notes);
    if m.mode == Copy {
      LivePathsAreFolded(c.theirs);
      TopCopiesAreFree(c, LivePaths(c.theirs), p.notes);
    }
  }

  // ----- The queue ---------------------------------------------------------------------

  /** Every op of a source that is about a note or a file is about one that is there. */
  ghost predicate OpsNameRows(t: Tables, source: Source) {
    forall op :: op in t.ops && op.source == source ==>
      && (op.noteId.Some? ==> op.noteId.value in RowsOf(t, source).notes)
      && (op.fileId.Some? ==> op.fileId.value in RowsOf(t, source).files)
  }

  lemma {:induction false} CarriedFrom(w: Whereto, ops: seq<Op>, op: Op)
    requires op in CarryOps(w, ops)
    ensures exists was :: was in ops && op in CarryOp(w, was)
    decreases |ops|
  {
    hide CarryOp;
    var front, last := ops[..|ops| - 1], ops[|ops| - 1];
    if op in CarryOp(w, last) {
      assert last in ops;
    } else {
      CarriedFrom(w, front, op);
      var was :| was in front && op in CarryOp(w, was);
      assert was in ops;
    }
  }

  lemma {:induction false} CarriedInto(w: Whereto, ops: seq<Op>, was: Op, op: Op)
    requires was in ops && op in CarryOp(w, was)
    ensures op in CarryOps(w, ops)
    decreases |ops|
  {
    hide CarryOp;
    var front, last := ops[..|ops| - 1], ops[|ops| - 1];
    if was != last {
      assert ops == front + [last];
      assert was in front;
      CarriedInto(w, front, was, op);
    }
  }

  /** A row of the target that came with the move, is not owed anew, and is no row of the target's own. */
  ghost predicate NamesCarried(t: Tables, m: Move, p: Plan, op: Op)
    requires CanMove(t, m, p)
  {
    && (op.noteId.Some? ==> op.noteId.value in Arrived(t, m, p).notes && op.noteId.value !in RowsOf(t, m.target).notes
                            && op.noteId.value !in Place(t, m, p).owed)
    && (op.fileId.Some? ==> op.fileId.value in Arrived(t, m, p).files && op.fileId.value !in RowsOf(t, m.target).files
                            && op.fileId.value !in Carry(t, m, p).owed)
  }

  lemma CarriedNoteIsThere(t: Tables, m: Move, p: Plan, id: Id)
    requires CanMove(t, m, p) && m.mode == Resume && m.only == Everything && id in RowsOf(t, m.from).notes
    requires id !in YieldedBy(MovingOf(t, m, p))
    ensures id in p.noteIds && p.noteIds[id] in Arrived(t, m, p).notes && p.noteIds[id] !in RowsOf(t, m.target).notes
  {
    PlanIsValid(t, m, p);
    assert Goes(MovingOf(t, m, p), id);
    NoteArrives(t, m, p, id);
  }

  lemma CarriedFileIsThere(t: Tables, m: Move, p: Plan, id: Id)
    requires CanMove(t, m, p) && id in AsTheyWere(Carry(t, m, p))
    ensures var to := AsTheyWere(Carry(t, m, p))[id];
            to in Arrived(t, m, p).files && to !in RowsOf(t, m.target).files && to !in Carry(t, m, p).owed
  {
    FilesArePlaced(t, m, p);
    hide ValidPlan, Place, Shelve, Carry, WellFormed, ValidCarrying, DistinctFiles, IsSendable, FoldPath;
    assert FiledAs(CarryingOf(t, m, p), Carry(t, m, p), id);
  }

  /**
    After a resume, an op of the target's is one it had, or one carried to a row that came
    with it: never one of a note that yielded, or of a note or a file owed anew.
   */
  lemma CarriedOpsNameRows(t: Tables, m: Move, p: Plan, op: Op)
    requires CanMove(t, m, p) && m.mode == Resume && m.only == Everything
    requires OpsNameRows(t, m.from) && op in MoveRowsTo(t, m, p).tables.ops && op.source == m.target
    ensures op in t.ops || NamesCarried(t, m, p, op)
  {
    MoveUnfolds(t, m, p);
    var w := WhereOf(t, m, p);
    CarriedFrom(w, t.ops, op);
    var was :| was in t.ops && op in CarryOp(w, was);
    hide ValidPlan, Place, Shelve, Carry, WellFormed, CarryOps, Arrived, YieldedBy, AsTheyWere, IsLinked, MoveRowsTo;
    if Leaves(w, was) && !Dropped(w, was) {
      assert op == Carried(w, was);
      if was.noteId.Some? {
        CarriedNoteIsThere(t, m, p, was.noteId.value);
      }
      if was.fileId.Some? {
        CarriedFileIsThere(t, m, p, was.fileId.value);
      }
    }
  }

  /** Nothing of a source that has gone whole is queued under it. */
  lemma {:induction false} NothingIsLeftQueued(w: Whereto, ops: seq<Op>)
    requires w.m.only == Everything && !w.m.keep && w.m.from != w.m.target
    ensures OpsOf(CarryOps(w, ops), w.m.from) == []
    decreases |ops|
  {
    hide OpsOf, Dropped;
    OpsOfNothing(w.m.from);
    if ops != [] {
      NothingIsLeftQueued(w, ops[..|ops| - 1]);
      var op := ops[|ops| - 1];
      OpsOfConcat(CarryOps(w, ops[..|ops| - 1]), CarryOp(w, op), w.m.from);
      OpsOfOne(op, w.m.from);
      OpsOfOne(Carried(w, op), w.m.from);
    }
  }

  /** What is queued for a note that is carried as it was goes with it. */
  lemma QueuedFollows(w: Whereto, ops: seq<Op>, id: Id)
    requires id in QueuedFor(ops, w.m.from) && w.m.mode == Resume && w.m.only == Everything
    requires IdNow(w, id) !in w.owed && id !in w.yielded
    requires forall op :: op in ops && op.source == w.m.from && op.noteId.Some? ==> op.fileId.None?
    ensures exists op :: op in CarryOps(w, ops) && op.source == w.m.target && op.noteId == Some(IdNow(w, id))
  {
    var i :| 0 <= i < |ops| && ops[i].source == w.m.from && ops[i].noteId.Some? && ops[i].noteId.value == id;
    assert ops[i] in ops && CarryOp(w, ops[i]) == [Carried(w, ops[i])];
    CarriedInto(w, ops, ops[i], Carried(w, ops[i]));
  }

  /** A row placed that names no file and is not owed is one the queue says something about. */
  lemma NotOwedIsQueued(t: Tables, m: Move, p: Plan, id: Id)
    requires CanMove(t, m, p) && m.mode == Resume
    requires id in RowsOf(t, m.from).notes && IsLive(RowsOf(t, m.from).notes[id]) && Goes(MovingOf(t, m, p), id)
    ensures id in p.noteIds && p.noteIds[id] in Place(t, m, p).notes
    ensures || Place(t, m, p).notes[p.noteIds[id]].remoteId.Some?
            || p.noteIds[id] in Place(t, m, p).owed
            || id in QueuedFor(t.ops, m.from)
  {
    NotesArePlaced(t, m, p);
    hide ValidPlan, Place, Shelve, WellFormed, PlacedInNotebooks, SpellingsGrow, ValidMoving, Faithful, Goes,
      QueuedFor, LandedSoFar;
    LandedNotOwed(MovingOf(t, m, p), Place(t, m, p), id);
  }

  lemma LandedNotOwed(c: Moving, g: Landed, id: Id)
    requires ValidMoving(c) && LandedSoFar(c, g, c.notes.Keys) && id in c.notes && IsLive(c.notes[id]) && Goes(c, id)
    ensures id in c.landing && c.landing[id] in g.notes
    ensures g.notes[c.landing[id]].remoteId.Some? || c.landing[id] in g.owed || id in c.queuedFor
  {
    hide FoldPath, ParentPath, Faithful, Goes, CarriedAs, OwedAt, LandsRight, ValidMoving;
    assert id in c.notes.Keys && id in g.placed;
    assert PlacedRight(c, g, id);
    PlacedNotOwed(c, g, id);
  }

  lemma PlacedNotOwed(c: Moving, g: Landed, id: Id)
    requires id in g.placed && PlacedRight(c, g, id) && IsLive(c.notes[id])
    ensures g.notes[g.placed[id]].remoteId.Some? || g.placed[id] in g.owed || id in c.queuedFor
  {
    hide FoldPath, ParentPath;
  }

  /** No note is stranded: it has a file, something queued, or is owed. */
  lemma NothingIsStranded(t: Tables, m: Move, p: Plan, id: Id)
    requires CanMove(t, m, p) && m.mode == Resume && m.only == Everything
    requires forall op :: op in t.ops && op.source == m.from && op.noteId.Some? ==> op.fileId.None?
    requires id in RowsOf(t, m.from).notes && IsLive(RowsOf(t, m.from).notes[id]) && Goes(MovingOf(t, m, p), id)
    ensures id in p.noteIds && p.noteIds[id] in Arrived(t, m, p).notes
    ensures var to := p.noteIds[id];
            || Arrived(t, m, p).notes[to].remoteId.Some?
            || to in MoveRowsTo(t, m, p).owed.notes
            || exists op :: op in MoveRowsTo(t, m, p).tables.ops && op.source == m.target && op.noteId == Some(to)
  {
    MoveUnfolds(t, m, p);
    NotOwedIsQueued(t, m, p, id);
    GoesDoesNotYield(MovingOf(t, m, p), id);
    hide ValidPlan, Place, Shelve, Carry, WellFormed, CarryOps, IsLinked, MoveRowsTo, Goes, Yields, AsTheyWere;
    if p.noteIds[id] !in Place(t, m, p).owed && id in QueuedFor(t.ops, m.from) {
      QueuedFollows(WhereOf(t, m, p), t.ops, id);
    }
  }
}
