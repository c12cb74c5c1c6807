/**
  What becomes of each row of a move, said of the rows before and after: which notes go and
  under what ids, what a row that came is beside the one that left, what is owed, which
  notebooks are made, which files are as they were (`moveRowsTo` and `placeFiles` in
  apps/web/src/store/connection.ts).
 */
module MoveOutcomes {
  import opened Options
  import opened Paths
  import opened Naming
  import opened Library
  import opened MoveNotes
  import opened MoveSpellings
  import opened MoveFiles
  import opened MoveRows
  import opened MoveKeeps
  import opened MoveQueue

  // ----- Which notes go ----------------------------------------------------------------

  predicate IsTaken(only: Only, id: Id) {
    only.Everything? || id in only.notes
  }

  /** In a resume, a row of the target names the very file this note does. */
  ghost predicate MeetsItself(m: Move, theirs: Rows, note: Note) {
    m.mode == Resume && note.remoteId.Some? && exists k :: k in theirs.notes && theirs.notes[k].remoteId == note.remoteId
  }

  /**
    A note goes when it is taken, unless it is a tombstone that is copied, or the target has
    that very file and there is nothing here it has not.
   */
  ghost predicate Arrives(t: Tables, m: Move, id: Id)
    requires id in RowsOf(t, m.from).notes
  {
    var note := RowsOf(t, m.from).notes[id];
    && IsTaken(m.only, id)
    && !(note.deleted && m.mode == Copy)
    && !(MeetsItself(m, RowsOf(t, m.target), note) && (note.deleted || !note.dirty))
  }

  lemma TwinIsMet(t: Tables, m: Move, p: Plan, id: Id)
    requires ValidMoving(MovingOf(t, m, p)) && id in RowsOf(t, m.from).notes
    ensures HasTwin(MovingOf(t, m, p), id) <==> MeetsItself(m, RowsOf(t, m.target), RowsOf(t, m.from).notes[id])
  {
    hide LandsRight, Goes, Yields;
    var note, theirs := RowsOf(t, m.from).notes[id], RowsOf(t, m.target);
    if HasTwin(MovingOf(t, m, p), id) {
      assert theirs.notes[p.twins[note.remoteId.value]].remoteId == note.remoteId;
    }
  }

  lemma GoesIffArrives(t: Tables, m: Move, p: Plan, id: Id)
    requires CanMove(t, m, p) && id in RowsOf(t, m.from).notes
    ensures Goes(MovingOf(t, m, p), id) <==> Arrives(t, m, id)
  {
    PlanIsValid(t, m, p);
    TwinIsMet(t, m, p, id);
    hide ValidPlan, WellFormed, ValidMoving, ValidCarrying, HasTwin, MeetsItself, Enumerates, AtTells;
  }

  /** The rows that come are those of the notes that go, and no others, each under an id of its own that nothing had. */
  lemma NotesThatCome(t: Tables, m: Move, p: Plan)
    requires CanMove(t, m, p)
    ensures forall id :: id in RowsOf(t, m.from).notes ==> id in p.noteIds
    ensures var from, theirs, after := RowsOf(t, m.from), RowsOf(t, m.target), RowsOf(MoveRowsTo(t, m, p).tables, m.target);
            && (forall k :: k in after.notes <==>
                  k in theirs.notes || exists id :: id in from.notes && Arrives(t, m, id) && p.noteIds[id] == k)
            && (forall id :: id in from.notes && Arrives(t, m, id) ==> p.noteIds[id] !in theirs.notes)
            && (forall i, j :: i in from.notes && j in from.notes && Arrives(t, m, i) && Arrives(t, m, j) && i != j ==>
                  p.noteIds[i] != p.noteIds[j])
  {
    NotesArePlaced(t, m, p);
    MoveUnfolds(t, m, p);
    PlanIsValid(t, m, p);
    hide ValidPlan, WellFormed, Place, Shelve, Carry, PlacedInNotebooks, SpellingsGrow, Faithful, LandsRight, MoveRowsTo, Goes,
      Arrives;
    var c, g, from, theirs := MovingOf(t, m, p), Place(t, m, p), RowsOf(t, m.from), RowsOf(t, m.target);
    forall id | id in from.notes
      ensures Goes(c, id) <==> Arrives(t, m, id)
    {
      GoesIffArrives(t, m, p, id);
    }
    KeysThatLand(c, g);
    forall i, j | i in from.notes && j in from.notes && Arrives(t, m, i) && Arrives(t, m, j) && i != j
      ensures p.noteIds[i] != p.noteIds[j]
    {
      GoesDoesNotYield(c, i);
      GoesDoesNotYield(c, j);
    }
  }

  lemma KeysThatLand(c: Moving, g: Landed)
    requires ValidMoving(c) && LandedSoFar(c, g, c.notes.Keys)
    ensures forall k :: k in g.notes <==> k in c.theirs || exists id :: id in c.notes && Goes(c, id) && c.landing[id] == k
    ensures forall id :: id in c.notes && Goes(c, id) ==> c.landing[id] !in c.theirs
  {
    hide Goes, LandsRight, CarriedAs, OwedAt, Faithful, ValidMoving;
    assert ValidMoving(c) ==> c.landing.Keys == c.notes.Keys by { MoveIsTotal(c); }
    forall k | k in g.notes && k !in c.theirs
      ensures exists id :: id in c.notes && Goes(c, id) && c.landing[id] == k
    {
      assert k in g.placed.Values;
      var id :| id in g.placed && g.placed[id] == k;
      assert PlacedRight(c, g, id);
    }
    forall id | id in c.notes && Goes(c, id)
      ensures c.landing[id] in g.notes && c.landing[id] !in c.theirs
    {
      assert id in c.notes.Keys && id in g.placed;
      assert PlacedRight(c, g, id);
    }
  }

  lemma MoveIsTotal(c: Moving)
    requires ValidMoving(c)
    ensures c.landing.Keys == c.notes.Keys
  {}

  /** It keeps the id it has, unless the target has a row of that id or of that very file. */
  lemma IdIsKept(t: Tables, m: Move, p: Plan, id: Id)
    requires CanMove(t, m, p) && id in RowsOf(t, m.from).notes && Arrives(t, m, id)
    ensures id in p.noteIds
    ensures var from, theirs := RowsOf(t, m.from), RowsOf(t, m.target);
            p.noteIds[id] == id <==> id !in theirs.notes && !MeetsItself(m, theirs, from.notes[id])
  {
    GoesIffArrives(t, m, p, id);
    PlanIsValid(t, m, p);
    TwinIsMet(t, m, p, id);
    hide ValidPlan, WellFormed, ValidCarrying, HasTwin, MeetsItself, Enumerates, AtTells, Arrives, MovingOf;
    assert MovingOf(t, m, p).landing == p.noteIds && MovingOf(t, m, p).theirs == RowsOf(t, m.target).notes;
    assert LandsRight(MovingOf(t, m, p), id);
  }

  // ----- What a row that came is -------------------------------------------------------

  /**
    The row beside the one that left. A tombstone, and a note resumed at the path it had, is
    that row with its file pinned. A copy of a note the target has is a note of its own, of
    this text, never sent. Anything else has its text and the file it had, and names nothing.
   */
  ghost predicate IsRowOf(t: Tables, m: Move, id: Id, to: Id, row: Note)
    requires id in RowsOf(t, m.from).notes
  {
    var note := RowsOf(t, m.from).notes[id];
    var pinned := note.(source := Some(NoteFile(id, note)));
    if note.deleted then row == pinned
    else if MeetsItself(m, RowsOf(t, m.target), note) then
      row == Note(row.path, note.body, None, None, Some(FileText(to, row.path, note.body, note.createdAt, note.updatedAt)),
                  true, false, note.createdAt, note.updatedAt)
    else if m.mode == Resume && row.path == note.path then row == pinned
    else row == pinned.(path := row.path, remoteId := None, remoteVersion := None, dirty := true)
  }

  /** Something queued for the source is about the note. */
  ghost predicate HasQueued(ops: seq<Op>, source: Source, id: Id) {
    exists op :: op in ops && op.source == source && op.noteId == Some(id)
  }

  /** Every row that comes is that, and a write of it is owed unless it has its file, or something queued, from before. */
  lemma RowsThatCome(t: Tables, m: Move, p: Plan, id: Id)
    requires CanMove(t, m, p) && id in RowsOf(t, m.from).notes && Arrives(t, m, id)
    ensures id in p.noteIds
    ensures var moved, note := MoveRowsTo(t, m, p), RowsOf(t, m.from).notes[id];
            var after, to := RowsOf(moved.tables, m.target), p.noteIds[id];
            && to in after.notes && IsRowOf(t, m, id, to, after.notes[to])
            && (to in moved.owed.notes <==>
                  && IsLive(note)
                  && (|| m.mode == Copy || MeetsItself(m, RowsOf(t, m.target), note) || after.notes[to].path != note.path
                      || (note.remoteId.None? && !HasQueued(t.ops, m.from, id))))
  {
    NotesArePlaced(t, m, p);
    MoveUnfolds(t, m, p);
    PlanIsValid(t, m, p);
    TwinIsMet(t, m, p, id);
    GoesIffArrives(t, m, p, id);
    hide ValidPlan, WellFormed, Place, Shelve, Carry, PlacedInNotebooks, SpellingsGrow, Faithful, MoveRowsTo, Goes,
      Arrives, MeetsItself, ValidMoving, HasTwin;
    var c, g := MovingOf(t, m, p), Place(t, m, p);
    assert id in c.notes.Keys && id in g.placed;
    assert PlacedRight(c, g, id);
    QueuedIs(t.ops, m.from, id);
    hide QueuedFor, HasQueued;
    RowIsThat(t, m, p, id, g.notes[g.placed[id]]);
  }

  lemma QueuedIs(ops: seq<Op>, source: Source, id: Id)
    ensures id in QueuedFor(ops, source) <==> HasQueued(ops, source, id)
  {
    if HasQueued(ops, source, id) {
      var op :| op in ops && op.source == source && op.noteId == Some(id);
      var i :| 0 <= i < |ops| && ops[i] == op;
    }
  }

  lemma RowIsThat(t: Tables, m: Move, p: Plan, id: Id, row: Note)
    requires id in RowsOf(t, m.from).notes && id in p.noteIds && Goes(MovingOf(t, m, p), id)
    requires CarriedAs(MovingOf(t, m, p), id, row)
    requires HasTwin(MovingOf(t, m, p), id) <==> MeetsItself(m, RowsOf(t, m.target), RowsOf(t, m.from).notes[id])
    ensures IsRowOf(t, m, id, p.noteIds[id], row)
  {
    hide HasTwin, MeetsItself, Goes, NoteFile, FoldPath;
    if HasTwin(MovingOf(t, m, p), id) && IsLive(RowsOf(t, m.from).notes[id]) {
      CopyIsNew(p.noteIds[id], RowsOf(t, m.from).notes[id], row.path);
    }
  }

  lemma CopyIsNew(to: Id, note: Note, path: string)
    ensures ConflictCopy(to, note, path) ==
              note.(path := path, remoteId := None, remoteVersion := None, dirty := true,
                    source := Some(FileText(to, path, note.body, note.createdAt, note.updatedAt)))
  {}

  // ----- Notebooks and files -----------------------------------------------------------

  /**
    A notebook that comes is one of those taken, in some spelling, with its date; it names
    what it named where a resume left its path as it was, and else nothing; and it is to be
    made exactly when it names nothing.
   */
  lemma NotebooksThatCome(t: Tables, m: Move, p: Plan, path: string)
    requires CanMove(t, m, p)
    requires path in RowsOf(MoveRowsTo(t, m, p).tables, m.target).folders && path !in RowsOf(t, m.target).folders
    ensures var row, from := RowsOf(MoveRowsTo(t, m, p).tables, m.target).folders[path], RowsOf(t, m.from).folders;
            && (exists was :: was in FoldersTaken(m, RowsOf(t, m.from)) && FoldPath(was) == FoldPath(path)
                              && IsFolderOf(m.mode, was, from[was], path, row))
            && (path in MoveRowsTo(t, m, p).owed.folders <==> row.remoteId.None?)
  {
    MoveUnfolds(t, m, p);
    FoldersAreTaken(t, m, p);
    SpellingsOfTarget(t, m, p);
    hide ValidPlan, WellFormed, Place, Carry, IsFolderOf, NormalSpellings;
    var none := Shelves(RowsOf(t, m.target).folders, SpellingsFrom(p.spelled), {});
    hide SpellingsFrom;
    PlacedFrom(m.mode, none, RowsOf(t, m.from).folders, p.folders, path);
    hide MoveRowsTo, Shelved;
    assert OwedFolders(t, m, p) == Shelve(t, m, p).owed by { OwedAreShelved(t, m, p); }
    var was :| was in p.folders && FoldPath(was) == FoldPath(path)
               && IsFolderOf(m.mode, was, RowsOf(t, m.from).folders[was], path, Shelve(t, m, p).folders[path]);
    OrderIsTaken(t, m, p, was);
  }

  function OwedFolders(t: Tables, m: Move, p: Plan): set<string>
    requires CanMove(t, m, p)
  {
    MoveRowsTo(t, m, p).owed.folders
  }

  lemma OwedAreShelved(t: Tables, m: Move, p: Plan)
    requires CanMove(t, m, p)
    ensures OwedFolders(t, m, p) == Shelve(t, m, p).owed
  {
    hide ValidPlan, WellFormed, Place, Shelve, Carry, CarryOps, IsLinked, WhereOf;
  }

  lemma OrderIsTaken(t: Tables, m: Move, p: Plan, path: string)
    requires CanMove(t, m, p) && path in p.folders
    ensures path in FoldersTaken(m, RowsOf(t, m.from))
  {
    hide ValidMoving, ValidCarrying, AtTells, WellFormed;
  }

  predicate IsFolderOf(mode: Mode, was: string, before: Folder, path: string, row: Folder) {
    row == Folder(if mode == Resume && path == was then before.remoteId else None, before.createdAt)
  }

  lemma {:induction false} PlacedFrom(mode: Mode, g: Shelves, rows: map<string, Folder>, order: seq<string>, path: string)
    requires Shelved(g) && forall each :: each in order ==> each in rows && each != ROOT
    requires path in PlaceFolders(mode, g, rows, order).folders && path !in g.folders
    ensures var h := PlaceFolders(mode, g, rows, order);
            && (exists was :: was in order && FoldPath(was) == FoldPath(path)
                              && IsFolderOf(mode, was, rows[was], path, h.folders[path]))
            && (path in h.owed <==> h.folders[path].remoteId.None?)
    decreases |order|
  {
    hide FoldPath, Shelved, PlaceFolder;
    var was := order[0];
    var next := PlaceFolder(mode, g, was, rows[was]);
    assert was in order && forall each :: each in order[1..] ==> each in order;
    PlaceFolderKeeps(mode, g, was, rows[was]);
    if path in next.folders {
      PlacedOne(mode, g, was, rows[was], path);
      PlacedStand(mode, next, rows, order[1..], path);
    } else {
      PlacedFrom(mode, next, rows, order[1..], path);
      var each :| each in order[1..] && FoldPath(each) == FoldPath(path)
                  && IsFolderOf(mode, each, rows[each], path, PlaceFolders(mode, g, rows, order).folders[path]);
      assert each in order;
    }
  }

  lemma PlacedOne(mode: Mode, g: Shelves, was: string, row: Folder, path: string)
    requires Shelved(g) && path in PlaceFolder(mode, g, was, row).folders && path !in g.folders
    ensures FoldPath(was) == FoldPath(path) && IsFolderOf(mode, was, row, path, PlaceFolder(mode, g, was, row).folders[path])
    ensures path in PlaceFolder(mode, g, was, row).owed <==> PlaceFolder(mode, g, was, row).folders[path].remoteId.None?
  {
    hide FoldPath, Respell;
    RespellIsFaithful(g.spellings, was);
  }

  lemma {:induction false} PlacedStand(mode: Mode, g: Shelves, rows: map<string, Folder>, order: seq<string>, path: string)
    requires Shelved(g) && (forall each :: each in order ==> each in rows && each != ROOT) && path in g.folders
    ensures path in PlaceFolders(mode, g, rows, order).folders
    ensures PlaceFolders(mode, g, rows, order).folders[path] == g.folders[path]
    ensures path in PlaceFolders(mode, g, rows, order).owed <==> path in g.owed
    decreases |order|
  {
    hide FoldPath, PlaceFolder, Shelved;
    if order != [] {
      assert order[0] in order && forall each :: each in order[1..] ==> each in order;
      PlaceFolderKeeps(mode, g, order[0], rows[order[0]]);
      OwedStays(mode, g, order[0], rows[order[0]], path);
      PlacedStand(mode, PlaceFolder(mode, g, order[0], rows[order[0]]), rows, order[1..], path);
    }
  }

  lemma OwedStays(mode: Mode, g: Shelves, was: string, row: Folder, path: string)
    requires Shelved(g) && was != ROOT && path in g.folders
    ensures path in PlaceFolder(mode, g, was, row).owed <==> path in g.owed
  {
    hide FoldPath, Respell;
    RespellIsFaithful(g.spellings, was);
  }

  /**
    A file that came, beside the one that left: as it was, with whatever bytes it had, where a
    resume left it at its path; otherwise pending, at its path or one beside it, pinned to bytes
    this device had.
   */
  ghost predicate IsFileOf(mode: Mode, id: Id, from: Rows, to: Id, after: Rows, owed: set<Id>)
    requires id in from.files && to in after.files
  {
    var file, row := from.files[id], after.files[to];
    if mode == Resume && row.path == file.path then
      && row == file && to !in owed
      && (to in after.bytes <==> id in from.bytes) && (to in after.bytes ==> after.bytes[to] == from.bytes[id])
    else
      && row == File(row.path, None, None, file.size) && to in owed
      && id in from.bytes && HeldIsCurrent(file, from.bytes[id])
      && to in after.bytes && after.bytes[to] == Held(from.bytes[id].bytes, None, true)
      && FoldPath(ParentPath(row.path)) == FoldPath(ParentPath(file.path))
  }

  /** In a resume, a row of the target names the very file. */
  ghost predicate MeetsItsFile(m: Move, theirs: Rows, file: File) {
    m.mode == Resume && file.remoteId.Some? && exists k :: k in theirs.files && theirs.files[k].remoteId == file.remoteId
  }

  /** Every file that comes is one of those taken that the target has not. */
  lemma FilesThatCome(t: Tables, m: Move, p: Plan, k: Id)
    requires CanMove(t, m, p)
    requires k in RowsOf(MoveRowsTo(t, m, p).tables, m.target).files && k !in RowsOf(t, m.target).files
    ensures var moved, from, theirs := MoveRowsTo(t, m, p), RowsOf(t, m.from), RowsOf(t, m.target);
            exists id :: id in FilesTaken(m, from) && id in p.fileIds && p.fileIds[id] == k && !MeetsItsFile(m, theirs, from.files[id])
                         && (k == id <==> id !in theirs.files)
                         && IsFileOf(m.mode, id, from, k, RowsOf(moved.tables, m.target), moved.owed.files)
  {
    MoveUnfolds(t, m, p);
    PlanIsValid(t, m, p);
    NotesArePlaced(t, m, p);
    OwedAreCarried(t, m, p);
    hide ValidPlan, WellFormed, Place, Shelve, MoveRowsTo, ValidMoving, AtTells, PlaceFiles, Enumerates, ValidCarrying, IsFileOf,
      PlacedInNotebooks, SpellingsGrow, LandedSoFar, HeldIsCurrent, FilesTaken;
    var c, theirs := CarryingOf(t, m, p), RowsOf(t, m.target);
    var none := NoneFiled(theirs.files, theirs.bytes, p.at, Place(t, m, p).spellings);
    OrderIsFiles(c, p.files);
    FiledFrom(c, none, p.files, k);
    var id :| id in p.files && id in c.files && c.landing[id] == k && !IsKnown(c, id) && IsFiled(c, id, Carry(t, m, p));
    FiledIsFile(t, m, p, id);
  }

  lemma OrderIsFiles(c: Carrying, order: seq<Id>)
    requires ValidCarrying(c) && Enumerates(order, c.files.Keys)
    ensures forall id :: id in order ==> id in c.files && id in c.landing
    ensures forall i, j :: 0 <= i < j < |order| ==> c.landing[order[i]] != c.landing[order[j]]
    ensures forall id :: id in order ==> c.landing[id] !in c.theirs
  {
    forall id | id in order
      ensures id in c.files && id in c.landing && c.landing[id] !in c.theirs
    {
      assert id in c.files.Keys;
    }
  }

  lemma OwedAreCarried(t: Tables, m: Move, p: Plan)
    requires CanMove(t, m, p)
    ensures MoveRowsTo(t, m, p).owed.files == Carry(t, m, p).owed
  {
    hide ValidPlan, WellFormed, Place, Shelve, Carry, CarryOps, IsLinked, WhereOf;
  }

  /** The same, of one as it was placed. */
  ghost predicate IsFiled(c: Carrying, id: Id, g: Filed)
    requires id in c.files && id in c.landing
  {
    var file, to := c.files[id], c.landing[id];
    to in g.files
    && var row := g.files[to];
       if c.mode == Resume && row.path == file.path then
         && row == file && to !in g.owed
         && (to in g.bytes <==> id in c.bytes) && (to in g.bytes ==> g.bytes[to] == c.bytes[id])
       else
         && row == File(row.path, None, None, file.size) && to in g.owed
         && id in c.bytes && HeldIsCurrent(file, c.bytes[id])
         && to in g.bytes && g.bytes[to] == Held(c.bytes[id].bytes, None, true)
         && FoldPath(ParentPath(row.path)) == FoldPath(ParentPath(file.path))
  }

  lemma FiledIsFile(t: Tables, m: Move, p: Plan, id: Id)
    requires CanMove(t, m, p) && id in p.files
    requires ValidCarrying(CarryingOf(t, m, p)) && id in CarryingOf(t, m, p).files
    requires id in CarryingOf(t, m, p).landing && !IsKnown(CarryingOf(t, m, p), id)
    requires IsFiled(CarryingOf(t, m, p), id, Carry(t, m, p))
    ensures var from, theirs, k := RowsOf(t, m.from), RowsOf(t, m.target), p.fileIds[id];
            && id in from.files && id in FilesTaken(m, from) && !MeetsItsFile(m, theirs, from.files[id])
            && k in Arrived(t, m, p).files && (k == id <==> id !in theirs.files)
            && IsFileOf(m.mode, id, from, k, Arrived(t, m, p), Carry(t, m, p).owed)
  {
    hide ValidPlan, WellFormed, Place, Shelve, Carry, HeldIsCurrent, FoldPath, ParentPath;
    FileIsMet(m.mode, RowsOf(t, m.target).files, RowsOf(t, m.from).files[id].remoteId);
    hide RemoteIds;
  }

  lemma FileIsMet(mode: Mode, theirs: map<Id, File>, remoteId: Option<Id>)
    ensures mode == Resume && remoteId.Some? && (exists k :: k in theirs && theirs[k].remoteId == remoteId) <==>
              mode == Resume && remoteId.Some? && remoteId.value in RemoteIds(theirs)
  {}

  lemma {:induction false} FiledFrom(c: Carrying, g: Filed, order: seq<Id>, k: Id)
    requires Faithful(g.spellings) && AtTells(g.files, g.at)
    requires forall id :: id in order ==> id in c.files && id in c.landing && c.landing[id] !in g.files
    requires forall i, j :: 0 <= i < j < |order| ==> c.landing[order[i]] != c.landing[order[j]]
    requires g.bytes.Keys <= g.files.Keys && g.owed <= g.files.Keys
    requires k in PlaceFiles(c, g, order).files && k !in g.files
    ensures exists id :: id in order && c.landing[id] == k && !IsKnown(c, id) && IsFiled(c, id, PlaceFiles(c, g, order))
    decreases |order|
  {
    hide AtTells, Faithful, PlaceFile, IsFiled, IsKnown;
    var id := order[0];
    assert id in order;
    var next := PlaceFile(c, g, id);
    PlaceOne(c, g, id);
    forall each | each in order[1..]
      ensures each in c.files && each in c.landing && c.landing[each] !in next.files
    {
      var i :| 1 <= i < |order| && order[i] == each;
      assert c.landing[order[0]] != c.landing[order[i]] && each in order;
    }
    if k in next.files {
      FiledStays(c, next, order[1..], id);
    } else {
      FiledFrom(c, next, order[1..], k);
      var each :| each in order[1..] && c.landing[each] == k && !IsKnown(c, each) && IsFiled(c, each, PlaceFiles(c, g, order));
      assert each in order;
    }
  }

  lemma PlaceOne(c: Carrying, g: Filed, id: Id)
    requires Faithful(g.spellings) && AtTells(g.files, g.at)
    requires id in c.files && id in c.landing && c.landing[id] !in g.files
    requires g.bytes.Keys <= g.files.Keys && g.owed <= g.files.Keys
    ensures var h := PlaceFile(c, g, id);
            && Faithful(h.spellings) && AtTells(h.files, h.at)
            && h.files.Keys <= g.files.Keys + {c.landing[id]} && h.bytes.Keys <= h.files.Keys && h.owed <= h.files.Keys
            && (c.landing[id] in h.files ==> !IsKnown(c, id) && IsFiled(c, id, h))
  {
    hide AtTells, Faithful, PlaceFile, IsKnown, FoldPath, ParentPath, HeldIsCurrent, PathTaken, SpellingsAfter, DistinctFiles;
    PlaceFileUnfolds(c, g, id);
    PathTakenIsFree(c, g, id);
    SpellingsStay(c, g, id);
    KnownIsNotTaken(c, g, id);
    var spelled := g.(spellings := SpellingsAfter(c, g, id));
    if PathTaken(c, g, id).Some? {
      var path := PathTaken(c, g, id).value;
      var row := if AsItWas(c, id, path) then c.files[id] else File(path, None, None, c.files[id].size);
      AtTellsMore(g.files, g.at, c.landing[id], row);
    }
  }

  lemma KnownIsNotTaken(c: Carrying, g: Filed, id: Id)
    requires id in c.files
    ensures IsKnown(c, id) ==> PathTaken(c, g, id).None?
  {
    hide FoldPath, FilePathFor, NoteRespelled, IsKnown;
  }

  lemma {:induction false} FiledStays(c: Carrying, g: Filed, order: seq<Id>, id: Id)
    requires forall each :: each in order ==> each in c.files && each in c.landing && c.landing[each] !in g.files
    requires forall i, j :: 0 <= i < j < |order| ==> c.landing[order[i]] != c.landing[order[j]]
    requires Faithful(g.spellings) && AtTells(g.files, g.at)
    requires g.bytes.Keys <= g.files.Keys && g.owed <= g.files.Keys
    requires id in c.files && id in c.landing && IsFiled(c, id, g)
    ensures IsFiled(c, id, PlaceFiles(c, g, order))
    decreases |order|
  {
    hide AtTells, Faithful, PlaceFile, IsFiled;
    if order != [] {
      assert order[0] in order;
      var next := PlaceFile(c, g, order[0]);
      PlaceOne(c, g, order[0]);
      PlaceElsewhere(c, g, order[0], id);
      forall each | each in order[1..]
        ensures each in c.files && each in c.landing && c.landing[each] !in next.files
      {
        var i :| 1 <= i < |order| && order[i] == each;
        assert c.landing[order[0]] != c.landing[order[i]] && each in order;
      }
      FiledStays(c, next, order[1..], id);
    }
  }

  lemma PlaceElsewhere(c: Carrying, g: Filed, other: Id, id: Id)
    requires other in c.files && other in c.landing && c.landing[other] !in g.files
    requires id in c.files && id in c.landing && IsFiled(c, id, g)
    ensures IsFiled(c, id, PlaceFile(c, g, other))
  {
    hide FoldPath, ParentPath, HeldIsCurrent, FilePathFor, NoteRespelled, IsKnown;
  }

  // ----- The queue of a copy -----------------------------------------------------------

  /** What a copy of listed rows takes out of the queue of its source: what is about a note or a notebook listed. */
  predicate IsTakenOff(m: Move, op: Op) {
    && op.source == m.from && !m.keep
    && (m.only.Everything?
        || (op.fileId.None? && (if op.noteId.Some? then op.noteId.value in m.only.notes else op.path in m.only.folders)))
  }

  lemma CopyCarries(w: Whereto, op: Op)
    requires w.m.mode == Copy
    ensures CarryOp(w, op) == if IsTakenOff(w.m, op) then [] else [op]
  {}

  /** A copy queues nothing itself, and takes off the queue what is about what left. */
  lemma {:induction false} CopyTakesOff(w: Whereto, ops: seq<Op>, op: Op)
    requires w.m.mode == Copy
    ensures op in CarryOps(w, ops) <==> op in ops && !IsTakenOff(w.m, op)
    decreases |ops|
  {
    hide CarryOp, IsTakenOff;
    if ops != [] {
      var front, last := ops[..|ops| - 1], ops[|ops| - 1];
      CopyTakesOff(w, front, op);
      CopyCarries(w, last);
      assert CarryOps(w, ops) == CarryOps(w, front) + CarryOp(w, last);
      assert ops == front + [last];
      assert op in ops <==> op in front || op == last;
    }
  }
}
