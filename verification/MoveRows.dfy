/**
  Every row under one source moved under another (`moveRowsTo` in
  apps/web/src/store/connection.ts), as one transaction over the tables.
 */
module MoveRows {
  import opened Options
  import opened Paths
  import opened Naming
  import opened Library
  import opened MoveNotes
  import opened MoveSpellings
  import opened MoveFiles

  datatype Tables = Tables(rows: map<Source, Rows>, ops: seq<Op>)

  function RowsOf(t: Tables, source: Source): Rows {
    if source in t.rows then t.rows[source] else NO_ROWS
  }

  /** All of the rows leaving, or the notes, notebooks and files listed. */
  datatype Only = Everything | Named(notes: set<Id>, folders: set<string>, files: set<Id>)

  /** What is taken and where to; `keep` leaves the rows where they are as well. */
  datatype Move = Move(target: Source, mode: Mode, from: Source, only: Only, keep: bool)

  /** What the source leaves to chance or to the clock: the order rows are read in, new ids, the moment. */
  datatype Plan = Plan(
    spelled: seq<string>, folders: seq<string>, notes: seq<Id>, twins: map<Id, Id>, noteIds: map<Id, Id>,
    files: seq<Id>, at: map<string, File>, fileIds: map<Id, Id>, stamp: Stamp)

  function FoldersTaken(m: Move, leaving: Rows): set<string> {
    if m.only.Everything? then leaving.folders.Keys else leaving.folders.Keys * m.only.folders
  }

  function NotesTaken(m: Move, leaving: Rows): set<Id> {
    if m.only.Everything? then leaving.notes.Keys else leaving.notes.Keys * m.only.notes
  }

  function FilesTaken(m: Move, leaving: Rows): set<Id> {
    if m.only.Everything? then leaving.files.Keys else leaving.files.Keys * m.only.files
  }

  /** The notes the queue of the source says something about. */
  function QueuedFor(ops: seq<Op>, source: Source): set<Id> {
    set i | 0 <= i < |ops| && ops[i].source == source && ops[i].noteId.Some? :: ops[i].noteId.value
  }

  function MovingOf(t: Tables, m: Move, p: Plan): Moving {
    var leaving := RowsOf(t, m.from);
    Moving(m.mode, leaving.notes, NotesTaken(m, leaving), RowsOf(t, m.target).notes, p.twins, p.noteIds,
           QueuedFor(t.ops, m.from), p.stamp)
  }

  function CarryingOf(t: Tables, m: Move, p: Plan): Carrying {
    var leaving := RowsOf(t, m.from);
    var taken := FilesTaken(m, leaving);
    Carrying(m.mode, map id | id in leaving.files && id in taken :: leaving.files[id], leaving.bytes,
             RowsOf(t, m.target).files, p.fileIds, p.stamp)
  }

  ghost predicate ValidPlan(t: Tables, m: Move, p: Plan) {
    var leaving, theirs := RowsOf(t, m.from), RowsOf(t, m.target);
    && Enumerates(p.spelled, theirs.folders.Keys)
    && Enumerates(p.folders, FoldersTaken(m, leaving))
    && (forall i, j :: 0 <= i < j < |p.folders| ==> PathDepth(p.folders[i]) <= PathDepth(p.folders[j]))
    && Enumerates(p.notes, leaving.notes.Keys)
    && ValidMoving(MovingOf(t, m, p))
    && Enumerates(p.files, FilesTaken(m, leaving))
    && ValidCarrying(CarryingOf(t, m, p))
    && AtTells(theirs.files, p.at)
  }

  /** Paths as they are stored, notes with names, and bytes only of files there are. */
  ghost predicate WellFormed(rows: Rows) {
    && NormalFolders(rows.folders)
    && NamedNotes(rows.notes)
    && rows.bytes.Keys <= rows.files.Keys
  }

  // ----- The parts of a move -----------------------------------------------------------

  function Shelve(t: Tables, m: Move, p: Plan): Shelves
    requires forall path :: path in p.folders ==> path in RowsOf(t, m.from).folders
  {
    var theirs := RowsOf(t, m.target);
    PlaceFolders(m.mode, Shelves(theirs.folders, SpellingsFrom(p.spelled), {}), RowsOf(t, m.from).folders, p.folders)
  }

  function Place(t: Tables, m: Move, p: Plan): Landed
    requires ValidPlan(t, m, p)
  {
    var c := MovingOf(t, m, p);
    PlaceNotes(c, NoneLanded(c, Shelve(t, m, p).spellings), p.notes)
  }

  function Carry(t: Tables, m: Move, p: Plan): Filed
    requires ValidPlan(t, m, p)
  {
    var theirs := RowsOf(t, m.target);
    PlaceFiles(CarryingOf(t, m, p), NoneFiled(theirs.files, theirs.bytes, p.at, Place(t, m, p).spellings), p.files)
  }

  /** What is left of the source: all of it, none of it, or all but the notes named. */
  function Left(m: Move, leaving: Rows): Rows {
    if m.keep then leaving
    else if m.only.Everything? then NO_ROWS
    else leaving.(notes := leaving.notes - NotesTaken(m, leaving))
  }

  // ----- The queue ---------------------------------------------------------------------

  /** Where everything went, as the queue is told. */
  datatype Whereto = Whereto(m: Move, noteIds: map<Id, Id>, owed: set<Id>, yielded: set<Id>, filesAsTheyWere: map<Id, Id>)

  function IdNow(w: Whereto, id: Id): Id {
    if id in w.noteIds then w.noteIds[id] else id
  }

  /** An op of the source left about something that leaves it; a move of listed rows leaves file ops alone. */
  predicate Leaves(w: Whereto, op: Op) {
    op.source == w.m.from
    && match w.m.only {
         case Everything => true
         case Named(notes, folders, _) =>
           op.fileId.None? && (if op.noteId.None? then op.path in folders else op.noteId.value in notes)
       }
  }

  predicate Dropped(w: Whereto, op: Op) {
    || w.m.mode == Copy
    || (op.noteId.Some? && (IdNow(w, op.noteId.value) in w.owed || op.noteId.value in w.yielded))
    || (op.fileId.Some? && op.fileId.value !in w.filesAsTheyWere)
  }

  /** The op as the target's, under the ids its rows have now. */
  function Carried(w: Whereto, op: Op): Op {
    op.(source := w.m.target,
        noteId := if op.noteId.None? then None else Some(IdNow(w, op.noteId.value)),
        fileId := if op.fileId.Some? && op.fileId.value in w.filesAsTheyWere
                  then Some(w.filesAsTheyWere[op.fileId.value]) else op.fileId)
  }

  /** What becomes of one op: as it is, gone, or the target's. */
  function CarryOp(w: Whereto, op: Op): seq<Op> {
    if !Leaves(w, op) then [op]
    else if Dropped(w, op) then (if w.m.keep then [op] else [])
    else [Carried(w, op)]
  }

  function CarryOps(w: Whereto, ops: seq<Op>): seq<Op> {
    if ops == [] then [] else CarryOps(w, ops[..|ops| - 1]) + CarryOp(w, ops[|ops| - 1])
  }

  function YieldedBy(c: Moving): set<Id> {
    set id | id in c.notes && Yields(c, id)
  }

  /** Where each file placed without being owed anew landed: the ops about it go there too. */
  function AsTheyWere(filed: Filed): map<Id, Id> {
    map id | id in filed.placed && filed.placed[id] !in filed.owed :: filed.placed[id]
  }

  function WhereOf(t: Tables, m: Move, p: Plan): Whereto
    requires ValidPlan(t, m, p)
  {
    Whereto(m, p.noteIds, Place(t, m, p).owed, YieldedBy(MovingOf(t, m, p)), AsTheyWere(Carry(t, m, p)))
  }

  // ----- The move ----------------------------------------------------------------------

  /** What a move owes its target, and whether any row of it names something on the remote. */
  datatype Owed = Owed(notes: set<Id>, folders: set<string>, files: set<Id>, linked: bool)

  const NOTHING_OWED := Owed({}, {}, {}, false)

  datatype Moved = Moved(tables: Tables, owed: Owed)

  predicate IsLinked(before: Rows, after: Rows) {
    || (exists id :: id in after.notes && id !in before.notes && after.notes[id].remoteId.Some?)
    || (exists path :: path in after.folders && path !in before.folders && after.folders[path].remoteId.Some?)
    || (exists id :: id in after.files && id !in before.files && after.files[id].remoteId.Some?)
  }

  /** The target's rows with everything that was placed among them. */
  function Arrived(t: Tables, m: Move, p: Plan): Rows
    requires ValidPlan(t, m, p)
  {
    Rows(Place(t, m, p).notes, Shelve(t, m, p).folders, Carry(t, m, p).files, Carry(t, m, p).bytes)
  }

  function MoveRowsTo(t: Tables, m: Move, p: Plan): Moved
    requires m.from != m.target ==> ValidPlan(t, m, p)
  {
    if m.from == m.target then Moved(t, NOTHING_OWED)
    else
      var arrived := Arrived(t, m, p);
      Moved(
        Tables(t.rows[m.from := Left(m, RowsOf(t, m.from))][m.target := arrived], CarryOps(WhereOf(t, m, p), t.ops)),
        Owed(Place(t, m, p).owed, Shelve(t, m, p).owed, Carry(t, m, p).owed, IsLinked(RowsOf(t, m.target), arrived)))
  }
}
