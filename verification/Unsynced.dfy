/**
  The rows of a source its remote has not got in full
  (apps/web/src/store/unsynced.ts), and the queue that says what is owed
  (apps/web/src/store/queue.ts).
 */
module Unsynced {
  import opened Options
  import opened Paths
  import opened Naming
  import opened Library
  import opened MoveRows

  /** The files a note links, by its text and its path: `linkedFiles` of the markdown, whatever it is. */
  type Links = (string, string) -> set<string>

  function NotesWith(ops: seq<Op>, source: Source, kind: Kind): set<Id> {
    set i | 0 <= i < |ops| && ops[i].source == source && ops[i].kind == kind && ops[i].noteId.Some? :: ops[i].noteId.value
  }

  function FilesWith(ops: seq<Op>, source: Source, kind: Kind): set<Id> {
    set i | 0 <= i < |ops| && ops[i].source == source && ops[i].kind == kind && ops[i].fileId.Some? :: ops[i].fileId.value
  }

  function PathsWith(ops: seq<Op>, source: Source, kind: Kind): set<string> {
    set i | 0 <= i < |ops| && ops[i].source == source && ops[i].kind == kind :: ops[i].path
  }

  datatype Unsent = Unsent(
    notes: set<Id>, renames: set<Id>, deletes: set<Id>, folders: set<string>, rmdirs: set<string>,
    files: set<Id>, portable: set<Id>, unverified: bool)

  /** Dirty, without a file, or with a write queued; in an unverified source every note is. */
  predicate IsOwedText(t: Tables, source: Source, unverified: bool, id: Id)
    requires id in RowsOf(t, source).notes
  {
    var note := RowsOf(t, source).notes[id];
    unverified || note.dirty || note.remoteId.None? || id in NotesWith(t.ops, source, Write)
  }

  function LiveIn(t: Tables, source: Source): set<Id> {
    set id | id in RowsOf(t, source).notes && IsLive(RowsOf(t, source).notes[id])
  }

  /** A live note the remote has in full at the path it has here. */
  predicate IsSettled(t: Tables, source: Source, unverified: bool, id: Id)
    requires id in RowsOf(t, source).notes
  {
    !IsOwedText(t, source, unverified, id) && id !in NotesWith(t.ops, source, MoveNote)
  }

  predicate IsUnsentFolder(t: Tables, source: Source, unverified: bool, path: string)
    requires path in RowsOf(t, source).folders
  {
    || unverified
    || path in PathsWith(t.ops, source, Mkdir)
    || (RowsOf(t, source).folders[path].remoteId.None?
        && !exists id :: id in LiveIn(t, source) && IsSettled(t, source, unverified, id)
                         && IsWithin(FoldPath(RowsOf(t, source).notes[id].path), FoldPath(path)))
  }

  /** `unsyncedIn` */
  function UnsyncedIn(t: Tables, source: Source, unverified: bool): Unsent {
    var rows := RowsOf(t, source);
    var notes := set id | id in LiveIn(t, source) && IsOwedText(t, source, unverified, id);
    var files := set id | id in rows.files && (rows.files[id].remoteId.None? || (unverified && id in rows.bytes));
    Unsent(
      notes,
      (set id | id in LiveIn(t, source) && id !in notes && id in NotesWith(t.ops, source, MoveNote)),
      (set id | id in rows.notes && rows.notes[id].deleted && rows.notes[id].remoteId.Some?),
      (set path | path in rows.folders && IsUnsentFolder(t, source, unverified, path)),
      PathsWith(t.ops, source, Rmdir),
      files,
      (set id | id in files && id in rows.bytes),
      unverified)
  }

  predicate IsEmpty(u: Unsent) {
    u.notes == {} && u.renames == {} && u.deletes == {} && u.folders == {} && u.rmdirs == {} && u.files == {}
  }

  /** A list of unsent work as it was shown: the notes with their times, the notebooks, removals and files. */
  datatype Seen = Seen(notes: map<Id, int>, folders: set<string>, rmdirs: set<string>, files: set<Id>)

  predicate WasSeen(seen: Seen, id: Id, note: Note) {
    id in seen.notes && seen.notes[id] == note.updatedAt
  }

  function Listed(u: Unsent): set<Id> {
    u.notes + u.renames + u.deletes
  }

  function UnseenNotes(t: Tables, source: Source, u: Unsent, seen: Seen): set<Id> {
    set id | id in Listed(u) && id in RowsOf(t, source).notes && !WasSeen(seen, id, RowsOf(t, source).notes[id])
  }

  predicate UnseenIn(t: Tables, source: Source, u: Unsent, seen: Seen) {
    || UnseenNotes(t, source, u, seen) != {}
    || !(u.folders <= seen.folders)
    || !(u.rmdirs <= seen.rmdirs)
    || !(u.files <= seen.files)
  }

  /** The rows of the files some notes link, in their own source. */
  function LinkedRows(t: Tables, source: Source, notes: set<Id>, links: Links): set<Id> {
    var rows := RowsOf(t, source);
    var linked := LinkedPaths(rows.notes, notes, links);
    set id | id in rows.files && FoldPath(rows.files[id].path) in linked
  }

  function LinkedPaths(notes: map<Id, Note>, which: set<Id>, links: Links): set<string> {
    set id, path | id in which && id in notes && path in links(notes[id].body, notes[id].path) :: FoldPath(path)
  }

  // ----- What is owed ------------------------------------------------------------------

  datatype Owe = MakeNotebook(path: string) | SendFile(id: Id, path: string) | WriteNote(id: Id, path: string)

  /** What a move owes its target, at the paths the rows have. */
  function OwesOf(rows: Rows, owed: Owed): set<Owe> {
    (set path | path in owed.folders :: MakeNotebook(path))
    + (set id | id in owed.files && id in rows.files :: SendFile(id, rows.files[id].path))
    + (set id | id in owed.notes && id in rows.notes :: WriteNote(id, rows.notes[id].path))
  }

  predicate IsStale(op: Op, source: Source, path: string) {
    op.source == source && op.kind == Rmdir && (op.path == path || op.path in AncestorPaths(path))
  }

  /** The queue without the removals, of this source, of the notebook and of its ancestors. */
  function WithdrawRmdirs(ops: seq<Op>, source: Source, path: string): (kept: seq<Op>)
    ensures forall op :: op in kept <==> op in ops && !IsStale(op, source, path)
  {
    if ops == [] then []
    else (if IsStale(ops[0], source, path) then [] else [ops[0]]) + WithdrawRmdirs(ops[1..], source, path)
  }

  /** One op owed, by the helper that dedupes it. */
  function QueueOne(ops: seq<Op>, source: Source, owe: Owe): seq<Op> {
    match owe
    case MakeNotebook(path) =>
      var kept := WithdrawRmdirs(ops, source, path);
      if path in PathsWith(kept, source, Mkdir) then kept else kept + [Op(source, Mkdir, None, None, path, None, None)]
    case SendFile(id, path) =>
      if id in FilesWith(ops, source, Upload) then ops else ops + [Op(source, Upload, None, Some(id), path, None, None)]
    case WriteNote(id, path) =>
      if id in NotesWith(ops, source, Write) then ops else ops + [Op(source, Write, Some(id), None, path, None, None)]
  }

  function QueueAll(ops: seq<Op>, source: Source, owes: seq<Owe>): seq<Op>
    decreases |owes|
  {
    if owes == [] then ops else QueueAll(QueueOne(ops, source, owes[0]), source, owes[1..])
  }

  /** The op an owed row is owed. */
  predicate IsOwedBy(op: Op, source: Source, owe: Owe) {
    op.source == source
    && match owe {
         case MakeNotebook(path) => op.kind == Mkdir && op.path == path
         case SendFile(id, _) => op.kind == Upload && op.fileId == Some(id)
         case WriteNote(id, _) => op.kind == Write && op.noteId == Some(id)
       }
  }

  lemma QueueOneKeeps(ops: seq<Op>, source: Source, owe: Owe)
    ensures forall op :: op in ops && (op.source != source || op.kind != Rmdir) ==> op in QueueOne(ops, source, owe)
    ensures forall op :: op in QueueOne(ops, source, owe) ==> op in ops || IsOwedBy(op, source, owe)
    ensures exists op :: op in QueueOne(ops, source, owe) && IsOwedBy(op, source, owe)
  {
    hide AncestorPaths;
    var after := QueueOne(ops, source, owe);
    match owe {
      case MakeNotebook(path) =>
        var kept := WithdrawRmdirs(ops, source, path);
        if path in PathsWith(kept, source, Mkdir) {
          var i :| 0 <= i < |kept| && kept[i].source == source && kept[i].kind == Mkdir && kept[i].path == path;
          assert IsOwedBy(kept[i], source, owe);
        } else {
          assert IsOwedBy(after[|after| - 1], source, owe);
        }
      case SendFile(id, path) =>
        if id in FilesWith(ops, source, Upload) {
          var i :| 0 <= i < |ops| && ops[i].source == source && ops[i].kind == Upload && ops[i].fileId == Some(id);
          assert IsOwedBy(ops[i], source, owe);
        } else {
          assert IsOwedBy(after[|after| - 1], source, owe);
        }
      case WriteNote(id, path) =>
        if id in NotesWith(ops, source, Write) {
          var i :| 0 <= i < |ops| && ops[i].source == source && ops[i].kind == Write && ops[i].noteId == Some(id);
          assert IsOwedBy(ops[i], source, owe);
        } else {
          assert IsOwedBy(after[|after| - 1], source, owe);
        }
    }
  }

  /**
    Queueing what is owed withdraws nothing but removals of notebooks in that source,
    adds nothing but what is owed, and leaves something queued for everything that is.
   */
  lemma {:induction false} QueueAllKeeps(ops: seq<Op>, source: Source, owes: seq<Owe>)
    ensures forall op :: op in ops && (op.source != source || op.kind != Rmdir) ==> op in QueueAll(ops, source, owes)
    ensures forall op :: op in QueueAll(ops, source, owes) ==> op in ops || exists owe :: owe in owes && IsOwedBy(op, source, owe)
    ensures forall owe :: owe in owes ==> exists op :: op in QueueAll(ops, source, owes) && IsOwedBy(op, source, owe)
    decreases |owes|
  {
    hide QueueOne;
    if owes != [] {
      var first := owes[0];
      QueueOneKeeps(ops, source, first);
      QueueAllKeeps(QueueOne(ops, source, first), source, owes[1..]);
      var op :| op in QueueOne(ops, source, first) && IsOwedBy(op, source, first);
      assert op.source == source && op.kind != Rmdir;
      assert op in QueueAll(ops, source, owes);
      assert forall owe :: owe in owes ==> owe == first || owe in owes[1..];
      assert first in owes;
    }
  }

  // ----- What is queued for it ---------------------------------------------------------

  /** The op made for a row owed: of that row, at that path, naming nothing on the remote. */
  function MadeFor(source: Source, owe: Owe): Op {
    match owe
    case MakeNotebook(path) => Op(source, Mkdir, None, None, path, None, None)
    case SendFile(id, path) => Op(source, Upload, None, Some(id), path, None, None)
    case WriteNote(id, path) => Op(source, Write, Some(id), None, path, None, None)
  }

  /** A removal, of the source, of a notebook that is to be made or of one above it. */
  ghost predicate IsUndone(op: Op, source: Source, owes: seq<Owe>) {
    op.source == source && op.kind == Rmdir
    && exists owe :: owe in owes && owe.MakeNotebook? && (op.path == owe.path || op.path in AncestorPaths(owe.path))
  }

  /** No two ops make one notebook, send one file or write one note. */
  ghost predicate IsQueuedOnce(ops: seq<Op>, source: Source) {
    forall i, j, owe :: 0 <= i < j < |ops| ==> !(IsOwedBy(ops[i], source, owe) && IsOwedBy(ops[j], source, owe))
  }

  /** The queue the op is put on, or found in: the removals it undoes are withdrawn. */
  function Withdrawn(ops: seq<Op>, source: Source, owe: Owe): seq<Op> {
    if owe.MakeNotebook? then WithdrawRmdirs(ops, source, owe.path) else ops
  }

  lemma WithdrawnIs(ops: seq<Op>, source: Source, owe: Owe)
    ensures forall op :: op in Withdrawn(ops, source, owe) <==> op in ops && !IsUndone(op, source, [owe])
    ensures forall op :: op in ops && op.kind != Rmdir ==> op in Withdrawn(ops, source, owe)
    ensures IsQueuedOnce(ops, source) ==> IsQueuedOnce(Withdrawn(ops, source, owe), source)
  {
    hide AncestorPaths, IsQueuedOnce;
    assert [owe][0] == owe;
    if owe.MakeNotebook? {
      WithdrawnOnce(ops, source, owe.path);
    }
  }

  lemma QueueOneUnfolds(ops: seq<Op>, source: Source, owe: Owe)
    ensures var kept := Withdrawn(ops, source, owe);
            QueueOne(ops, source, owe) ==
              if exists op :: op in kept && IsOwedBy(op, source, owe) then kept else kept + [MadeFor(source, owe)]
  {
    hide AncestorPaths, IsOwedBy;
    CoveredIffQueued(Withdrawn(ops, source, owe), source, owe);
  }

  lemma CoveredIffQueued(ops: seq<Op>, source: Source, owe: Owe)
    ensures (exists op :: op in ops && IsOwedBy(op, source, owe)) <==>
              match owe {
                case MakeNotebook(path) => path in PathsWith(ops, source, Mkdir)
                case SendFile(id, _) => id in FilesWith(ops, source, Upload)
                case WriteNote(id, _) => id in NotesWith(ops, source, Write)
              }
  {
    if op :| op in ops && IsOwedBy(op, source, owe) {
      var i :| 0 <= i < |ops| && ops[i] == op;
    }
    forall i | 0 <= i < |ops|
      ensures ops[i] in ops
    {}
  }

  lemma QueueOneIs(ops: seq<Op>, source: Source, owe: Owe)
    ensures var after := QueueOne(ops, source, owe);
            && (forall op :: op in ops ==> (op in after <==> !IsUndone(op, source, [owe])))
            && (forall op :: op in after && op !in ops ==>
                  op == MadeFor(source, owe) && forall each :: each in ops ==> !IsOwedBy(each, source, owe))
            && (IsQueuedOnce(ops, source) ==> IsQueuedOnce(after, source))
  {
    hide QueueOne, Withdrawn, IsUndone, IsQueuedOnce;
    WithdrawnIs(ops, source, owe);
    QueueOneUnfolds(ops, source, owe);
    var kept := Withdrawn(ops, source, owe);
    assert forall op :: op in ops && IsOwedBy(op, source, owe) ==> op in kept;
    MadeIsNotUndone(source, owe);
    if forall op :: op in kept ==> !IsOwedBy(op, source, owe) {
      MadeOnce(kept, source, owe);
    }
  }

  lemma MadeIsNotUndone(source: Source, owe: Owe)
    ensures IsOwedBy(MadeFor(source, owe), source, owe) && !IsUndone(MadeFor(source, owe), source, [owe])
  {}

  lemma MadeOnce(ops: seq<Op>, source: Source, owe: Owe)
    requires forall op :: op in ops ==> !IsOwedBy(op, source, owe)
    ensures IsQueuedOnce(ops, source) ==> IsQueuedOnce(ops + [MadeFor(source, owe)], source)
  {
    if IsQueuedOnce(ops, source) {
      var after := ops + [MadeFor(source, owe)];
      forall i, j, other | 0 <= i < j < |after|
        ensures !(IsOwedBy(after[i], source, other) && IsOwedBy(after[j], source, other))
      {
        assert after[i] in ops;
        if j == |ops| && IsOwedBy(after[j], source, other) {
          assert IsOwedBy(after[i], source, other) <==> IsOwedBy(after[i], source, owe);
        }
      }
    }
  }

  lemma {:induction false} WithdrawnOnce(ops: seq<Op>, source: Source, path: string)
    ensures IsQueuedOnce(ops, source) ==> IsQueuedOnce(WithdrawRmdirs(ops, source, path), source)
  {
    hide AncestorPaths;
    if ops != [] && IsQueuedOnce(ops, source) {
      var rest := WithdrawRmdirs(ops[1..], source, path);
      RestQueuedOnce(ops, source);
      WithdrawnOnce(ops[1..], source, path);
      FirstQueuedOnce(ops, source, rest);
    }
  }

  lemma RestQueuedOnce(ops: seq<Op>, source: Source)
    requires ops != [] && IsQueuedOnce(ops, source)
    ensures IsQueuedOnce(ops[1..], source)
    ensures forall op, owe :: op in ops[1..] ==> !(IsOwedBy(ops[0], source, owe) && IsOwedBy(op, source, owe))
  {
    hide IsOwedBy;
    assert forall i :: 0 <= i < |ops[1..]| ==> ops[1..][i] == ops[i + 1];
  }

  lemma FirstQueuedOnce(ops: seq<Op>, source: Source, rest: seq<Op>)
    requires ops != [] && IsQueuedOnce(rest, source) && forall op :: op in rest ==> op in ops[1..]
    requires forall op, owe :: op in ops[1..] ==> !(IsOwedBy(ops[0], source, owe) && IsOwedBy(op, source, owe))
    ensures IsQueuedOnce([ops[0]] + rest, source)
  {
    hide IsOwedBy;
    var after := [ops[0]] + rest;
    forall i, j, owe | 0 <= i < j < |after|
      ensures !(IsOwedBy(after[i], source, owe) && IsOwedBy(after[j], source, owe))
    {
      assert after[j] in rest && (i > 0 ==> after[i] == rest[i - 1] && after[j] == rest[j - 1]);
    }
  }

  /**
    Of the queue there was, exactly the removals of a notebook to be made, or of one above it,
    are withdrawn. What is new was made for something owed that nothing was queued for, and is
    of that row and at its path. And nothing is queued twice that was not.
   */
  lemma {:induction false} QueueAllIs(ops: seq<Op>, source: Source, owes: seq<Owe>)
    ensures var after := QueueAll(ops, source, owes);
            && (forall op :: op in ops ==> (op in after <==> !IsUndone(op, source, owes)))
            && (forall op :: op in after && op !in ops ==>
                  exists owe :: owe in owes && op == MadeFor(source, owe) && forall each :: each in ops ==> !IsOwedBy(each, source, owe))
            && (IsQueuedOnce(ops, source) ==> IsQueuedOnce(after, source))
    decreases |owes|
  {
    hide QueueOne, IsOwedBy, IsQueuedOnce, AncestorPaths;
    if owes != [] {
      var first, rest := owes[0], owes[1..];
      var next := QueueOne(ops, source, first);
      QueueOneIs(ops, source, first);
      QueueAllIs(next, source, rest);
      hide IsUndone, MadeFor;
      forall op
        ensures IsUndone(op, source, owes) <==> IsUndone(op, source, [first]) || IsUndone(op, source, rest)
      {
        UndoneByOne(op, source, owes);
      }
      forall op | op in QueueAll(ops, source, owes) && op !in ops
        ensures exists owe :: owe in owes && op == MadeFor(source, owe) && forall each :: each in ops ==> !IsOwedBy(each, source, owe)
      {
        if op in next {
          assert first in owes;
        } else {
          var owe :| owe in rest && op == MadeFor(source, owe) && forall each :: each in next ==> !IsOwedBy(each, source, owe);
          OwedStaysQueued(ops, source, first, owe);
          assert owe in owes;
        }
      }
    }
  }

  lemma OwedStaysQueued(ops: seq<Op>, source: Source, first: Owe, owe: Owe)
    ensures forall each :: each in ops && IsOwedBy(each, source, owe) ==> each in QueueOne(ops, source, first)
  {
    hide QueueOne;
    QueueOneKeeps(ops, source, first);
  }

  lemma UndoneByOne(op: Op, source: Source, owes: seq<Owe>)
    requires owes != []
    ensures IsUndone(op, source, owes) <==> IsUndone(op, source, [owes[0]]) || IsUndone(op, source, owes[1..])
  {
    hide AncestorPaths;
    assert forall owe :: owe in owes <==> owe in [owes[0]] || owe in owes[1..];
  }
}
