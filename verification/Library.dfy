/**
  The rows a device holds (apps/web/src/store/db.ts), source by source: notes,
  notebooks, files with their bytes, and the queue of what is owed. A row's key is its
  source and its id, a notebook's its source and its path.
 */
module Library {
  import opened Options
  import opened Naming

  type Id = nat

  /** The device's own pile, or a connection. */
  datatype Source = Pile | Connection(id: nat)

  /** A note's file, as serialized from the row's parts. */
  datatype FileText = FileText(id: Id, path: string, body: string, createdAt: int, updatedAt: int)

  datatype Note = Note(
    path: string, body: string, remoteId: Option<Id>, remoteVersion: Option<string>,
    source: Option<FileText>, dirty: bool, deleted: bool, createdAt: int, updatedAt: int)

  /** `noteFile`: the file as it is pinned, and otherwise as it would be written now. */
  function NoteFile(id: Id, note: Note): FileText {
    if note.source.Some? then note.source.value
    else FileText(id, note.path, note.body, note.createdAt, note.updatedAt)
  }

  predicate IsLive(note: Note) {
    !note.deleted
  }

  /** Live, and edited since it was sent or never sent at all. */
  predicate IsUnsent(note: Note) {
    IsLive(note) && (note.dirty || note.remoteId.None?)
  }

  function WithoutRemote(note: Note): Note {
    note.(remoteId := None, remoteVersion := None)
  }

  datatype Folder = Folder(remoteId: Option<Id>, createdAt: int)

  datatype File = File(path: string, remoteId: Option<Id>, remoteVersion: Option<string>, size: nat)

  datatype Held = Held(bytes: string, version: Option<string>, pinned: bool)

  /** `heldBytesAreCurrent`: pinned, or fetched at the version the file has. */
  predicate HeldIsCurrent(file: File, held: Held) {
    held.pinned || (held.version.Some? && held.version == file.remoteVersion)
  }

  datatype Rows = Rows(
    notes: map<Id, Note>, folders: map<string, Folder>, files: map<Id, File>, bytes: map<Id, Held>)

  const NO_ROWS := Rows(map[], map[], map[], map[])

  datatype Kind = Write | MoveNote | Delete | Mkdir | Rmdir | Upload | MoveFile | DeleteFile

  /** An op of the queue; the queue is in the order its ops were made. */
  datatype Op = Op(
    source: Source, kind: Kind, noteId: Option<Id>, fileId: Option<Id>, path: string, target: Option<string>,
    remoteId: Option<Id>)

  function OpsOf(ops: seq<Op>, source: Source): seq<Op> {
    if ops == [] then []
    else (if ops[0].source == source then [ops[0]] else []) + OpsOf(ops[1..], source)
  }

  /** The folded paths of the notes that are there. */
  function LivePaths(notes: map<Id, Note>): set<string> {
    set id | id in notes && IsLive(notes[id]) :: FoldPath(notes[id].path)
  }

  /** No two live notes are one file on the provider. */
  ghost predicate DistinctPaths(notes: map<Id, Note>) {
    forall i, j :: i in notes && j in notes && i != j && IsLive(notes[i]) && IsLive(notes[j]) ==>
      FoldPath(notes[i].path) != FoldPath(notes[j].path)
  }

  /** No two notebooks are one directory. */
  ghost predicate DistinctFolders(folders: map<string, Folder>) {
    forall p, q :: p in folders && q in folders && FoldPath(p) == FoldPath(q) ==> p == q
  }

  /** No two files are one name. */
  ghost predicate DistinctFiles(files: map<Id, File>) {
    forall i, j :: i in files && j in files && FoldPath(files[i].path) == FoldPath(files[j].path) ==> i == j
  }

  /** The rows of a set, in some order: what reading a table gives. */
  ghost predicate Enumerates<T(!new)>(order: seq<T>, rows: set<T>) {
    (forall x :: x in order <==> x in rows) && (forall i, j :: 0 <= i < j < |order| ==> order[i] != order[j])
  }

  lemma EnumeratesRest<T(!new)>(order: seq<T>, rows: set<T>)
    requires Enumerates(order, rows) && order != []
    ensures order[0] in rows && Enumerates(order[1..], rows - {order[0]})
  {}

  method Enumerate<T(==, !new)>(rows: set<T>) returns (order: seq<T>)
    ensures Enumerates(order, rows)
  {
    order := [];
    var left := rows;
    while left != {}
      invariant left <= rows && Enumerates(order, rows - left)
      decreases |left|
    {
      var x :| x in left;
      order := order + [x];
      left := left - {x};
    }
  }

  /** An id nothing has. */
  method NewId(used: set<Id>) returns (id: Id)
    ensures id !in used
  {
    id := 0;
    var above := used;
    while id in used
      invariant above == set x | x in used && x >= id
      decreases |above|
    {
      above := above - {id};
      id := id + 1;
    }
  }
}
