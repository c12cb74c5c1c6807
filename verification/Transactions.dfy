/**
  The transactions of apps/web/src/store/connection.ts as they are carried out: tables
  and the sets beside them written to row by row, and each proved to leave the device as
  the operation it is says.
 */
module Transactions {
  import opened Options
  import opened Paths
  import opened Naming
  import opened Library
  import opened MoveNotes
  import opened MoveSpellings
  import opened MoveFiles
  import opened MoveRows
  import opened Unsynced
  import opened QueueOrder

  // ----- Choosing ----------------------------------------------------------------------

  /** Sorted by depth, outermost first. */
  method OutermostFirst(paths: set<string>) returns (order: seq<string>)
    ensures Enumerates(order, paths)
    ensures forall i, j :: 0 <= i < j < |order| ==> PathDepth(order[i]) <= PathDepth(order[j])
  {
    hide PathDepth;
    order := [];
    var left := paths;
    while left != {}
      invariant left <= paths && Enumerates(order, paths - left)
      invariant forall i, j :: 0 <= i < j < |order| ==> PathDepth(order[i]) <= PathDepth(order[j])
      invariant forall i, path :: 0 <= i < |order| && path in left ==> PathDepth(order[i]) <= PathDepth(path)
      decreases |left|
    {
      var path := Shallowest(left);
      order := order + [path];
      left := left - {path};
    }
    assert paths - left == paths;
  }

  method Shallowest(paths: set<string>) returns (path: string)
    requires paths != {}
    ensures path in paths && forall other :: other in paths ==> PathDepth(path) <= PathDepth(other)
  {
    hide PathDepth;
    path :| path in paths;
    var left := paths - {path};
    while left != {}
      invariant path in paths && left <= paths
      invariant forall other :: other in paths && other !in left ==> PathDepth(path) <= PathDepth(other)
      decreases |left|
    {
      var other :| other in left;
      if PathDepth(other) < PathDepth(path) {
        path := other;
      }
      left := left - {other};
    }
  }

  /** The target's row of each remote file. */
  method FindTwins(notes: map<Id, Note>) returns (twins: map<Id, Id>)
    ensures forall r :: r in twins ==> twins[r] in notes && notes[twins[r]].remoteId == Some(r)
    ensures forall id :: id in notes && notes[id].remoteId.Some? ==> notes[id].remoteId.value in twins
  {
    twins := map[];
    var left := notes.Keys;
    while left != {}
      invariant left <= notes.Keys
      invariant forall r :: r in twins ==> twins[r] in notes && notes[twins[r]].remoteId == Some(r)
      invariant forall id :: id in notes && id !in left && notes[id].remoteId.Some? ==> notes[id].remoteId.value in twins
      decreases |left|
    {
      var id :| id in left;
      if notes[id].remoteId.Some? {
        twins := twins[notes[id].remoteId.value := id];
      }
      left := left - {id};
    }
  }

  /** What is at each folded path: of two rows at one, the one read last. */
  method FilesByPath(files: map<Id, File>) returns (at: map<string, File>)
    ensures AtTells(files, at)
  {
    hide FoldPath;
    at := map[];
    var left := files.Keys;
    while left != {}
      invariant left <= files.Keys
      invariant forall id :: id in files && id !in left ==> FoldPath(files[id].path) in at
      invariant forall folded :: folded in at ==> FoldPath(at[folded].path) == folded && IsRow(files, at[folded])
      decreases |left|
    {
      var id :| id in left;
      assert IsRow(files, files[id]);
      at := at[FoldPath(files[id].path) := files[id]];
      left := left - {id};
    }
  }

  /** Ids nothing has, one for each. */
  method NewIds(rows: set<Id>, used: set<Id>) returns (ids: map<Id, Id>)
    ensures ids.Keys == rows && ids.Values !! used
    ensures forall i, j :: i in rows && j in rows && i != j ==> ids[i] != ids[j]
  {
    ids := map[];
    var left := rows;
    while left != {}
      invariant left <= rows && ids.Keys == rows - left && ids.Values !! used
      invariant forall i, j :: i in ids && j in ids && i != j ==> ids[i] != ids[j]
      decreases |left|
    {
      var id :| id in left;
      var to := NewId(used + ids.Values);
      ValuesGrow(ids, id, to);
      assert forall i :: i in ids ==> ids[i] in ids.Values;
      ids := ids[id := to];
      left := left - {id};
    }
  }

  /** Where each note ends up: at the row it yields to, at a new id, or at its own. */
  method ChooseNoteIds(c: Moving) returns (landing: map<Id, Id>)
    requires c.taking <= c.notes.Keys
    requires forall r :: r in c.twins ==> c.twins[r] in c.theirs && c.theirs[c.twins[r]].remoteId == Some(r)
    requires forall id :: id in c.theirs && c.theirs[id].remoteId.Some? ==> c.theirs[id].remoteId.value in c.twins
    ensures ValidMoving(c.(landing := landing))
  {
    var ids := NewIds(c.notes.Keys, c.notes.Keys + c.theirs.Keys);
    landing := map id | id in c.notes ::
      if Yields(c, id) then c.twins[c.notes[id].remoteId.value]
      else if HasTwin(c, id) || id in c.theirs then ids[id] else id;
    var d := c.(landing := landing);
    forall id | id in d.notes
      ensures LandsRight(d, id)
    {
      assert ids[id] in ids.Values;
      assert Yields(d, id) == Yields(c, id) && HasTwin(d, id) == HasTwin(c, id);
    }
    ChosenApart(c, d, ids);
  }

  lemma ChosenApart(c: Moving, d: Moving, ids: map<Id, Id>)
    requires d == c.(landing := d.landing) && d.landing.Keys == d.notes.Keys
    requires ids.Keys == c.notes.Keys && ids.Values !! (c.notes.Keys + c.theirs.Keys)
    requires forall i, j :: i in ids && j in ids && i != j ==> ids[i] != ids[j]
    requires forall id :: id in d.notes && !Yields(d, id) ==> d.landing[id] == id || d.landing[id] == ids[id]
    ensures forall i, j :: i in d.notes && j in d.notes && i != j && !Yields(d, i) && !Yields(d, j) ==>
              d.landing[i] != d.landing[j]
  {
    hide Yields;
    forall i, j | i in d.notes && j in d.notes && i != j && !Yields(d, i) && !Yields(d, j)
      ensures d.landing[i] != d.landing[j]
    {
      assert ids[i] in ids.Values && ids[j] in ids.Values && ids[i] != ids[j];
    }
  }

  method ChooseFileIds(c: Carrying) returns (landing: map<Id, Id>)
    ensures ValidCarrying(c.(landing := landing))
  {
    var ids := NewIds(c.files.Keys, c.files.Keys + c.theirs.Keys);
    landing := map id | id in c.files :: if id in c.theirs then ids[id] else id;
    forall i, j | i in c.files && j in c.files && i != j
      ensures landing[i] != landing[j]
    {
      assert ids[i] in ids.Values && ids[j] in ids.Values;
    }
    assert forall id :: id in c.files ==> ids[id] in ids.Values;
  }

  // ----- Placing -----------------------------------------------------------------------

  /** One note, with the paths taken kept beside the rows. */
  method PlaceOne(c: Moving, table: SpellingTable, ghost g: Landed, rows: map<Id, Note>, taken: set<string>, id: Id)
    returns (after: map<Id, Note>, takenAfter: set<string>, owes: bool)
    requires id in c.notes && id in c.landing && Goes(c, id) && c.landing[id] !in rows && c.landing[id] !in g.owed
    requires g.notes == rows && g.spellings == table.table && taken == LivePaths(rows)
    modifies table
    ensures PlaceNote(c, g, id)
            == Landed(after, table.table, g.placed[id := c.landing[id]], if owes then g.owed + {c.landing[id]} else g.owed)
    ensures takenAfter == LivePaths(after)
  {
    hide FoldPath, ConflictPath, FreePath, NoteRespelled, LivePaths, Pinned, ConflictCopy;
    var note, to := c.notes[id], c.landing[id];
    var pinned := Pinned(id, note);
    var row := pinned;
    owes := false;
    if !note.deleted {
      var wanted := table.SpellNote(note.path);
      if HasTwin(c, id) {
        var path := ConflictPath(wanted, c.stamp, taken);
        row := ConflictCopy(to, note, path);
        ConflictCopyIsLive(to, note, path);
        owes := true;
      } else {
        var path := if FoldPath(wanted) in taken then FreePath(wanted, taken) else wanted;
        if c.mode == Resume && path == note.path {
          owes := note.remoteId.None? && id !in c.queuedFor;
        } else {
          row := WithoutRemote(pinned).(path := path, dirty := true);
          owes := true;
        }
      }
    }
    after := rows[to := row];
    takenAfter := if note.deleted then taken else taken + {FoldPath(row.path)};
    PinnedIsLive(id, note);
    TakenGrows(rows, to, row);
  }

  lemma PinnedIsLive(id: Id, note: Note)
    ensures Pinned(id, note).deleted == note.deleted && Pinned(id, note).path == note.path
  {}

  lemma ConflictCopyIsLive(to: Id, note: Note, path: string)
    ensures ConflictCopy(to, note, path).deleted == note.deleted && ConflictCopy(to, note, path).path == path
  {}

  /** The loop over the notes leaving. */
  method PlaceAll(c: Moving, table: SpellingTable, order: seq<Id>)
    returns (rows: map<Id, Note>, placed: map<Id, Id>, owed: set<Id>)
    requires ValidMoving(c) && Enumerates(order, c.notes.Keys) && Faithful(table.table)
    modifies table
    ensures forall id :: id in order ==> id in c.notes && id in c.landing
    ensures PlaceNotes(c, NoneLanded(c, old(table.table)), order) == Landed(rows, table.table, placed, owed)
  {
    hide FoldPath, PlaceNote, LivePaths, Goes, LandedSoFar, Faithful, CarriedAs;
    assert forall id :: id in order ==> id in c.notes.Keys;
    rows, placed, owed := c.theirs, map[], {};
    var taken := LivePaths(c.theirs);
    NoneIsLanded(c, table.table);
    ghost var done: set<Id> := {};
    assert order[0..] == order && c.notes.Keys - {} == c.notes.Keys;
    for i := 0 to |order|
      invariant PlaceNotes(c, NoneLanded(c, old(table.table)), order)
                == PlaceNotes(c, Landed(rows, table.table, placed, owed), order[i..])
      invariant taken == LivePaths(rows)
      invariant LandedSoFar(c, Landed(rows, table.table, placed, owed), done)
      invariant Enumerates(order[i..], c.notes.Keys - done)
    {
      var id := order[i];
      ghost var g := Landed(rows, table.table, placed, owed);
      assert order[i..][0] == id && order[i..][1..] == order[i + 1..] && id in order;
      EnumeratesRest(order[i..], c.notes.Keys - done);
      PlaceNoteLands(c, g, done, id);
      PlaceNoteCarries(c, g, id) by { LandedIsFaithful(c, g, done); }
      if Goes(c, id) {
        LandsOnItsOwn(c, g, done, id);
        var owes;
        rows, taken, owes := PlaceOne(c, table, g, rows, taken, id);
        placed := placed[id := c.landing[id]];
        owed := if owes then owed + {c.landing[id]} else owed;
      }
      assert c.notes.Keys - done - {id} == c.notes.Keys - (done + {id});
      done := done + {id};
    }
    assert order[|order|..] == [];
  }

  /** One file, with what is at each path kept beside the rows. */
  method FileOne(c: Carrying, table: SpellingTable, ghost g: Filed, files: map<Id, File>, bytes: map<Id, Held>,
                 at: map<string, File>, placed: map<Id, Id>, owed: set<Id>, remote: set<Id>, id: Id)
    returns (filesAfter: map<Id, File>, bytesAfter: map<Id, Held>, atAfter: map<string, File>, placedAfter: map<Id, Id>, owedAfter: set<Id>)
    requires id in c.files && id in c.landing && remote == RemoteIds(c.theirs)
    requires g == Filed(files, bytes, at, table.table, placed, owed)
    modifies table
    ensures PlaceFile(c, g, id) == Filed(filesAfter, bytesAfter, atAfter, table.table, placedAfter, owedAfter)
  {
    hide FoldPath, ConflictFilePath, NoteRespelled, NamesIn, HeldIsCurrent;
    filesAfter, bytesAfter, atAfter, placedAfter, owedAfter := files, bytes, at, placed, owed;
    var file, to := c.files[id], c.landing[id];
    if c.mode == Resume && file.remoteId.Some? && file.remoteId.value in remote { return; }
    var wanted := table.SpellNote(file.path);
    var folded := FoldPath(wanted);
    if folded in at && at[folded].size == file.size { return; }
    var path := if folded !in at then wanted else ConflictFilePath(wanted, c.stamp, NamesIn(PathsAt(at), ParentPath(wanted)));
    var asItWas := c.mode == Resume && path == file.path;
    var current := id in c.bytes && HeldIsCurrent(file, c.bytes[id]);
    if !asItWas && !current { return; }
    var row := if asItWas then file else File(path, None, None, file.size);
    filesAfter := files[to := row];
    if id in c.bytes {
      bytesAfter := bytes[to := if asItWas then c.bytes[id] else Held(c.bytes[id].bytes, None, true)];
    }
    atAfter := at[FoldPath(path) := row];
    placedAfter := placed[id := to];
    if !asItWas {
      owedAfter := owed + {to};
    }
  }

  /** The loop over the files leaving. */
  method FileAll(c: Carrying, table: SpellingTable, theirBytes: map<Id, Held>, known: map<string, File>, order: seq<Id>)
    returns (files: map<Id, File>, bytes: map<Id, Held>, placed: map<Id, Id>, owed: set<Id>)
    requires forall id :: id in order ==> id in c.files && id in c.landing
    modifies table
    ensures var g := PlaceFiles(c, NoneFiled(c.theirs, theirBytes, known, old(table.table)), order);
            g.files == files && g.bytes == bytes && g.placed == placed && g.owed == owed
  {
    hide FoldPath, PlaceFile;
    var at := known;
    files, bytes, placed, owed := c.theirs, theirBytes, map[], {};
    var remote := RemoteIds(c.theirs);
    assert order[0..] == order;
    for i := 0 to |order|
      invariant PlaceFiles(c, NoneFiled(c.theirs, theirBytes, known, old(table.table)), order)
                == PlaceFiles(c, Filed(files, bytes, at, table.table, placed, owed), order[i..])
    {
      ghost var g := Filed(files, bytes, at, table.table, placed, owed);
      assert order[i..][0] == order[i] && order[i..][1..] == order[i + 1..] && order[i] in order;
      files, bytes, at, placed, owed := FileOne(c, table, g, files, bytes, at, placed, owed, remote, order[i]);
    }
    assert order[|order|..] == [];
  }

  /** The queue, op by op. */
  method CarryQueue(w: Whereto, ops: seq<Op>) returns (carried: seq<Op>)
    ensures carried == CarryOps(w, ops)
  {
    hide CarryOp;
    carried := [];
    for i := 0 to |ops|
      invariant carried == CarryOps(w, ops[..i])
    {
      carried := carried + CarryOp(w, ops[i]);
      assert ops[..i + 1][..i] == ops[..i] && ops[..i + 1][i] == ops[i];
    }
    assert ops[..|ops|] == ops;
  }

  /** What is owed, notebook by notebook, each by the helper that dedupes it. */
  method QueueOwed(ops: seq<Op>, source: Source, rows: Rows, owed: Owed, collation: Collation)
    returns (queued: seq<Op>, ghost owes: seq<Owe>)
    ensures Enumerates(owes, OwesOf(rows, owed)) && queued == QueueAll(ops, source, owes)
    ensures InOrder(ByNotebook(collation), owes) && ByPathWithin(collation, owes)
    ensures forall owe :: owe in OwesOf(rows, owed) ==> exists op :: op in queued && IsOwedBy(op, source, owe)
    ensures forall op :: op in ops && (op.source != source || op.kind != Rmdir) ==> op in queued
  {
    hide QueueOne, OwesOf, IsOwedBy, InTurn, FoldersOwed, FilesOwed, NotesOwed, InOrder, ByNotebook,
      ByPathWithin, AreOfRank;
    var folders := Enumerate(FoldersOwed(owed));
    var files := Enumerate(FilesOwed(rows, owed));
    var notes := Enumerate(NotesOwed(rows, owed));
    var order := InTurn(collation, folders, files, notes);
    InTurnHasAll(collation, folders, files, notes);
    AllOwed(rows, owed, folders, files, notes, order);
    RanksOwed(rows, owed, folders, files, notes);
    InTurnByPath(collation, folders, files, notes);
    owes := order;
    queued := ops;
    assert order[0..] == order;
    for i := 0 to |order|
      invariant QueueAll(ops, source, order) == QueueAll(queued, source, order[i..])
    {
      assert order[i..][0] == order[i] && order[i..][1..] == order[i + 1..];
      queued := QueueOne(queued, source, order[i]);
    }
    assert order[|order|..] == [];
    QueueAllKeeps(ops, source, order);
  }

  function FoldersOwed(owed: Owed): set<Owe> {
    set path | path in owed.folders :: MakeNotebook(path)
  }

  function FilesOwed(rows: Rows, owed: Owed): set<Owe> {
    set id | id in owed.files && id in rows.files :: SendFile(id, rows.files[id].path)
  }

  function NotesOwed(rows: Rows, owed: Owed): set<Owe> {
    set id | id in owed.notes && id in rows.notes :: WriteNote(id, rows.notes[id].path)
  }

  lemma RanksOwed(rows: Rows, owed: Owed, folders: seq<Owe>, files: seq<Owe>, notes: seq<Owe>)
    requires Enumerates(folders, FoldersOwed(owed)) && Enumerates(files, FilesOwed(rows, owed))
    requires Enumerates(notes, NotesOwed(rows, owed))
    ensures AreOfRank(folders, 0) && AreOfRank(files, 1) && AreOfRank(notes, 2)
  {
    assert forall i :: 0 <= i < |folders| ==> folders[i] in FoldersOwed(owed);
    assert forall i :: 0 <= i < |files| ==> files[i] in FilesOwed(rows, owed);
    assert forall i :: 0 <= i < |notes| ==> notes[i] in NotesOwed(rows, owed);
  }

  /** The three in turn are everything owed, each once. */
  lemma AllOwed(rows: Rows, owed: Owed, folders: seq<Owe>, files: seq<Owe>, notes: seq<Owe>, order: seq<Owe>)
    requires Enumerates(folders, FoldersOwed(owed)) && Enumerates(files, FilesOwed(rows, owed))
    requires Enumerates(notes, NotesOwed(rows, owed))
    requires multiset(order) == multiset(folders) + multiset(files) + multiset(notes)
    ensures Enumerates(order, OwesOf(rows, owed))
  {
    assert OwesOf(rows, owed) == FoldersOwed(owed) + FilesOwed(rows, owed) + NotesOwed(rows, owed);
    EnumeratedOnce(folders, FoldersOwed(owed));
    EnumeratedOnce(files, FilesOwed(rows, owed));
    EnumeratedOnce(notes, NotesOwed(rows, owed));
    assert FoldersOwed(owed) !! FilesOwed(rows, owed) && FoldersOwed(owed) !! NotesOwed(rows, owed);
    assert FilesOwed(rows, owed) !! NotesOwed(rows, owed);
    hide FoldersOwed, FilesOwed, NotesOwed, OwesOf, Enumerates;
    var all := FoldersOwed(owed) + FilesOwed(rows, owed) + NotesOwed(rows, owed);
    assert multiset(order) == multiset(all);
    OnceEnumerates(order, all);
  }

  lemma {:induction false} EnumeratedOnce<T(!new)>(order: seq<T>, rows: set<T>)
    requires Enumerates(order, rows)
    ensures multiset(order) == multiset(rows)
    decreases |order|
  {
    if order == [] {
      assert rows == {};
    } else {
      EnumeratesRest(order, rows);
      EnumeratedOnce(order[1..], rows - {order[0]});
      assert order == [order[0]] + order[1..];
    }
  }

  lemma OnceEnumerates<T(!new)>(order: seq<T>, rows: set<T>)
    requires multiset(order) == multiset(rows)
    ensures Enumerates(order, rows)
  {
    forall x
      ensures x in order <==> x in rows
    {
      assert x in order <==> x in multiset(order);
    }
    forall i, j | 0 <= i < j < |order|
      ensures order[i] != order[j]
    {
      assert order == order[..j] + order[j..];
      assert multiset(order) == multiset(order[..j]) + multiset(order[j..]);
      assert order[..j][i] == order[i] && order[i] in multiset(order[..j]);
      assert order[j..][0] == order[j] && order[j] in multiset(order[j..]);
      assert multiset(rows)[order[i]] <= 1;
    }
  }
}
