/**
  How a move places the files beside the notes (`placeFiles` in
  apps/web/src/store/connection.ts).
 */
module MoveFiles {
  import opened Options
  import opened Paths
  import opened Naming
  import opened Library
  import opened MoveNotes

  /** The files leaving with the bytes held of them, the target's own, and the ids each would land at. */
  datatype Carrying = Carrying(
    mode: Mode, files: map<Id, File>, bytes: map<Id, Held>,
    theirs: map<Id, File>, landing: map<Id, Id>, stamp: Stamp)

  /** Files as they are placed: the target's rows so far, what is at each folded path, where each went, what is owed. */
  datatype Filed = Filed(
    files: map<Id, File>, bytes: map<Id, Held>, at: map<string, File>, spellings: Spellings,
    placed: map<Id, Id>, owed: set<Id>)

  function RemoteIds(files: map<Id, File>): set<Id> {
    set id | id in files && files[id].remoteId.Some? :: files[id].remoteId.value
  }

  /** The target's row of the same remote file stands. */
  predicate IsKnown(c: Carrying, id: Id)
    requires id in c.files
  {
    c.mode == Resume && c.files[id].remoteId.Some? && c.files[id].remoteId.value in RemoteIds(c.theirs)
  }

  /** The device holds the bytes the file has now. */
  predicate IsSendable(c: Carrying, id: Id)
    requires id in c.files
  {
    id in c.bytes && HeldIsCurrent(c.files[id], c.bytes[id])
  }

  predicate AsItWas(c: Carrying, id: Id, path: string)
    requires id in c.files
  {
    c.mode == Resume && path == c.files[id].path
  }

  function PathsAt(at: map<string, File>): set<string> {
    set folded | folded in at :: at[folded].path
  }

  /** The path wanted where it is free, and otherwise a conflict path in the same folder. */
  function FilePathFor(c: Carrying, at: map<string, File>, wanted: string): string {
    if FoldPath(wanted) !in at then wanted
    else ConflictFilePath(wanted, c.stamp, NamesIn(PathsAt(at), ParentPath(wanted)))
  }

  /** A file placed: as it was, or pending with its bytes pinned. */
  function FileAt(c: Carrying, g: Filed, id: Id, path: string): Filed
    requires id in c.files && id in c.landing
  {
    var file, to := c.files[id], c.landing[id];
    var same := AsItWas(c, id, path);
    var row := if same then file else File(path, None, None, file.size);
    Filed(g.files[to := row],
          if id !in c.bytes then g.bytes
          else g.bytes[to := if same then c.bytes[id] else Held(c.bytes[id].bytes, None, true)],
          g.at[FoldPath(path) := row],
          g.spellings,
          g.placed[id := to],
          if same then g.owed else g.owed + {to})
  }

  function PlaceFile(c: Carrying, g: Filed, id: Id): Filed
    requires id in c.files && id in c.landing
  {
    if IsKnown(c, id) then g
    else
      var file := c.files[id];
      var wanted := NoteRespelled(g.spellings, file.path);
      var h := g.(spellings := wanted.spellings);
      if FoldPath(wanted.path) in g.at && g.at[FoldPath(wanted.path)].size == file.size then h
      else
        var path := FilePathFor(c, g.at, wanted.path);
        if !AsItWas(c, id, path) && !IsSendable(c, id) then h
        else FileAt(c, h, id, path)
  }

  function PlaceFiles(c: Carrying, g: Filed, order: seq<Id>): Filed
    requires forall id :: id in order ==> id in c.files && id in c.landing
    decreases |order|
  {
    if order == [] then g else PlaceFiles(c, PlaceFile(c, g, order[0]), order[1..])
  }

  /** What each folded path is said to have is a row there, and every row is at one. */
  ghost predicate AtTells(files: map<Id, File>, at: map<string, File>) {
    && (forall id :: id in files ==> FoldPath(files[id].path) in at)
    && (forall folded :: folded in at ==> FoldPath(at[folded].path) == folded && IsRow(files, at[folded]))
  }

  ghost predicate IsRow(files: map<Id, File>, file: File) {
    exists id :: id in files && files[id] == file
  }

  ghost predicate ValidCarrying(c: Carrying) {
    && c.landing.Keys == c.files.Keys
    && (forall id :: id in c.files ==>
          if id in c.theirs then c.landing[id] !in c.theirs && c.landing[id] !in c.files else c.landing[id] == id)
    && (forall i, j :: i in c.files && j in c.files && i != j ==> c.landing[i] != c.landing[j])
  }

  /** How a file placed stands to the one that left. */
  ghost predicate FiledAs(c: Carrying, g: Filed, id: Id)
    requires id in c.files && id in g.placed
  {
    var file, to := c.files[id], g.placed[id];
    && id in c.landing && to == c.landing[id]
    && to in g.files && to !in c.theirs
    && g.files[to].size == file.size
    && FoldPath(ParentPath(g.files[to].path)) == FoldPath(ParentPath(file.path))
    && (to !in g.owed ==> g.files[to] == file && c.mode == Resume
                          && (id in c.bytes ==> to in g.bytes && g.bytes[to] == c.bytes[id]))
    && (to in g.owed ==> g.files[to].remoteId.None? && g.files[to].remoteVersion.None? && IsSendable(c, id)
                         && to in g.bytes && g.bytes[to] == Held(c.bytes[id].bytes, None, true))
  }

  /** Some row has this folded path and this size: to the provider the two are one file. */
  ghost predicate SameIsThere(files: map<Id, File>, file: File) {
    exists id :: id in files && FoldPath(files[id].path) == FoldPath(file.path) && files[id].size == file.size
  }

  /**
    A file is placed unless the target has it — by its remote id, or by its name and
    size — or there is nothing here to send.
   */
  ghost predicate FileIsKept(c: Carrying, g: Filed, id: Id)
    requires id in c.files
  {
    id in g.placed || IsKnown(c, id) || SameIsThere(g.files, c.files[id]) || !IsSendable(c, id)
  }

  ghost predicate FiledSoFar(c: Carrying, theirBytes: map<Id, Held>, g: Filed, done: set<Id>) {
    && done <= c.files.Keys
    && Faithful(g.spellings) && AtTells(g.files, g.at)
    && g.placed.Keys <= done
    && (forall id :: id in g.placed ==> FiledAs(c, g, id))
    && (forall id :: id in done ==> FileIsKept(c, g, id))
    && (forall k :: k in c.theirs ==> k in g.files && g.files[k] == c.theirs[k])
    && (forall k :: k in theirBytes ==> k in g.bytes && g.bytes[k] == theirBytes[k])
    && g.files.Keys == c.theirs.Keys + g.placed.Values
    && g.bytes.Keys <= g.files.Keys
    && g.owed <= g.placed.Values
  }

  lemma FiledOnItsOwn(c: Carrying, theirBytes: map<Id, Held>, g: Filed, done: set<Id>, id: Id)
    requires ValidCarrying(c) && FiledSoFar(c, theirBytes, g, done) && id in c.files && id !in done
    ensures c.landing[id] !in g.files && c.landing[id] !in g.owed && c.landing[id] !in g.bytes && c.landing[id] !in c.theirs
    ensures forall i :: i in g.placed ==> g.placed[i] != c.landing[id]
  {
    hide Faithful, AtTells, FileIsKept, IsSendable, FoldPath;
    forall i | i in g.placed
      ensures g.placed[i] != c.landing[id]
    {
      assert FiledAs(c, g, i) && i != id;
    }
  }

  /** A conflict name is for a file whose path some other file is at. */
  lemma FilePathIsFree(c: Carrying, files: map<Id, File>, at: map<string, File>, wanted: string)
    requires AtTells(files, at)
    ensures FoldPath(FilePathFor(c, at, wanted)) !in at
    ensures FoldPath(ParentPath(FilePathFor(c, at, wanted))) == FoldPath(ParentPath(wanted))
  {
    hide FoldPath, ConflictFilePath, ParentPath, NamesIn;
    ConflictFilePathBeside(wanted, c.stamp, PathsAt(at));
    forall folded | folded in at
      ensures folded in FoldedPaths(PathsAt(at))
    {
      assert FoldPath(at[folded].path) == folded && at[folded].path in PathsAt(at);
    }
  }

  lemma AtTellsMore(files: map<Id, File>, at: map<string, File>, to: Id, row: File)
    requires AtTells(files, at) && to !in files && FoldPath(row.path) !in at
    ensures AtTells(files[to := row], at[FoldPath(row.path) := row])
    ensures DistinctFiles(files) ==> DistinctFiles(files[to := row])
  {
    hide FoldPath;
    var more := files[to := row];
    assert more[to] == row;
    forall folded | folded in at
      ensures IsRow(more, at[folded])
    {
      var id :| id in files && files[id] == at[folded];
      assert more[id] == at[folded];
    }
  }

  /** One file at a path nothing is at. */
  lemma FileLands(c: Carrying, g: Filed, id: Id, path: string)
    requires id in c.files && id in c.landing && AtTells(g.files, g.at)
    requires FoldPath(path) !in g.at && FoldPath(ParentPath(path)) == FoldPath(ParentPath(c.files[id].path))
    requires AsItWas(c, id, path) || IsSendable(c, id)
    requires c.landing[id] !in g.files && c.landing[id] !in g.owed && c.landing[id] !in c.theirs
    ensures var h := FileAt(c, g, id, path);
            && AtTells(h.files, h.at) && (DistinctFiles(g.files) ==> DistinctFiles(h.files))
            && h.spellings == g.spellings
            && h.placed == g.placed[id := c.landing[id]]
            && h.files.Keys == g.files.Keys + {c.landing[id]}
            && (forall k :: k in g.files ==> h.files[k] == g.files[k])
            && h.bytes.Keys <= g.bytes.Keys + {c.landing[id]}
            && (forall k :: k in g.bytes && k != c.landing[id] ==> k in h.bytes && h.bytes[k] == g.bytes[k])
            && h.owed - {c.landing[id]} == g.owed
            && FiledAs(c, h, id)
  {
    hide FoldPath, ParentPath, AtTells, DistinctFiles, FiledAs;
    var row := if AsItWas(c, id, path) then c.files[id] else File(path, None, None, c.files[id].size);
    assert row.path == path;
    AtTellsMore(g.files, g.at, c.landing[id], row);
    FileLandsAs(c, g, id, path);
  }

  lemma FileLandsAs(c: Carrying, g: Filed, id: Id, path: string)
    requires id in c.files && id in c.landing
    requires FoldPath(ParentPath(path)) == FoldPath(ParentPath(c.files[id].path))
    requires AsItWas(c, id, path) || IsSendable(c, id)
    requires c.landing[id] !in g.owed && c.landing[id] !in c.theirs
    ensures FiledAs(c, FileAt(c, g, id, path), id)
  {
    hide FoldPath, ParentPath, HeldIsCurrent;
  }

  lemma FiledStay(c: Carrying, g: Filed, h: Filed, id: Id)
    requires id !in g.placed && id in c.landing && h.placed == g.placed[id := c.landing[id]]
    requires id in c.files && FiledAs(c, h, id)
    requires forall i :: i in g.placed ==> i in c.files && FiledAs(c, g, i) && g.placed[i] != c.landing[id]
    requires forall k :: k in g.files ==> k in h.files && h.files[k] == g.files[k]
    requires forall k :: k in g.bytes && k != c.landing[id] ==> k in h.bytes && h.bytes[k] == g.bytes[k]
    requires h.owed - {c.landing[id]} == g.owed
    ensures forall i :: i in h.placed ==> i in c.files && FiledAs(c, h, i)
  {
    hide FoldPath, ParentPath, IsSendable;
    forall i | i in h.placed
      ensures i in c.files && FiledAs(c, h, i)
    {
      if i != id {
        assert FiledAs(c, g, i);
      }
    }
  }

  lemma KeptStay(c: Carrying, g: Filed, h: Filed, done: set<Id>)
    requires done <= c.files.Keys && forall id :: id in done ==> FileIsKept(c, g, id)
    requires g.placed.Keys <= h.placed.Keys
    requires forall k :: k in g.files ==> k in h.files && h.files[k] == g.files[k]
    ensures forall id :: id in done ==> FileIsKept(c, h, id)
  {
    hide FoldPath, IsSendable, IsKnown;
    forall id | id in done
      ensures FileIsKept(c, h, id)
    {
      assert FileIsKept(c, g, id);
      if SameIsThere(g.files, c.files[id]) {
        var k :| k in g.files && FoldPath(g.files[k].path) == FoldPath(c.files[id].path) && g.files[k].size == c.files[id].size;
        assert h.files[k] == g.files[k];
      }
    }
  }

  /** Where one file goes: nowhere, or to a free path. */
  function PathTaken(c: Carrying, g: Filed, id: Id): Option<string>
    requires id in c.files
  {
    var wanted := NoteRespelled(g.spellings, c.files[id].path).path;
    if IsKnown(c, id) || (FoldPath(wanted) in g.at && g.at[FoldPath(wanted)].size == c.files[id].size) then None
    else
      var path := FilePathFor(c, g.at, wanted);
      if AsItWas(c, id, path) || IsSendable(c, id) then Some(path) else None
  }

  function SpellingsAfter(c: Carrying, g: Filed, id: Id): Spellings
    requires id in c.files
  {
    if IsKnown(c, id) then g.spellings else NoteRespelled(g.spellings, c.files[id].path).spellings
  }

  lemma PlaceFileUnfolds(c: Carrying, g: Filed, id: Id)
    requires id in c.files && id in c.landing
    ensures var spelled := g.(spellings := SpellingsAfter(c, g, id));
            PlaceFile(c, g, id) == match PathTaken(c, g, id) case None => spelled case Some(path) => FileAt(c, spelled, id, path)
  {
    hide FoldPath, NoteRespelled, FilePathFor, FileAt, IsSendable, AsItWas;
  }

  lemma SpellingsStay(c: Carrying, g: Filed, id: Id)
    requires id in c.files && Faithful(g.spellings)
    ensures var after := SpellingsAfter(c, g, id);
            && Faithful(after)
            && (forall f :: f in g.spellings ==> f in after && after[f] == g.spellings[f])
  {
    hide FoldPath, NoteRespelled, IsKnown;
    NoteRespelledIsFaithful(g.spellings, c.files[id].path);
  }

  lemma PathTakenIsFree(c: Carrying, g: Filed, id: Id)
    requires id in c.files && Faithful(g.spellings) && AtTells(g.files, g.at)
    ensures match PathTaken(c, g, id)
            case None => IsKnown(c, id) || SameIsThere(g.files, c.files[id]) || !IsSendable(c, id)
            case Some(path) =>
              && FoldPath(path) !in g.at
              && FoldPath(ParentPath(path)) == FoldPath(ParentPath(c.files[id].path))
              && (AsItWas(c, id, path) || IsSendable(c, id))
  {
    hide FoldPath, ParentPath, NoteRespelled, FilePathFor, IsSendable, AsItWas, IsKnown;
    var file := c.files[id];
    NoteRespelledIsFaithful(g.spellings, file.path);
    var wanted := NoteRespelled(g.spellings, file.path).path;
    var folded := FoldPath(wanted);
    if folded in g.at && g.at[folded].size == file.size {
      assert IsRow(g.files, g.at[folded]);
      var k :| k in g.files && g.files[k] == g.at[folded];
      assert FoldPath(g.files[k].path) == FoldPath(file.path);
    } else {
      FilePathIsFree(c, g.files, g.at, wanted);
      SameFoldSameParent(wanted, file.path);
    }
  }

  lemma PlaceFileKeeps(c: Carrying, theirBytes: map<Id, Held>, g: Filed, done: set<Id>, id: Id)
    requires ValidCarrying(c) && FiledSoFar(c, theirBytes, g, done) && id in c.files && id !in done
    requires theirBytes.Keys <= c.theirs.Keys
    ensures FiledSoFar(c, theirBytes, PlaceFile(c, g, id), done + {id})
    ensures DistinctFiles(g.files) ==> DistinctFiles(PlaceFile(c, g, id).files)
  {
    hide Faithful, AtTells, FiledAs, FoldPath, PlaceFile, FileAt, DistinctFiles, AsItWas, IsSendable, IsKnown,
      SameIsThere, PathTaken, SpellingsAfter, ParentPath;
    PlaceFileUnfolds(c, g, id);
    PathTakenIsFree(c, g, id);
    SpellingsStay(c, g, id);
    var spelled := g.(spellings := SpellingsAfter(c, g, id));
    match PathTaken(c, g, id) {
      case None =>
        FiledNone(c, theirBytes, g, spelled, done, id);
      case Some(path) =>
        FiledOnItsOwn(c, theirBytes, g, done, id);
        FiledByOne(c, theirBytes, g, spelled, done, id, path);
    }
  }

  lemma FiledByOne(c: Carrying, theirBytes: map<Id, Held>, g: Filed, spelled: Filed, done: set<Id>, id: Id, path: string)
    requires FiledSoFar(c, theirBytes, g, done) && id in c.files && id !in done && id in c.landing
    requires spelled == g.(spellings := spelled.spellings) && Faithful(spelled.spellings)
    requires FoldPath(path) !in g.at && FoldPath(ParentPath(path)) == FoldPath(ParentPath(c.files[id].path))
    requires AsItWas(c, id, path) || IsSendable(c, id)
    requires c.landing[id] !in g.files && c.landing[id] !in g.owed && c.landing[id] !in g.bytes && c.landing[id] !in c.theirs
    requires forall i :: i in g.placed ==> g.placed[i] != c.landing[id]
    ensures FiledSoFar(c, theirBytes, FileAt(c, spelled, id, path), done + {id})
    ensures DistinctFiles(g.files) ==> DistinctFiles(FileAt(c, spelled, id, path).files)
  {
    hide Faithful, AtTells, FiledAs, FileIsKept, FoldPath, FileAt, DistinctFiles, AsItWas, IsSendable, ParentPath;
    var h := FileAt(c, spelled, id, path);
    FileLands(c, spelled, id, path);
    FiledSameAs(c, g, spelled);
    FiledStay(c, spelled, h, id);
    FiledOne(c, theirBytes, g, h, done, id);
  }

  lemma FiledSameAs(c: Carrying, g: Filed, h: Filed)
    requires h == g.(spellings := h.spellings)
    requires forall i :: i in g.placed ==> i in c.files && FiledAs(c, g, i)
    ensures forall i :: i in h.placed ==> i in c.files && FiledAs(c, h, i)
  {
    hide FoldPath, ParentPath, IsSendable;
    forall i | i in h.placed
      ensures i in c.files && FiledAs(c, h, i)
    {
      assert FiledAs(c, g, i);
    }
  }

  lemma FiledNone(c: Carrying, theirBytes: map<Id, Held>, g: Filed, h: Filed, done: set<Id>, id: Id)
    requires FiledSoFar(c, theirBytes, g, done) && id in c.files
    requires Faithful(h.spellings) && h == g.(spellings := h.spellings)
    requires FileIsKept(c, h, id)
    ensures FiledSoFar(c, theirBytes, h, done + {id})
  {
    hide Faithful, AtTells, IsSendable, IsKnown, FoldPath, ParentPath, SameIsThere;
    forall i | i in g.placed
      ensures FiledAs(c, h, i)
    {
      assert FiledAs(c, g, i);
    }
    KeptStay(c, g, h, done);
  }

  lemma FiledOne(c: Carrying, theirBytes: map<Id, Held>, g: Filed, h: Filed, done: set<Id>, id: Id)
    requires FiledSoFar(c, theirBytes, g, done) && id in c.files && id !in done && id in c.landing
    requires Faithful(h.spellings) && AtTells(h.files, h.at)
    requires h.placed == g.placed[id := c.landing[id]]
    requires forall i :: i in h.placed ==> i in c.files && FiledAs(c, h, i)
    requires h.files.Keys == g.files.Keys + {c.landing[id]}
    requires forall k :: k in g.files ==> h.files[k] == g.files[k]
    requires h.bytes.Keys <= g.bytes.Keys + {c.landing[id]} && c.landing[id] !in g.bytes
    requires forall k :: k in g.bytes && k != c.landing[id] ==> k in h.bytes && h.bytes[k] == g.bytes[k]
    requires h.owed - {c.landing[id]} == g.owed
    ensures FiledSoFar(c, theirBytes, h, done + {id})
  {
    hide Faithful, AtTells, FiledAs, FileIsKept, FoldPath;
    KeptStay(c, g, h, done);
    PlacedIsKept(c, h, id);
    ValuesGrow(g.placed, id, c.landing[id]);
    KeysGrow(c.theirs.Keys, g.files.Keys, h.files.Keys, g.placed.Values, c.landing[id]);
    assert h.owed <= h.placed.Values;
  }

  lemma KeysGrow(theirs: set<Id>, before: set<Id>, after: set<Id>, placed: set<Id>, to: Id)
    requires before == theirs + placed && after == before + {to}
    ensures after == theirs + (placed + {to})
  {}

  lemma PlacedIsKept(c: Carrying, g: Filed, id: Id)
    requires id in c.files && id in g.placed
    ensures FileIsKept(c, g, id)
  {}

  /**
    Files land beside the target's own, under keys nothing had: each the row it was, or
    one pending with its bytes pinned. What this device could send is under the target
    afterwards, and no two files are one name if none were.
   */
  lemma {:induction false} FilesLand(c: Carrying, theirBytes: map<Id, Held>, g: Filed, done: set<Id>, order: seq<Id>)
    requires ValidCarrying(c) && FiledSoFar(c, theirBytes, g, done) && theirBytes.Keys <= c.theirs.Keys
    requires Enumerates(order, c.files.Keys - done)
    ensures forall id :: id in order ==> id in c.files && id in c.landing
    ensures FiledSoFar(c, theirBytes, PlaceFiles(c, g, order), c.files.Keys)
    ensures DistinctFiles(g.files) ==> DistinctFiles(PlaceFiles(c, g, order).files)
    decreases |order|
  {
    hide PlaceFile, FiledSoFar, DistinctFiles;
    assert forall id :: id in order ==> id in c.files.Keys - done;
    if order == [] {
      NothingToLand(order, c.files.Keys - done);
      FiledWithin(c, theirBytes, g, done);
      assert forall id :: id in c.files.Keys ==> id in done || id in c.files.Keys - done;
      assert done == c.files.Keys;
    } else {
      EnumeratesRest(order, c.files.Keys - done);
      PlaceFileKeeps(c, theirBytes, g, done, order[0]);
      assert c.files.Keys - done - {order[0]} == c.files.Keys - (done + {order[0]});
      FilesLand(c, theirBytes, PlaceFile(c, g, order[0]), done + {order[0]}, order[1..]);
    }
  }

  lemma FiledWithin(c: Carrying, theirBytes: map<Id, Held>, g: Filed, done: set<Id>)
    requires FiledSoFar(c, theirBytes, g, done)
    ensures done <= c.files.Keys
  {}

  /** Before any has been placed. */
  function NoneFiled(files: map<Id, File>, bytes: map<Id, Held>, at: map<string, File>, spellings: Spellings): Filed {
    Filed(files, bytes, at, spellings, map[], {})
  }
}
