/**
  How a move places notes and notebooks in the source they go to (the first half of
  `moveRowsTo`, with `spellingsOn`, in apps/web/src/store/connection.ts).

  A resume takes a detached source's rows home to its own account; a copy takes rows
  to an account that has never heard of them.
 */
module MoveNotes {
  import opened Options
  import opened Paths
  import opened Naming
  import opened Library

  datatype Mode = Resume | Copy

  // ----- Notebooks ---------------------------------------------------------------------

  /** Notebooks as they are placed: the rows under the target so far, the spellings known, what is owed. */
  datatype Shelves = Shelves(folders: map<string, Folder>, spellings: Spellings, owed: set<string>)

  function PlaceFolder(mode: Mode, g: Shelves, path: string, folder: Folder): Shelves {
    if FoldPath(path) in g.spellings then g
    else
      var spelled := Respell(g.spellings, path);
      if mode == Resume && spelled.path == path then
        Shelves(g.folders[path := folder], spelled.spellings,
                if folder.remoteId.None? then g.owed + {path} else g.owed)
      else
        Shelves(g.folders[spelled.path := folder.(remoteId := None)], spelled.spellings, g.owed + {spelled.path})
  }

  /** The notebooks of `order` placed in turn; an order by depth spells every parent before its children. */
  function PlaceFolders(mode: Mode, g: Shelves, rows: map<string, Folder>, order: seq<string>): Shelves
    requires forall path :: path in order ==> path in rows
    decreases |order|
  {
    if order == [] then g
    else PlaceFolders(mode, PlaceFolder(mode, g, order[0], rows[order[0]]), rows, order[1..])
  }

  /** The spellings of the notebooks a source has. */
  function SpellingsFrom(order: seq<string>): Spellings {
    if order == [] then map[]
    else
      var last := order[|order| - 1];
      SpellingsFrom(order[..|order| - 1])[FoldPath(last) := last]
  }

  lemma {:induction false} SpellingsFromFaithful(order: seq<string>)
    ensures Faithful(SpellingsFrom(order))
    ensures forall path :: path in order ==> FoldPath(path) in SpellingsFrom(order)
    ensures forall folded :: folded in SpellingsFrom(order) ==> SpellingsFrom(order)[folded] in order
  {
    hide FoldPath;
    if order != [] {
      var rest, last := order[..|order| - 1], order[|order| - 1];
      SpellingsFromFaithful(rest);
      assert forall path :: path in order <==> path in rest || path == last;
    }
  }

  /** The table spells every notebook there is a row of as some row does. */
  ghost predicate SpelledByRows(folders: map<string, Folder>, spellings: Spellings) {
    forall path :: path in folders ==> FoldPath(path) in spellings && spellings[FoldPath(path)] in folders
  }

  ghost predicate Shelved(g: Shelves) {
    Faithful(g.spellings) && SpelledByRows(g.folders, g.spellings) && g.owed <= g.folders.Keys
  }

  /** No two rows are one directory exactly when the table spells each as it is. */
  lemma SpelledAreDistinct(folders: map<string, Folder>, spellings: Spellings)
    requires Faithful(spellings) && SpelledByRows(folders, spellings)
    ensures DistinctFolders(folders) <==>
              forall path :: path in folders ==> FoldPath(path) in spellings && spellings[FoldPath(path)] == path
  {
    hide FoldPath;
    if forall path :: path in folders ==> FoldPath(path) in spellings && spellings[FoldPath(path)] == path {
      forall p, q | p in folders && q in folders && FoldPath(p) == FoldPath(q)
        ensures p == q
      {
        assert spellings[FoldPath(p)] == p && spellings[FoldPath(q)] == q;
      }
    }
  }

  lemma PlaceFolderKeeps(mode: Mode, g: Shelves, path: string, folder: Folder)
    requires Shelved(g) && path != ROOT
    ensures var h := PlaceFolder(mode, g, path, folder);
            && Shelved(h)
            && (forall p :: p in g.folders ==> p in h.folders && h.folders[p] == g.folders[p])
            && (forall f :: f in g.spellings ==> f in h.spellings && h.spellings[f] == g.spellings[f])
            && FoldPath(path) in h.spellings
            && g.owed <= h.owed
            && (DistinctFolders(g.folders) ==> DistinctFolders(h.folders))
            && (forall p :: p in h.folders && p !in g.folders ==>
                  FoldPath(p) == FoldPath(path) && (p in h.owed || h.folders[p].remoteId.Some?))
  {
    hide FoldPath, Respell;
    if FoldPath(path) !in g.spellings {
      RespellIsFaithful(g.spellings, path);
      var spelled := Respell(g.spellings, path);
      assert spelled.path !in g.folders;
    }
  }

  /**
    Notebooks land beside the target's own without becoming one with another: every
    one of the target's stays as it is, every one placed is new there, each notebook
    that left is there in some spelling, and no two are one directory that were not.
   */
  lemma {:induction false} FoldersArePlaced(mode: Mode, g: Shelves, rows: map<string, Folder>, order: seq<string>)
    requires Shelved(g) && forall path :: path in order ==> path in rows && path != ROOT
    ensures var h := PlaceFolders(mode, g, rows, order);
            && Shelved(h)
            && (forall p :: p in g.folders ==> p in h.folders && h.folders[p] == g.folders[p])
            && (forall f :: f in g.spellings ==> f in h.spellings && h.spellings[f] == g.spellings[f])
            && (forall path :: path in order ==> FoldPath(path) in h.spellings)
            && (DistinctFolders(g.folders) ==> DistinctFolders(h.folders))
            && g.owed <= h.owed
            && (forall p :: p in h.folders && p !in g.folders ==> p in h.owed || h.folders[p].remoteId.Some?)
    decreases |order|
  {
    hide FoldPath, PlaceFolder, Shelved, DistinctFolders;
    if order != [] {
      assert order == [order[0]] + order[1..];
      assert order[0] in order;
      forall path | path in order[1..] ensures path in rows && path != ROOT {
        assert path in order;
      }
      PlaceFolderKeeps(mode, g, order[0], rows[order[0]]);
      FoldersArePlaced(mode, PlaceFolder(mode, g, order[0], rows[order[0]]), rows, order[1..]);
    }
  }

  /** The loop over the notebooks, with the spellings written to as it goes. */
  method ShelveFolders(mode: Mode, table: SpellingTable, folders: map<string, Folder>,
                       rows: map<string, Folder>, order: seq<string>)
    returns (placed: map<string, Folder>, owed: set<string>)
    requires forall path :: path in order ==> path in rows
    modifies table
    ensures PlaceFolders(mode, Shelves(folders, old(table.table), {}), rows, order)
            == Shelves(placed, table.table, owed)
  {
    hide FoldPath, Respell, PlaceFolder;
    placed, owed := folders, {};
    assert order[0..] == order;
    for i := 0 to |order|
      invariant PlaceFolders(mode, Shelves(folders, old(table.table), {}), rows, order)
                == PlaceFolders(mode, Shelves(placed, table.table, owed), rows, order[i..])
    {
      var path := order[i];
      assert order[i..][0] == path && order[i..][1..] == order[i + 1..] && path in order;
      placed, owed := ShelveOne(mode, table, placed, owed, path, rows[path]);
    }
    assert order[|order|..] == [];
  }

  method ShelveOne(mode: Mode, table: SpellingTable, folders: map<string, Folder>, owing: set<string>,
                   path: string, folder: Folder)
    returns (placed: map<string, Folder>, owed: set<string>)
    modifies table
    ensures PlaceFolder(mode, Shelves(folders, old(table.table), owing), path, folder)
            == Shelves(placed, table.table, owed)
  {
    hide FoldPath, Respell;
    placed, owed := folders, owing;
    if FoldPath(path) !in table.table {
      var spelled := table.Spell(path);
      if mode == Resume && spelled == path {
        placed := placed[path := folder];
        if folder.remoteId.None? {
          owed := owed + {path};
        }
      } else {
        placed := placed[spelled := folder.(remoteId := None)];
        owed := owed + {spelled};
      }
    }
  }

  // ----- Notes -------------------------------------------------------------------------

  /**
    What one move of notes is about: the rows leaving and which of them are taken,
    the target's own, where each lands, and what the moment is called.
   */
  datatype Moving = Moving(
    mode: Mode,
    notes: map<Id, Note>,
    taking: set<Id>,
    theirs: map<Id, Note>,
    twins: map<Id, Id>,
    landing: map<Id, Id>,
    queuedFor: set<Id>,
    stamp: Stamp)

  /** The target's own row of the same file, which only a resume can meet. */
  predicate HasTwin(c: Moving, id: Id)
    requires id in c.notes
  {
    c.mode == Resume && c.notes[id].remoteId.Some? && c.notes[id].remoteId.value in c.twins
  }

  /** A row with a twin that is deleted or clean: the twin stands for it, and it is not placed. */
  predicate Yields(c: Moving, id: Id)
    requires id in c.notes
  {
    HasTwin(c, id) && (c.notes[id].deleted || !c.notes[id].dirty)
  }

  /** Whether the row is placed under the target at all. */
  predicate Goes(c: Moving, id: Id)
    requires id in c.notes
  {
    id in c.taking && !Yields(c, id) && !(c.notes[id].deleted && c.mode == Copy)
  }

  /** The landing map is total and injective on the rows that do not yield, and `twins` finds every file the target names. */
  ghost predicate ValidMoving(c: Moving) {
    && c.taking <= c.notes.Keys
    && c.landing.Keys == c.notes.Keys
    && (forall r :: r in c.twins ==> c.twins[r] in c.theirs && c.theirs[c.twins[r]].remoteId == Some(r))
    && (forall i :: i in c.theirs && c.theirs[i].remoteId.Some? ==> c.theirs[i].remoteId.value in c.twins)
    && (forall id :: id in c.notes ==> LandsRight(c, id))
    && (forall i, j :: i in c.notes && j in c.notes && i != j && !Yields(c, i) && !Yields(c, j) ==>
          c.landing[i] != c.landing[j])
  }

  ghost predicate LandsRight(c: Moving, id: Id)
    requires id in c.notes && id in c.landing
    requires forall r :: r in c.twins ==> c.twins[r] in c.theirs
  {
    if Yields(c, id) then c.landing[id] == c.twins[c.notes[id].remoteId.value]
    else if HasTwin(c, id) || id in c.theirs then c.landing[id] !in c.theirs && c.landing[id] !in c.notes
    else c.landing[id] == id
  }

  /**
    Notes as they are placed: the rows under the target so far, the spellings, where
    each went, and which are owed as though new.
   */
  datatype Landed = Landed(notes: map<Id, Note>, spellings: Spellings, placed: map<Id, Id>, owed: set<Id>)

  /** A row placed under the target. */
  function Land(c: Moving, g: Landed, id: Id, row: Note, owed: bool): Landed
    requires id in c.landing
  {
    var to := c.landing[id];
    g.(notes := g.notes[to := row], placed := g.placed[id := to], owed := if owed then g.owed + {to} else g.owed)
  }

  /** The row with the file it had before anything else changes. */
  function Pinned(id: Id, note: Note): Note {
    note.(source := Some(NoteFile(id, note)))
  }

  /** A dirty row without a file or version, at `path`, pinned as the file it would be written as under `to`. */
  function ConflictCopy(to: Id, note: Note, path: string): Note {
    var copy := WithoutRemote(note).(path := path, dirty := true, source := None);
    copy.(source := Some(NoteFile(to, copy)))
  }

  /**
    The path a live row is given. With a twin it is a conflict path made of `taken` as it
    is, whole paths and not names; without one it is the path wanted, or else a free one.
   */
  function ChosenPath(c: Moving, id: Id, wanted: string, taken: set<string>): string
    requires id in c.notes
  {
    if HasTwin(c, id) then ConflictPath(wanted, c.stamp, taken)
    else if FoldPath(wanted) in taken then FreePath(wanted, taken)
    else wanted
  }

  /** The row, at the path chosen. A tombstone keeps its own. */
  function RowAt(c: Moving, id: Id, path: string): Note
    requires id in c.notes && id in c.landing
  {
    var note := c.notes[id];
    if note.deleted then Pinned(id, note)
    else if HasTwin(c, id) then ConflictCopy(c.landing[id], note, path)
    else if c.mode == Resume && path == note.path then Pinned(id, note)
    else WithoutRemote(Pinned(id, note)).(path := path, dirty := true)
  }

  /** Whether it is owed as though new. Nothing queued and no file is a note nothing would ever push. */
  predicate OwedAt(c: Moving, id: Id, path: string)
    requires id in c.notes
  {
    var note := c.notes[id];
    IsLive(note)
    && (HasTwin(c, id) || !(c.mode == Resume && path == note.path)
        || (note.remoteId.None? && id !in c.queuedFor))
  }

  function PlaceNote(c: Moving, g: Landed, id: Id): Landed
    requires id in c.notes && id in c.landing
  {
    var note := c.notes[id];
    if !Goes(c, id) then g
    else if note.deleted then Land(c, g, id, RowAt(c, id, note.path), false)
    else
      var wanted := NoteRespelled(g.spellings, note.path);
      var path := ChosenPath(c, id, wanted.path, LivePaths(g.notes));
      Land(c, g.(spellings := wanted.spellings), id, RowAt(c, id, path), OwedAt(c, id, path))
  }

  function PlaceNotes(c: Moving, g: Landed, order: seq<Id>): Landed
    requires forall id :: id in order ==> id in c.notes && id in c.landing
    decreases |order|
  {
    if order == [] then g else PlaceNotes(c, PlaceNote(c, g, order[0]), order[1..])
  }

  /** How a row placed stands to the row that left. */
  ghost predicate CarriedAs(c: Moving, id: Id, row: Note)
    requires id in c.notes && id in c.landing
  {
    var note := c.notes[id];
    && row.body == note.body && row.deleted == note.deleted
    && row.createdAt == note.createdAt && row.updatedAt == note.updatedAt
    && row == RowAt(c, id, row.path)
    && (IsUnsent(note) ==> IsUnsent(row))
    && (IsLive(note) ==> FoldPath(ParentPath(row.path)) == FoldPath(ParentPath(note.path)))
  }

  /** What a resume leaves as it is, and what everything else has lost: its file and its version. */
  lemma RowIsPinnedOrNew(c: Moving, id: Id, path: string)
    requires id in c.notes && id in c.landing && Goes(c, id)
    ensures var row := RowAt(c, id, path);
            || row == Pinned(id, c.notes[id])
            || (row.remoteId == None && row.remoteVersion == None && row.dirty && row.path == path)
    ensures c.mode == Copy ==> RowAt(c, id, path).remoteId == None && RowAt(c, id, path).dirty
    ensures !OwedAt(c, id, path) ==> RowAt(c, id, path) == Pinned(id, c.notes[id])
  {}

  lemma RowCarries(c: Moving, id: Id, path: string)
    requires id in c.notes && id in c.landing && Goes(c, id)
    requires c.notes[id].deleted ==> path == c.notes[id].path
    ensures var note, row := c.notes[id], RowAt(c, id, path);
            && row.path == path && row.body == note.body && row.deleted == note.deleted
            && row.createdAt == note.createdAt && row.updatedAt == note.updatedAt
            && (IsUnsent(note) ==> IsUnsent(row))
  {}

  lemma ChosenIsBeside(c: Moving, id: Id, wanted: string, taken: set<string>)
    requires id in c.notes && FoldPath(wanted) == FoldPath(c.notes[id].path)
    ensures FoldPath(ParentPath(ChosenPath(c, id, wanted, taken))) == FoldPath(ParentPath(c.notes[id].path))
  {
    hide FoldPath, FreePath, ConflictPath, ParentPath;
    SameFoldSameParent(wanted, c.notes[id].path);
    FreePathIsFree(wanted, taken);
    ConflictPathBeside(wanted, c.stamp, taken, taken);
  }

  /** One note placed: as itself, in its notebook, under the id it lands at. */
  lemma PlaceNoteCarries(c: Moving, g: Landed, id: Id)
    requires id in c.notes && id in c.landing && Faithful(g.spellings)
    ensures var h := PlaceNote(c, g, id);
            && Faithful(h.spellings)
            && (forall f :: f in g.spellings ==> f in h.spellings && h.spellings[f] == g.spellings[f])
            && (!Goes(c, id) ==> h == g)
            && (Goes(c, id) ==>
                  && h.placed == g.placed[id := c.landing[id]]
                  && h.notes == g.notes[c.landing[id] := h.notes[c.landing[id]]]
                  && CarriedAs(c, id, h.notes[c.landing[id]]))
  {
    hide FoldPath, ChosenPath, NoteRespelled, LivePaths, ParentPath, RowAt, OwedAt;
    if Goes(c, id) {
      var note := c.notes[id];
      if note.deleted {
        RowCarries(c, id, note.path);
      } else {
        NoteRespelledIsFaithful(g.spellings, note.path);
        var wanted := NoteRespelled(g.spellings, note.path).path;
        ChosenIsBeside(c, id, wanted, LivePaths(g.notes));
        RowCarries(c, id, ChosenPath(c, id, wanted, LivePaths(g.notes)));
      }
    }
  }

  lemma SameFoldSameParent(a: string, b: string)
    requires FoldPath(a) == FoldPath(b)
    ensures FoldPath(ParentPath(a)) == FoldPath(ParentPath(b))
  {
    hide FoldPath, PathSegments, ParentPath, FoldAll, Init;
    SameFold(a, b);
    ParentSegments(a);
    ParentSegments(b);
    FoldInit(PathSegments(a));
    FoldInit(PathSegments(b));
    SameFold(ParentPath(a), ParentPath(b));
  }

  lemma FoldInit(names: seq<string>)
    ensures FoldAll(Init(names)) == Init(FoldAll(names))
  {
    hide FoldName;
  }

  // ----- All the notes of a move -------------------------------------------------------

  /** The rows of `done` have been placed, each where it lands, beside the target's own as they were. */
  ghost predicate LandedSoFar(c: Moving, g: Landed, done: set<Id>)
    requires ValidMoving(c)
  {
    && done <= c.notes.Keys
    && Faithful(g.spellings)
    && g.placed.Keys == (set id | id in done && Goes(c, id))
    && (forall id :: id in g.placed ==> PlacedRight(c, g, id))
    && (forall k :: k in c.theirs ==> k in g.notes && g.notes[k] == c.theirs[k])
    && g.notes.Keys == c.theirs.Keys + g.placed.Values
    && g.owed <= g.placed.Values
  }

  ghost predicate PlacedRight(c: Moving, g: Landed, id: Id)
    requires id in g.placed
  {
    && id in c.notes && id in c.landing && Goes(c, id)
    && g.placed[id] == c.landing[id] && g.placed[id] in g.notes && g.placed[id] !in c.theirs
    && CarriedAs(c, id, g.notes[g.placed[id]])
    && (g.placed[id] in g.owed <==> OwedAt(c, id, g.notes[g.placed[id]].path))
  }

  lemma NoneIsLanded(c: Moving, spellings: Spellings)
    requires ValidMoving(c) && Faithful(spellings)
    ensures LandedSoFar(c, NoneLanded(c, spellings), {})
  {
    hide Faithful, Goes, LandsRight;
    var none: map<Id, Id> := map[];
    assert none.Values == {};
  }

  lemma LandsOnItsOwn(c: Moving, g: Landed, done: set<Id>, id: Id)
    requires ValidMoving(c) && LandedSoFar(c, g, done) && id in c.notes && id !in done && Goes(c, id)
    ensures c.landing[id] !in g.notes && c.landing[id] !in g.owed && c.landing[id] !in c.theirs
    ensures forall i :: i in g.placed ==> g.placed[i] != c.landing[id]
  {
    hide CarriedAs, Goes, OwedAt, Faithful;
    assert LandsRight(c, id);
    forall i | i in g.placed
      ensures g.placed[i] != c.landing[id]
    {
      assert PlacedRight(c, g, i) && i != id;
      GoesDoesNotYield(c, i);
      GoesDoesNotYield(c, id);
    }
    GoesDoesNotYield(c, id);
    assert c.landing[id] !in c.theirs;
  }

  lemma GoesDoesNotYield(c: Moving, id: Id)
    requires id in c.notes && Goes(c, id)
    ensures !Yields(c, id)
  {}

  lemma PlaceNoteOwes(c: Moving, g: Landed, id: Id)
    requires id in c.notes && id in c.landing && Goes(c, id) && c.landing[id] !in g.owed
    ensures var h := PlaceNote(c, g, id);
            && c.landing[id] in h.notes
            && h.owed == (if OwedAt(c, id, h.notes[c.landing[id]].path) then g.owed + {c.landing[id]} else g.owed)
  {
    hide ChosenPath, NoteRespelled, LivePaths;
  }

  lemma ValuesGrow(placed: map<Id, Id>, id: Id, to: Id)
    requires id !in placed
    ensures placed[id := to].Values == placed.Values + {to}
  {
    var more := placed[id := to];
    forall v | v in placed.Values + {to}
      ensures v in more.Values
    {
      if v == to {
        assert more[id] == to;
      } else {
        var i :| i in placed && placed[i] == v;
        assert more[i] == v;
      }
    }
  }

  lemma PlaceNoteLands(c: Moving, g: Landed, done: set<Id>, id: Id)
    requires ValidMoving(c) && LandedSoFar(c, g, done) && id in c.notes && id !in done
    ensures LandedSoFar(c, PlaceNote(c, g, id), done + {id})
  {
    hide CarriedAs, Goes, OwedAt, Faithful, PlaceNote, LandsRight, PlacedRight;
    PlaceNoteCarries(c, g, id);
    var h := PlaceNote(c, g, id);
    if Goes(c, id) {
      LandsOnItsOwn(c, g, done, id);
      PlaceNoteOwes(c, g, id);
      PlacedStays(c, g, h, id);
      LandedOne(c, g, h, done, id);
    } else {
      LandedNone(c, g, done, id);
    }
  }

  lemma LandedNone(c: Moving, g: Landed, done: set<Id>, id: Id)
    requires ValidMoving(c) && LandedSoFar(c, g, done) && id in c.notes && !Goes(c, id)
    ensures LandedSoFar(c, g, done + {id})
  {
    hide CarriedAs, Goes, OwedAt, Faithful, LandsRight, PlacedRight, ValidMoving;
    var before, after := set i | i in done && Goes(c, i), set i | i in done + {id} && Goes(c, i);
    assert before == after;
  }

  lemma LandedOne(c: Moving, g: Landed, h: Landed, done: set<Id>, id: Id)
    requires ValidMoving(c) && LandedSoFar(c, g, done) && id in c.notes && id !in done && Goes(c, id)
    requires id in c.landing && c.landing[id] !in c.theirs
    requires Faithful(h.spellings) && h.placed == g.placed[id := c.landing[id]]
    requires c.landing[id] in h.notes && h.notes == g.notes[c.landing[id] := h.notes[c.landing[id]]]
    requires h.owed <= g.owed + {c.landing[id]}
    requires forall i :: i in h.placed ==> PlacedRight(c, h, i)
    ensures LandedSoFar(c, h, done + {id})
  {
    hide CarriedAs, Goes, OwedAt, Faithful, LandsRight, PlacedRight, ValidMoving;
    ValuesGrow(g.placed, id, c.landing[id]);
    var before, after := set i | i in done && Goes(c, i), set i | i in done + {id} && Goes(c, i);
    assert after == before + {id};
    assert h.placed.Keys == g.placed.Keys + {id};
    assert h.notes.Keys == g.notes.Keys + {c.landing[id]};
    assert h.notes.Keys == c.theirs.Keys + h.placed.Values;
  }

  /** A note placed where nothing is leaves what was placed before it as it was. */
  lemma PlacedStays(c: Moving, g: Landed, h: Landed, id: Id)
    requires id in c.notes && id in c.landing && Goes(c, id)
    requires c.landing[id] !in g.notes && c.landing[id] !in g.owed && c.landing[id] !in c.theirs
    requires forall i :: i in g.placed ==> PlacedRight(c, g, i)
    requires h.placed == g.placed[id := c.landing[id]]
    requires c.landing[id] in h.notes && h.notes == g.notes[c.landing[id] := h.notes[c.landing[id]]]
    requires CarriedAs(c, id, h.notes[c.landing[id]])
    requires h.owed == if OwedAt(c, id, h.notes[c.landing[id]].path) then g.owed + {c.landing[id]} else g.owed
    ensures forall i :: i in h.placed ==> PlacedRight(c, h, i)
  {
    hide CarriedAs, Goes, OwedAt;
    forall i | i in h.placed
      ensures PlacedRight(c, h, i)
    {
      if i != id {
        assert PlacedRight(c, g, i);
      }
    }
  }

  function NoneLanded(c: Moving, spellings: Spellings): Landed {
    Landed(c.theirs, spellings, map[], {})
  }

  /**
    Every row that goes is placed, under a key of its own that nothing had, with its
    text, its times and its notebook; every row of the target's is as it was.
   */
  lemma {:induction false} NotesLand(c: Moving, g: Landed, done: set<Id>, order: seq<Id>)
    requires ValidMoving(c) && LandedSoFar(c, g, done)
    requires Enumerates(order, c.notes.Keys - done)
    ensures forall id :: id in order ==> id in c.notes && id in c.landing
    ensures LandedSoFar(c, PlaceNotes(c, g, order), c.notes.Keys)
    decreases |order|
  {
    hide PlaceNote, LandedSoFar;
    assert forall id :: id in order ==> id in c.notes.Keys - done;
    assert ValidMoving(c) ==> c.landing.Keys == c.notes.Keys;
    if order == [] {
      NothingToLand(order, c.notes.Keys - done);
      DoneIsWithin(c, g, done);
      assert forall id :: id in c.notes.Keys ==> id in done || id in c.notes.Keys - done;
      assert done == c.notes.Keys;
    } else {
      EnumeratesRest(order, c.notes.Keys - done);
      PlaceNoteLands(c, g, done, order[0]);
      assert c.notes.Keys - done - {order[0]} == c.notes.Keys - (done + {order[0]});
      NotesLand(c, PlaceNote(c, g, order[0]), done + {order[0]}, order[1..]);
    }
  }

  lemma NothingToLand(order: seq<Id>, rows: set<Id>)
    requires Enumerates(order, rows) && order == []
    ensures rows == {}
  {
    assert forall id :: id in rows ==> id in order;
  }

  lemma DoneIsWithin(c: Moving, g: Landed, done: set<Id>)
    requires ValidMoving(c) && LandedSoFar(c, g, done)
    ensures done <= c.notes.Keys
  {}

  // ----- One file, one note ------------------------------------------------------------

  /** A conflict copy is given a path that is taken: the guard `conflictPath` is not asked for. */
  predicate Clashes(c: Moving, g: Landed, id: Id)
    requires id in c.notes
  {
    Goes(c, id) && IsLive(c.notes[id]) && HasTwin(c, id)
    && FoldPath(ConflictPath(NoteRespelled(g.spellings, c.notes[id].path).path, c.stamp, LivePaths(g.notes)))
       in LivePaths(g.notes)
  }

  predicate NoClash(c: Moving, g: Landed, order: seq<Id>)
    requires forall id :: id in order ==> id in c.notes && id in c.landing
    decreases |order|
  {
    order == [] || (!Clashes(c, g, order[0]) && NoClash(c, PlaceNote(c, g, order[0]), order[1..]))
  }

  lemma FreeFromTaken(wanted: string, notes: map<Id, Note>)
    ensures FoldPath(if FoldPath(wanted) in LivePaths(notes) then FreePath(wanted, LivePaths(notes)) else wanted)
            !in LivePaths(notes)
  {
    hide FoldPath, FreePath;
    var taken := LivePaths(notes);
    FreePathIsFree(wanted, taken);
    forall folded | folded in taken
      ensures folded in FoldedPaths(taken)
    {
      var id :| id in notes && IsLive(notes[id]) && FoldPath(notes[id].path) == folded;
      FoldPathSegments(notes[id].path);
    }
  }

  lemma TakenGrows(notes: map<Id, Note>, to: Id, row: Note)
    requires to !in notes
    ensures LivePaths(notes[to := row]) == LivePaths(notes) + (if IsLive(row) then {FoldPath(row.path)} else {})
  {
    hide FoldPath;
    var more := notes[to := row];
    forall folded | folded in LivePaths(notes)
      ensures folded in LivePaths(more)
    {
      var id :| id in notes && IsLive(notes[id]) && FoldPath(notes[id].path) == folded;
      assert more[id] == notes[id];
    }
    if IsLive(row) {
      assert more[to] == row;
    }
  }

  lemma AddedDistinct(notes: map<Id, Note>, id: Id, row: Note)
    requires id !in notes
    ensures DistinctPaths(notes[id := row])
            <==> DistinctPaths(notes) && (IsLive(row) ==> FoldPath(row.path) !in LivePaths(notes))
  {
    hide FoldPath;
    var more := notes[id := row];
    if DistinctPaths(more) {
      forall i, j | i in notes && j in notes && i != j && IsLive(notes[i]) && IsLive(notes[j])
        ensures FoldPath(notes[i].path) != FoldPath(notes[j].path)
      {
        assert more[i] == notes[i] && more[j] == notes[j];
      }
      if IsLive(row) {
        forall i | i in notes && IsLive(notes[i])
          ensures FoldPath(notes[i].path) != FoldPath(row.path)
        {
          assert more[i] == notes[i] && more[id] == row;
        }
      }
    }
  }

  /** One note placed puts two notes at one path exactly when it clashes. */
  lemma PlaceNoteDistinct(c: Moving, g: Landed, id: Id)
    requires id in c.notes && id in c.landing && (Goes(c, id) ==> c.landing[id] !in g.notes)
    ensures DistinctPaths(PlaceNote(c, g, id).notes) <==> DistinctPaths(g.notes) && !Clashes(c, g, id)
  {
    hide FoldPath, NoteRespelled, LivePaths, FreePath, ConflictPath, DistinctPaths, OwedAt;
    if Goes(c, id) {
      var note := c.notes[id];
      AddedDistinct(g.notes, c.landing[id], PlaceNote(c, g, id).notes[c.landing[id]]);
      if IsLive(note) {
        var wanted := NoteRespelled(g.spellings, note.path).path;
        FreeFromTaken(wanted, g.notes);
        RowCarries(c, id, ChosenPath(c, id, wanted, LivePaths(g.notes)));
      } else {
        RowCarries(c, id, note.path);
      }
    }
  }

  /** As the rows are placed one by one: the paths stay distinct exactly while no placement clashes. */
  lemma {:induction false} PathsStayDistinctIff(c: Moving, g: Landed, done: set<Id>, order: seq<Id>)
    requires ValidMoving(c) && LandedSoFar(c, g, done)
    requires Enumerates(order, c.notes.Keys - done)
    ensures forall id :: id in order ==> id in c.notes && id in c.landing
    ensures DistinctPaths(PlaceNotes(c, g, order).notes) <==> DistinctPaths(g.notes) && NoClash(c, g, order)
    decreases |order|
  {
    hide PlaceNote, LandedSoFar, DistinctPaths, Clashes;
    assert forall id :: id in order ==> id in c.notes.Keys - done;
    assert ValidMoving(c) ==> c.landing.Keys == c.notes.Keys;
    if order != [] {
      EnumeratesRest(order, c.notes.Keys - done);
      var id := order[0];
      if Goes(c, id) {
        LandsOnItsOwn(c, g, done, id);
      }
      PlaceNoteDistinct(c, g, id);
      PlaceNoteLands(c, g, done, id);
      assert c.notes.Keys - done - {id} == c.notes.Keys - (done + {id});
      PathsStayDistinctIff(c, PlaceNote(c, g, id), done + {id}, order[1..]);
    }
  }
}
