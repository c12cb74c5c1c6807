/**
  A move whose rows meet nothing of the target's (`moveRowsTo` in
  apps/web/src/store/connection.ts): everything lands exactly where it was, and a resume
  brings the rows and the queue back as they were.
 */
module PlainMoves {
  import opened Options
  import opened Paths
  import opened Naming
  import opened Library
  import opened MoveNotes
  import opened MoveSpellings
  import opened MoveFiles
  import opened MoveRows
  import opened MoveKeeps
  import opened MoveQueue
  import opened MoveOutcomes

  // ----- One spelling ------------------------------------------------------------------

  /** Directories with those above them, no two of them spellings of one. */
  ghost predicate OneSpelling(dirs: set<string>) {
    && (forall dir :: dir in dirs ==> IsNormal(dir) && dir != ROOT && (ParentPath(dir) == ROOT || ParentPath(dir) in dirs))
    && (forall a, b :: a in dirs && b in dirs && FoldPath(a) == FoldPath(b) ==> a == b)
  }

  /** A path as it is stored, in one of the directories or at the top. */
  predicate IsIn(dirs: set<string>, path: string) {
    IsNormal(path) && path != ROOT && (ParentPath(path) == ROOT || ParentPath(path) in dirs)
  }

  ghost predicate TableIn(spellings: Spellings, dirs: set<string>) {
    forall folded :: folded in spellings ==> spellings[folded] in dirs && FoldPath(spellings[folded]) == folded
  }

  lemma Rejoined(path: string)
    requires IsNormal(path) && path != ROOT
    ensures JoinPath(ParentPath(path), Basename(path)) == path
    ensures PathDepth(ParentPath(path)) < PathDepth(path)
  {
    hide JoinPath, ParentPath, Basename;
    NormalIsRootOrNamed(path);
    ParentSegments(path);
    JoinPathSegments(ParentPath(path), Basename(path));
    SameNormal(JoinPath(ParentPath(path), Basename(path)), path);
  }

  /** A directory is respelled as itself, and what the table learns is it and what is above it. */
  lemma {:induction false} RespelledAsItIs(spellings: Spellings, path: string, dirs: set<string>)
    requires OneSpelling(dirs) && TableIn(spellings, dirs) && (path == ROOT || path in dirs)
    ensures var r := Respell(spellings, path);
            && r.path == path && TableIn(r.spellings, dirs)
            && (forall folded :: folded in spellings ==> folded in r.spellings && r.spellings[folded] == spellings[folded])
            && (forall folded :: folded in r.spellings && folded !in spellings ==>
                  r.spellings[folded] == path || PathDepth(r.spellings[folded]) < PathDepth(path))
            && (path != ROOT ==> FoldPath(path) in r.spellings)
    decreases |PathSegments(path)|, path != ROOT
  {
    hide FoldPath, JoinPath, ParentPath, Basename, PathDepth, TableIn;
    if path != ROOT {
      KnownAsItIs(spellings, path, dirs);
      if FoldPath(path) !in spellings {
        Rejoined(path);
        ParentSegments(path);
        RespelledAsItIs(spellings, ParentPath(path), dirs);
        var parent := Respell(spellings, ParentPath(path)).spellings;
        LearnedAsItIs(spellings, parent, path, dirs);
      }
    }
  }

  lemma KnownAsItIs(spellings: Spellings, path: string, dirs: set<string>)
    requires OneSpelling(dirs) && TableIn(spellings, dirs) && path in dirs
    ensures FoldPath(path) in spellings ==> spellings[FoldPath(path)] == path
    ensures IsNormal(path) && path != ROOT && (ParentPath(path) == ROOT || ParentPath(path) in dirs)
  {
    hide FoldPath, IsNormal, ParentPath;
  }

  lemma LearnedAsItIs(spellings: Spellings, parent: Spellings, path: string, dirs: set<string>)
    requires path in dirs && TableIn(parent, dirs) && FoldPath(path) !in spellings
    requires forall folded :: folded in spellings ==> folded in parent && parent[folded] == spellings[folded]
    requires forall folded :: folded in parent && folded !in spellings ==>
               parent[folded] == ParentPath(path) || PathDepth(parent[folded]) < PathDepth(ParentPath(path))
    requires PathDepth(ParentPath(path)) < PathDepth(path)
    ensures var r := parent[FoldPath(path) := path];
            && TableIn(r, dirs)
            && (forall folded :: folded in spellings ==> folded in r && r[folded] == spellings[folded])
            && (forall folded :: folded in r && folded !in spellings ==>
                  r[folded] == path || PathDepth(r[folded]) < PathDepth(path))
  {
    hide FoldPath, ParentPath, PathDepth;
  }

  lemma NoteRespelledAsItIs(spellings: Spellings, path: string, dirs: set<string>)
    requires OneSpelling(dirs) && TableIn(spellings, dirs) && IsIn(dirs, path)
    ensures NoteRespelled(spellings, path).path == path && TableIn(NoteRespelled(spellings, path).spellings, dirs)
  {
    hide FoldPath, JoinPath, ParentPath, Basename, Respell, OneSpelling, TableIn;
    Rejoined(path);
    RespelledAsItIs(spellings, ParentPath(path), dirs);
  }

  // ----- Notebooks ---------------------------------------------------------------------

  /** Of the directories left to place, the table knows those there are rows of and no others. */
  ghost predicate KnowsRows(g: Shelves, order: seq<string>) {
    forall path :: path in order ==> (FoldPath(path) in g.spellings <==> path in g.folders)
  }

  ghost predicate IsByDepth(order: seq<string>) {
    forall i, j :: 0 <= i < j < |order| ==> order[i] != order[j] && PathDepth(order[i]) <= PathDepth(order[j])
  }

  lemma PlainFolder(mode: Mode, g: Shelves, path: string, folder: Folder, dirs: set<string>, rest: seq<string>)
    requires OneSpelling(dirs) && TableIn(g.spellings, dirs) && IsByDepth([path] + rest) && KnowsRows(g, [path] + rest)
    requires forall each :: each in [path] + rest ==> each in dirs
    ensures var h := PlaceFolder(mode, g, path, folder);
            && TableIn(h.spellings, dirs) && KnowsRows(h, rest)
            && h.folders == if path in g.folders then g.folders else g.folders[path := ShelvedAs(mode, folder)]
  {
    hide FoldPath, Respell, PathDepth, ParentPath;
    var order := [path] + rest;
    assert order[0] == path && path in order;
    var h := PlaceFolder(mode, g, path, folder);
    if path !in g.folders {
      RespelledAsItIs(g.spellings, path, dirs);
      forall each | each in rest
        ensures FoldPath(each) in h.spellings <==> each in h.folders
      {
        var i :| 0 <= i < |rest| && rest[i] == each;
        assert order[i + 1] == each && each in order && order[0] != order[i + 1];
        var spelled := if FoldPath(each) in h.spellings then h.spellings[FoldPath(each)] else each;
        assert spelled == each && PathDepth(path) <= PathDepth(each);
      }
    } else {
      assert forall each :: each in rest ==> each in order;
    }
  }

  function ShelvedAs(mode: Mode, folder: Folder): Folder {
    if mode == Resume then folder else folder.(remoteId := None)
  }

  /** The directories of `order` are there beside the rows there were, which stand. */
  ghost predicate AreShelved(mode: Mode, before: map<string, Folder>, after: map<string, Folder>, rows: map<string, Folder>,
                             order: seq<string>)
  {
    && (forall path :: path in after <==> path in before || path in order)
    && (forall path :: path in before ==> path in after && after[path] == before[path])
    && (forall path :: path in order && path !in before ==> path in rows && after[path] == ShelvedAs(mode, rows[path]))
  }

  lemma {:induction false} PlainFolders(mode: Mode, g: Shelves, rows: map<string, Folder>, order: seq<string>, dirs: set<string>)
    requires OneSpelling(dirs) && TableIn(g.spellings, dirs) && IsByDepth(order) && KnowsRows(g, order)
    requires forall path :: path in order ==> path in rows && path in dirs
    ensures TableIn(PlaceFolders(mode, g, rows, order).spellings, dirs)
    ensures AreShelved(mode, g.folders, PlaceFolders(mode, g, rows, order).folders, rows, order)
    decreases |order|
  {
    hide OneSpelling, TableIn, PlaceFolder, IsByDepth, KnowsRows, AreShelved;
    if order == [] {
      NoneShelved(mode, g.folders, rows);
    } else {
      var path, rest := order[0], order[1..];
      RestByDepth(order);
      PlainFolder(mode, g, path, rows[path], dirs, rest);
      var next := PlaceFolder(mode, g, path, rows[path]);
      PlainFolders(mode, next, rows, rest, dirs);
      OneShelvedFirst(mode, g.folders, next.folders, PlaceFolders(mode, g, rows, order).folders, rows, path, rest);
    }
  }

  lemma RestByDepth(order: seq<string>)
    requires IsByDepth(order) && order != []
    ensures IsByDepth(order[1..]) && order[0] !in order[1..] && order == [order[0]] + order[1..]
    ensures order[0] in order && forall each :: each in order[1..] ==> each in order
  {
    hide PathDepth;
    assert forall i :: 0 <= i < |order[1..]| ==> order[1..][i] == order[i + 1];
  }

  lemma NoneShelved(mode: Mode, folders: map<string, Folder>, rows: map<string, Folder>)
    ensures AreShelved(mode, folders, folders, rows, [])
  {}

  lemma OneShelvedFirst(mode: Mode, before: map<string, Folder>, next: map<string, Folder>, after: map<string, Folder>,
                        rows: map<string, Folder>, path: string, rest: seq<string>)
    requires path in rows && path !in rest && AreShelved(mode, next, after, rows, rest)
    requires next == if path in before then before else before[path := ShelvedAs(mode, rows[path])]
    ensures AreShelved(mode, before, after, rows, [path] + rest)
  {
    hide ShelvedAs;
    assert forall each :: each in [path] + rest <==> each == path || each in rest;
  }

  // ----- Notes -------------------------------------------------------------------------

  /** The live notes that go are in the directories, at paths of their own, and are no files of the target's. */
  ghost predicate NotesMeetNothing(c: Moving, dirs: set<string>) {
    && (forall id :: id in c.notes && Goes(c, id) && IsLive(c.notes[id]) ==>
          IsIn(dirs, c.notes[id].path) && !HasTwin(c, id) && FoldPath(c.notes[id].path) !in LivePaths(c.theirs))
    && (forall i, j :: i in c.notes && j in c.notes && i != j && Goes(c, i) && Goes(c, j)
                       && IsLive(c.notes[i]) && IsLive(c.notes[j]) ==>
          FoldPath(c.notes[i].path) != FoldPath(c.notes[j].path))
  }

  /** Every live note placed is at the path it had. */
  ghost predicate AtTheirPaths(c: Moving, g: Landed) {
    forall id :: id in g.placed ==>
      id in c.notes && Goes(c, id) && g.placed[id] in g.notes
      && g.notes[g.placed[id]].path == c.notes[id].path && g.notes[g.placed[id]].deleted == c.notes[id].deleted
  }

  lemma PathIsNotTaken(c: Moving, g: Landed, dirs: set<string>, id: Id)
    requires NotesMeetNothing(c, dirs) && AtTheirPaths(c, g) && id in c.notes && Goes(c, id) && IsLive(c.notes[id])
    requires g.notes.Keys == c.theirs.Keys + g.placed.Values && id !in g.placed
    requires forall k :: k in c.theirs ==> k in g.notes && g.notes[k] == c.theirs[k]
    ensures FoldPath(c.notes[id].path) !in LivePaths(g.notes)
  {
    hide FoldPath, Goes, IsIn;
    forall k | k in g.notes && IsLive(g.notes[k])
      ensures FoldPath(g.notes[k].path) != FoldPath(c.notes[id].path)
    {
      if k in c.theirs {
        assert FoldPath(c.theirs[k].path) in LivePaths(c.theirs);
      } else {
        var other :| other in g.placed && g.placed[other] == k;
        assert other != id;
      }
    }
  }

  lemma PlainNote(c: Moving, g: Landed, done: set<Id>, id: Id, dirs: set<string>)
    requires ValidMoving(c) && LandedSoFar(c, g, done) && id in c.notes && id !in done
    requires OneSpelling(dirs) && TableIn(g.spellings, dirs) && NotesMeetNothing(c, dirs) && AtTheirPaths(c, g)
    ensures id in c.landing
    ensures AtTheirPaths(c, PlaceNote(c, g, id)) && TableIn(PlaceNote(c, g, id).spellings, dirs)
  {
    assert c.landing.Keys == c.notes.Keys;
    if Goes(c, id) {
      LandsOnItsOwn(c, g, done, id);
      PlacedSoFar(c, g, done);
      PlacedAreDone(c, g, done, id);
      hide ValidMoving, LandedSoFar, Goes, FoldPath, NoteRespelled, LivePaths, OwedAt, OneSpelling, TableIn, IsIn, HasTwin,
        ParentPath, Faithful;
      if IsLive(c.notes[id]) {
        PathIsNotTaken(c, g, dirs, id);
        assert IsIn(dirs, c.notes[id].path);
        NoteRespelledAsItIs(g.spellings, c.notes[id].path, dirs);
      }
      PlainLanding(c, g, id);
    }
  }

  lemma PlacedAreDone(c: Moving, g: Landed, done: set<Id>, id: Id)
    requires ValidMoving(c) && LandedSoFar(c, g, done) && id !in done
    ensures id !in g.placed
  {
    hide Goes, CarriedAs, OwedAt, LandsRight, Faithful;
    assert id in g.placed ==> id in g.placed.Keys;
  }

  lemma PlacedSoFar(c: Moving, g: Landed, done: set<Id>)
    requires ValidMoving(c) && LandedSoFar(c, g, done)
    ensures g.notes.Keys == c.theirs.Keys + g.placed.Values
    ensures forall k :: k in c.theirs ==> k in g.notes && g.notes[k] == c.theirs[k]
  {}

  lemma PlainLanding(c: Moving, g: Landed, id: Id)
    requires id in c.notes && id in c.landing && Goes(c, id) && AtTheirPaths(c, g)
    requires c.landing[id] !in g.notes && forall i :: i in g.placed ==> g.placed[i] != c.landing[id]
    requires IsLive(c.notes[id]) ==>
               && NoteRespelled(g.spellings, c.notes[id].path).path == c.notes[id].path
               && FoldPath(c.notes[id].path) !in LivePaths(g.notes) && !HasTwin(c, id)
    ensures AtTheirPaths(c, PlaceNote(c, g, id))
    ensures PlaceNote(c, g, id).spellings ==
              if c.notes[id].deleted then g.spellings else NoteRespelled(g.spellings, c.notes[id].path).spellings
  {
    hide Goes, FoldPath, NoteRespelled, LivePaths, OwedAt, HasTwin;
  }

  lemma {:induction false} PlainNotes(c: Moving, g: Landed, done: set<Id>, order: seq<Id>, dirs: set<string>)
    requires ValidMoving(c) && LandedSoFar(c, g, done) && Enumerates(order, c.notes.Keys - done)
    requires OneSpelling(dirs) && TableIn(g.spellings, dirs) && NotesMeetNothing(c, dirs) && AtTheirPaths(c, g)
    ensures forall id :: id in order ==> id in c.notes && id in c.landing
    ensures AtTheirPaths(c, PlaceNotes(c, g, order)) && TableIn(PlaceNotes(c, g, order).spellings, dirs)
    decreases |order|
  {
    hide PlaceNote, LandedSoFar, OneSpelling, TableIn, NotesMeetNothing, AtTheirPaths;
    assert forall id :: id in order ==> id in c.notes.Keys - done;
    MoveIsTotal(c);
    if order != [] {
      EnumeratesRest(order, c.notes.Keys - done);
      PlaceNoteLands(c, g, done, order[0]);
      PlainNote(c, g, done, order[0], dirs);
      assert c.notes.Keys - done - {order[0]} == c.notes.Keys - (done + {order[0]});
      PlainNotes(c, PlaceNote(c, g, order[0]), done + {order[0]}, order[1..], dirs);
    }
  }

  // ----- Files -------------------------------------------------------------------------

  /** The files left to place are in the directories, under names of their own that nothing has. */
  ghost predicate FilesMeetNothing(c: Carrying, g: Filed, order: seq<Id>, dirs: set<string>) {
    && (forall id :: id in order ==>
          id in c.files && id in c.landing && IsIn(dirs, c.files[id].path) && !IsKnown(c, id)
          && FoldPath(c.files[id].path) !in g.at && c.landing[id] !in g.files)
    && (forall i, j :: 0 <= i < j < |order| ==>
          FoldPath(c.files[order[i]].path) != FoldPath(c.files[order[j]].path) && c.landing[order[i]] != c.landing[order[j]])
  }

  /** A file comes, at the path it had, unless it is copied and there is nothing here to send. */
  ghost predicate ComesAsItWas(c: Carrying, g: Filed, id: Id)
    requires id in c.files && id in c.landing
  {
    if c.mode == Resume || IsSendable(c, id) then c.landing[id] in g.files && g.files[c.landing[id]].path == c.files[id].path
    else c.landing[id] !in g.files
  }

  lemma PlainFile(c: Carrying, g: Filed, id: Id, dirs: set<string>)
    requires id in c.files && id in c.landing && OneSpelling(dirs) && TableIn(g.spellings, dirs)
    requires IsIn(dirs, c.files[id].path) && !IsKnown(c, id) && FoldPath(c.files[id].path) !in g.at && c.landing[id] !in g.files
    ensures var h := PlaceFile(c, g, id);
            && TableIn(h.spellings, dirs) && ComesAsItWas(c, h, id)
            && h.at.Keys <= g.at.Keys + {FoldPath(c.files[id].path)}
            && h.files.Keys <= g.files.Keys + {c.landing[id]}
            && (forall k :: k in g.files ==> k in h.files && h.files[k] == g.files[k])
  {
    hide FoldPath, NoteRespelled, OneSpelling, TableIn, IsSendable, ConflictFilePath, IsIn, IsKnown;
    NoteRespelledAsItIs(g.spellings, c.files[id].path, dirs);
  }

  lemma {:induction false} PlainFiles(c: Carrying, g: Filed, order: seq<Id>, dirs: set<string>)
    requires OneSpelling(dirs) && TableIn(g.spellings, dirs) && FilesMeetNothing(c, g, order, dirs)
    ensures forall id :: id in order ==> id in c.files && id in c.landing
    ensures forall id :: id in order ==> ComesAsItWas(c, PlaceFiles(c, g, order), id)
    ensures forall k :: k in g.files ==> k in PlaceFiles(c, g, order).files && PlaceFiles(c, g, order).files[k] == g.files[k]
    ensures forall k :: k in PlaceFiles(c, g, order).files ==>
              k in g.files || exists id :: id in order && c.landing[id] == k
    decreases |order|
  {
    hide PlaceFile, OneSpelling, TableIn, IsIn, IsKnown, FoldPath, IsSendable;
    if order != [] {
      var first, rest := order[0], order[1..];
      assert first in order;
      PlainFile(c, g, first, dirs);
      var next := PlaceFile(c, g, first);
      StillMeetNothing(c, g, next, order, dirs);
      PlainFiles(c, next, rest, dirs);
      assert forall id :: id in rest ==> c.landing[id] != c.landing[first];
      assert forall id :: id in order ==> id == first || id in rest;
      assert forall id :: id in rest ==> id in order;
    }
  }

  lemma StillMeetNothing(c: Carrying, g: Filed, h: Filed, order: seq<Id>, dirs: set<string>)
    requires order != [] && FilesMeetNothing(c, g, order, dirs) && order[0] in order
    requires h.at.Keys <= g.at.Keys + {FoldPath(c.files[order[0]].path)}
    requires h.files.Keys <= g.files.Keys + {c.landing[order[0]]}
    ensures FilesMeetNothing(c, h, order[1..], dirs)
    ensures forall id :: id in order[1..] ==> id in c.landing && c.landing[id] != c.landing[order[0]]
  {
    hide IsIn, IsKnown, FoldPath;
    forall id | id in order[1..]
      ensures id in order && id in c.files && id in c.landing && FoldPath(c.files[id].path) !in h.at
              && c.landing[id] !in h.files && c.landing[id] != c.landing[order[0]]
    {
      var i :| 1 <= i < |order| && order[i] == id;
      assert order[i] in order;
    }
  }

  // ----- A whole move ------------------------------------------------------------------

  /**
    Nothing that goes meets anything of the target's: no file both name, no name both have,
    no two spellings of one directory; and no two of its own notes or files are one name.
   */
  ghost predicate MeetsNothing(t: Tables, m: Move, dirs: set<string>) {
    var from, theirs := RowsOf(t, m.from), RowsOf(t, m.target);
    && OneSpelling(dirs) && theirs.folders.Keys <= dirs && FoldersTaken(m, from) <= dirs
    && (forall id :: id in NotesTaken(m, from) ==> NoteMeetsNothing(m, from, theirs, dirs, id))
    && (forall i, j :: i in NotesTaken(m, from) && j in NotesTaken(m, from) && i != j
                       && IsLive(from.notes[i]) && IsLive(from.notes[j]) ==>
          FoldPath(from.notes[i].path) != FoldPath(from.notes[j].path))
    && (forall id :: id in FilesTaken(m, from) ==> FileMeetsNothing(m, from, theirs, dirs, id))
    && (forall i, j :: i in FilesTaken(m, from) && j in FilesTaken(m, from) && i != j ==>
          FoldPath(from.files[i].path) != FoldPath(from.files[j].path))
  }

  ghost predicate NoteMeetsNothing(m: Move, from: Rows, theirs: Rows, dirs: set<string>, id: Id)
    requires id in from.notes
  {
    && !MeetsItself(m, theirs, from.notes[id])
    && (IsLive(from.notes[id]) ==>
          && IsIn(dirs, from.notes[id].path)
          && forall k :: k in theirs.notes && IsLive(theirs.notes[k]) ==>
               FoldPath(theirs.notes[k].path) != FoldPath(from.notes[id].path))
  }

  ghost predicate FileMeetsNothing(m: Move, from: Rows, theirs: Rows, dirs: set<string>, id: Id)
    requires id in from.files
  {
    && IsIn(dirs, from.files[id].path) && !MeetsItsFile(m, theirs, from.files[id])
    && (forall k :: k in theirs.files ==> FoldPath(theirs.files[k].path) != FoldPath(from.files[id].path))
  }

  lemma FoldersLandPlainly(t: Tables, m: Move, p: Plan, dirs: set<string>)
    requires CanMove(t, m, p) && MeetsNothing(t, m, dirs)
    ensures forall path :: path in p.folders ==> path in RowsOf(t, m.from).folders
    ensures TableIn(Shelve(t, m, p).spellings, dirs)
    ensures AreShelved(m.mode, RowsOf(t, m.target).folders, Shelve(t, m, p).folders, RowsOf(t, m.from).folders, p.folders)
    ensures forall path :: path in p.folders <==> path in FoldersTaken(m, RowsOf(t, m.from))
  {
    FoldersAreTaken(t, m, p);
    FoldersInOrder(t, m, p);
    hide ValidPlan, WellFormed, AreShelved, OneSpelling, NoteMeetsNothing, FileMeetsNothing, FoldPath, PlaceFolders, PathDepth;
    var theirs := RowsOf(t, m.target);
    SpellingsFromFaithful(p.spelled);
    var none := Shelves(theirs.folders, SpellingsFrom(p.spelled), {});
    SpelledKnows(theirs.folders, p.spelled, dirs, p.folders);
    PlainFolders(m.mode, none, RowsOf(t, m.from).folders, p.folders, dirs);
  }

  lemma FoldersInOrder(t: Tables, m: Move, p: Plan)
    requires ValidPlan(t, m, p)
    ensures IsByDepth(p.folders) && Enumerates(p.spelled, RowsOf(t, m.target).folders.Keys)
    ensures forall path :: path in p.folders <==> path in FoldersTaken(m, RowsOf(t, m.from))
  {
    hide ValidMoving, ValidCarrying, AtTells, PathDepth;
  }

  lemma SpelledKnows(folders: map<string, Folder>, spelled: seq<string>, dirs: set<string>, order: seq<string>)
    requires OneSpelling(dirs) && folders.Keys <= dirs && Enumerates(spelled, folders.Keys)
    requires forall path :: path in order ==> path in dirs
    ensures TableIn(SpellingsFrom(spelled), dirs)
    ensures KnowsRows(Shelves(folders, SpellingsFrom(spelled), {}), order)
  {
    hide FoldPath, SpellingsFrom;
    SpellingsFromFaithful(spelled);
    assert forall path :: path in spelled <==> path in folders.Keys;
    forall path | path in order
      ensures FoldPath(path) in SpellingsFrom(spelled) <==> path in folders
    {
      var known := if FoldPath(path) in SpellingsFrom(spelled) then SpellingsFrom(spelled)[FoldPath(path)] else path;
      assert known in dirs && known == path;
    }
  }

  lemma NotesLandPlainly(t: Tables, m: Move, p: Plan, dirs: set<string>)
    requires CanMove(t, m, p) && MeetsNothing(t, m, dirs)
    ensures TableIn(Place(t, m, p).spellings, dirs) && AtTheirPaths(MovingOf(t, m, p), Place(t, m, p))
  {
    hide ValidPlan, WellFormed, Shelve, ValidMoving, ValidCarrying, AtTells, MeetsNothing, OneSpelling, TableIn, NormalSpellings,
      NormalFolders, AreShelved, NotesMeetNothing, Faithful, PlaceNotes, Enumerates, LandedSoFar, DistinctFolders, Arrives;
    FoldersLandPlainly(t, m, p, dirs);
    FoldersAreShelved(t, m, p);
    PlanIsValid(t, m, p);
    NotesMeet(t, m, p, dirs);
    DirsAreSpelledOnce(t, m, dirs);
    LandPlainly(MovingOf(t, m, p), Shelve(t, m, p).spellings, p.notes, dirs);
  }

  lemma LandPlainly(c: Moving, spellings: Spellings, order: seq<Id>, dirs: set<string>)
    requires ValidMoving(c) && Faithful(spellings) && Enumerates(order, c.notes.Keys)
    requires OneSpelling(dirs) && TableIn(spellings, dirs) && NotesMeetNothing(c, dirs)
    ensures forall id :: id in order ==> id in c.notes && id in c.landing
    ensures var landed := PlaceNotes(c, NoneLanded(c, spellings), order);
            TableIn(landed.spellings, dirs) && AtTheirPaths(c, landed)
  {
    hide ValidMoving, Faithful, OneSpelling, TableIn, NotesMeetNothing, LandedSoFar, PlaceNotes, Enumerates;
    NoneIsLanded(c, spellings);
    assert c.notes.Keys - {} == c.notes.Keys;
    PlainNotes(c, NoneLanded(c, spellings), {}, order, dirs);
  }

  lemma DirsAreSpelledOnce(t: Tables, m: Move, dirs: set<string>)
    requires MeetsNothing(t, m, dirs)
    ensures OneSpelling(dirs)
  {}

  lemma NotesMeet(t: Tables, m: Move, p: Plan, dirs: set<string>)
    requires CanMove(t, m, p) && MeetsNothing(t, m, dirs)
    ensures NotesMeetNothing(MovingOf(t, m, p), dirs)
  {
    hide ValidPlan, WellFormed, OneSpelling, IsIn, FoldPath, HasTwin, MeetsItself, Goes, ValidMoving, ValidCarrying, AtTells,
      FileMeetsNothing, FoldersTaken, FilesTaken, NotesTaken, NoteMeetsNothing, LivePaths;
    PlanIsValid(t, m, p);
    var c, from := MovingOf(t, m, p), RowsOf(t, m.from);
    assert c.taking == NotesTaken(m, from);
    forall id | id in from.notes && Goes(c, id)
      ensures id in NotesTaken(m, from)
      ensures IsLive(from.notes[id]) ==>
                IsIn(dirs, from.notes[id].path) && !HasTwin(c, id) && FoldPath(from.notes[id].path) !in LivePaths(c.theirs)
    {
      GoesIsTaken(c, id);
      TwinIsMet(t, m, p, id);
      MeetsNoPath(m, from, RowsOf(t, m.target), dirs, id);
    }
  }

  lemma MeetsNoPath(m: Move, from: Rows, theirs: Rows, dirs: set<string>, id: Id)
    requires id in from.notes && NoteMeetsNothing(m, from, theirs, dirs, id)
    ensures !MeetsItself(m, theirs, from.notes[id])
    ensures IsLive(from.notes[id]) ==> IsIn(dirs, from.notes[id].path) && FoldPath(from.notes[id].path) !in LivePaths(theirs.notes)
  {
    hide FoldPath, IsIn, MeetsItself;
  }

  lemma GoesIsTaken(c: Moving, id: Id)
    requires id in c.notes && Goes(c, id)
    ensures id in c.taking
  {}

  lemma FilesLandPlainly(t: Tables, m: Move, p: Plan, dirs: set<string>)
    requires CanMove(t, m, p) && MeetsNothing(t, m, dirs)
    ensures forall id :: id in FilesTaken(m, RowsOf(t, m.from)) ==>
              id in CarryingOf(t, m, p).files && id in p.fileIds && ComesAsItWas(CarryingOf(t, m, p), Carry(t, m, p), id)
  {
    NotesLandPlainly(t, m, p, dirs);
    PlanIsValid(t, m, p);
    FilesMeet(t, m, p, dirs);
    hide ValidPlan, WellFormed, Place, ValidMoving, AtTells, MeetsNothing, OneSpelling, TableIn, AtTheirPaths, ValidCarrying,
      FilesMeetNothing, PlaceFiles, ComesAsItWas;
    var c, theirs := CarryingOf(t, m, p), RowsOf(t, m.target);
    var none := NoneFiled(theirs.files, theirs.bytes, p.at, Place(t, m, p).spellings);
    DirsAreSpelledOnce(t, m, dirs);
    PlainFiles(c, none, p.files, dirs);
    assert forall id :: id in p.files <==> id in c.files.Keys;
  }

  lemma FilesMeet(t: Tables, m: Move, p: Plan, dirs: set<string>)
    requires CanMove(t, m, p) && MeetsNothing(t, m, dirs)
    requires Enumerates(p.files, CarryingOf(t, m, p).files.Keys) && AtTells(RowsOf(t, m.target).files, p.at)
    requires ValidCarrying(CarryingOf(t, m, p)) && CarryingOf(t, m, p).files.Keys == FilesTaken(m, RowsOf(t, m.from))
    ensures var theirs := RowsOf(t, m.target);
            FilesMeetNothing(CarryingOf(t, m, p), NoneFiled(theirs.files, theirs.bytes, p.at, Place(t, m, p).spellings), p.files, dirs)
  {
    hide ValidPlan, WellFormed, OneSpelling, Arrives, IsIn, FoldPath, ValidMoving, Place, NoteMeetsNothing, FoldersTaken, FilesTaken;
    var c, from, theirs := CarryingOf(t, m, p), RowsOf(t, m.from), RowsOf(t, m.target);
    forall id | id in p.files
      ensures id in c.files && id in c.landing && IsIn(dirs, c.files[id].path) && !IsKnown(c, id)
              && FoldPath(c.files[id].path) !in p.at && c.landing[id] !in theirs.files
    {
      assert id in c.files.Keys;
      assert FileMeetsNothing(m, from, theirs, dirs, id);
      FileIsMet(m.mode, theirs.files, from.files[id].remoteId);
      PathIsNotAt(theirs.files, p.at, from.files[id].path);
    }
  }

  lemma PathIsNotAt(files: map<Id, File>, at: map<string, File>, path: string)
    requires AtTells(files, at) && forall k :: k in files ==> FoldPath(files[k].path) != FoldPath(path)
    ensures FoldPath(path) !in at
  {
    hide FoldPath;
  }

  /** Where a note goes that goes, and a file that comes; something else where the map has none. */
  function To(ids: map<Id, Id>, id: Id): Id {
    if id in ids then ids[id] else id
  }

  /** Every note that goes is under the path it had. */
  ghost predicate NotesLandedThere(t: Tables, m: Move, after: Rows, noteIds: map<Id, Id>) {
    forall id :: id in RowsOf(t, m.from).notes && Arrives(t, m, id) ==>
      To(noteIds, id) in after.notes && after.notes[To(noteIds, id)].path == RowsOf(t, m.from).notes[id].path
  }

  /** Every notebook taken is there in its own spelling, with what it named if it was resumed; and none is that was not. */
  ghost predicate NotebooksLandedThere(mode: Mode, taken: map<string, Folder>, theirs: Rows, after: Rows) {
    && (forall path :: path in after.folders <==> path in theirs.folders || path in taken)
    && (forall path :: path in taken && path !in theirs.folders ==>
          after.folders[path] == Folder(if mode == Resume then taken[path].remoteId else None, taken[path].createdAt))
  }

  /** Every file taken is under the path it had, but that one copied stays out where its bytes are not here. */
  ghost predicate FilesLandedThere(m: Move, from: Rows, after: Rows, fileIds: map<Id, Id>) {
    forall id :: id in FilesTaken(m, from) ==>
      if m.mode == Resume || (id in from.bytes && HeldIsCurrent(from.files[id], from.bytes[id]))
      then To(fileIds, id) in after.files && after.files[To(fileIds, id)].path == from.files[id].path
      else To(fileIds, id) !in after.files
  }

  function TakenFolders(m: Move, from: Rows): map<string, Folder> {
    map path | path in from.folders && path in FoldersTaken(m, from) :: from.folders[path]
  }

  /** Everything lands exactly where it was. */
  lemma PlainMove(t: Tables, m: Move, p: Plan, dirs: set<string>)
    requires CanMove(t, m, p) && MeetsNothing(t, m, dirs)
    ensures var from, theirs, after := RowsOf(t, m.from), RowsOf(t, m.target), RowsOf(MoveRowsTo(t, m, p).tables, m.target);
            && NotesLandedThere(t, m, after, p.noteIds)
            && NotebooksLandedThere(m.mode, TakenFolders(m, from), theirs, after)
            && FilesLandedThere(m, from, after, p.fileIds)
  {
    MoveUnfolds(t, m, p);
    FoldersComeToTheirPaths(t, m, p, dirs);
    NotesComeToTheirPaths(t, m, p, dirs);
    FilesComeToTheirPaths(t, m, p, dirs);
    hide ValidPlan, WellFormed, Arrived, MoveRowsTo, MeetsNothing, TakenFolders, NotesLandedThere, NotebooksLandedThere,
      FilesLandedThere;
  }

  lemma FoldersComeToTheirPaths(t: Tables, m: Move, p: Plan, dirs: set<string>)
    requires CanMove(t, m, p) && MeetsNothing(t, m, dirs)
    ensures NotebooksLandedThere(m.mode, TakenFolders(m, RowsOf(t, m.from)), RowsOf(t, m.target), Arrived(t, m, p))
  {
    FoldersLandPlainly(t, m, p, dirs);
    hide ValidPlan, WellFormed, Place, Shelve, Carry, MeetsNothing, TableIn, AreShelved;
    TakenAreShelved(m, RowsOf(t, m.from), RowsOf(t, m.target), Arrived(t, m, p), p.folders);
  }

  lemma TakenAreShelved(m: Move, from: Rows, theirs: Rows, after: Rows, order: seq<string>)
    requires AreShelved(m.mode, theirs.folders, after.folders, from.folders, order)
    requires forall path :: path in order <==> path in FoldersTaken(m, from)
    ensures NotebooksLandedThere(m.mode, TakenFolders(m, from), theirs, after)
  {}

  lemma FilesComeToTheirPaths(t: Tables, m: Move, p: Plan, dirs: set<string>)
    requires CanMove(t, m, p) && MeetsNothing(t, m, dirs)
    ensures FilesLandedThere(m, RowsOf(t, m.from), Arrived(t, m, p), p.fileIds)
  {
    FilesLandPlainly(t, m, p, dirs);
    hide ValidPlan, WellFormed, Place, Shelve, Carry, MeetsNothing, HeldIsCurrent, FilesTaken;
  }

  lemma NotesComeToTheirPaths(t: Tables, m: Move, p: Plan, dirs: set<string>)
    requires CanMove(t, m, p) && MeetsNothing(t, m, dirs)
    ensures NotesLandedThere(t, m, Arrived(t, m, p), p.noteIds)
  {
    hide ValidPlan, WellFormed, Place, Shelve, MeetsNothing, TableIn, Arrives, Goes, ValidMoving, PlacedInNotebooks, SpellingsGrow,
      Faithful, CarriedAs, OwedAt;
    NotesLandPlainly(t, m, p, dirs);
    NotesArePlaced(t, m, p);
    var from, c, g := RowsOf(t, m.from), MovingOf(t, m, p), Place(t, m, p);
    forall id | id in from.notes && Arrives(t, m, id)
      ensures To(p.noteIds, id) in g.notes && g.notes[To(p.noteIds, id)].path == from.notes[id].path
    {
      GoesIffArrives(t, m, p, id);
      assert id in c.notes.Keys && id in g.placed;
      assert PlacedRight(c, g, id);
    }
  }

  // ----- A source that comes home ------------------------------------------------------

  /**
    Every note came, the very row it was but that what it serializes to is pinned; and its
    write is owed only where it was never sent and nothing was queued for it.
   */
  ghost predicate NotesCameWhole(from: Rows, queued: set<Id>, after: Rows, owed: set<Id>, noteIds: map<Id, Id>) {
    forall id :: id in from.notes ==> NoteCameWhole(id, from.notes[id], queued, after, owed, To(noteIds, id))
  }

  ghost predicate NoteCameWhole(id: Id, note: Note, queued: set<Id>, after: Rows, owed: set<Id>, to: Id) {
    && to in after.notes && after.notes[to] == note.(source := Some(NoteFile(id, note)))
    && (to in owed <==> IsLive(note) && note.remoteId.None? && id !in queued)
  }

  /** Every notebook came as it was, unless the target had it, and is to be made only where it names nothing. */
  ghost predicate NotebooksCameWhole(from: Rows, theirs: Rows, after: Rows, owed: set<string>) {
    && (forall path :: path in after.folders <==> path in theirs.folders || path in from.folders)
    && (forall path :: path in from.folders && path !in theirs.folders ==>
          && after.folders[path] == from.folders[path]
          && (path in owed <==> from.folders[path].remoteId.None?))
  }

  /** Every file came as it was, with the bytes it had. */
  ghost predicate FilesCameWhole(from: Rows, after: Rows, fileIds: map<Id, Id>) {
    forall id :: id in from.files ==> FileComesWhole(from, after, {}, id, To(fileIds, id))
  }

  /** The same op, of the source the rows went to, about the row as it is called there. */
  function Relabelled(op: Op, source: Source, noteIds: map<Id, Id>, fileIds: map<Id, Id>): Op {
    op.(source := source,
        noteId := if op.noteId.Some? then Some(To(noteIds, op.noteId.value)) else None,
        fileId := if op.fileId.Some? then Some(To(fileIds, op.fileId.value)) else None)
  }

  ghost predicate QueueCameWhole(before: seq<Op>, after: seq<Op>, from: Source, target: Source,
                                 noteIds: map<Id, Id>, fileIds: map<Id, Id>) {
    && |after| == |before|
    && forall i :: 0 <= i < |before| ==>
         after[i] == if before[i].source == from then Relabelled(before[i], target, noteIds, fileIds) else before[i]
  }

  predicate IsHomecoming(m: Move) {
    m.mode == Resume && m.only.Everything? && !m.keep
  }

  /** What is taken goes, but for a tombstone that is copied. */
  lemma TakenArrives(t: Tables, m: Move, dirs: set<string>, id: Id)
    requires MeetsNothing(t, m, dirs) && id in NotesTaken(m, RowsOf(t, m.from))
    ensures Arrives(t, m, id) <==> !(RowsOf(t, m.from).notes[id].deleted && m.mode == Copy)
  {
    hide OneSpelling, FileMeetsNothing, MeetsItself, FoldPath, IsIn;
    assert NoteMeetsNothing(m, RowsOf(t, m.from), RowsOf(t, m.target), dirs, id);
  }

  ghost function HavingQueued(t: Tables, source: Source): set<Id> {
    set id | id in RowsOf(t, source).notes && HasQueued(t.ops, source, id)
  }

  lemma NotesComeWhole(t: Tables, m: Move, p: Plan, dirs: set<string>)
    requires CanMove(t, m, p) && MeetsNothing(t, m, dirs) && IsHomecoming(m)
    ensures forall id :: id in RowsOf(t, m.from).notes ==> id in p.noteIds
    ensures NotesCameWhole(RowsOf(t, m.from), HavingQueued(t, m.from), RowsOf(MoveRowsTo(t, m, p).tables, m.target),
                           MoveRowsTo(t, m, p).owed.notes, p.noteIds)
  {
    PlainMove(t, m, p, dirs);
    hide ValidPlan, WellFormed, MeetsNothing, MoveRowsTo, HavingQueued, NoteCameWhole, NotesLandedThere, NotebooksLandedThere,
      FilesLandedThere;
    forall id | id in RowsOf(t, m.from).notes
      ensures id in p.noteIds
      ensures NoteCameWhole(id, RowsOf(t, m.from).notes[id], HavingQueued(t, m.from), RowsOf(MoveRowsTo(t, m, p).tables, m.target),
                            MoveRowsTo(t, m, p).owed.notes, To(p.noteIds, id))
    {
      OneNoteComes(t, m, p, dirs, id);
    }
  }

  lemma OneNoteComes(t: Tables, m: Move, p: Plan, dirs: set<string>, id: Id)
    requires CanMove(t, m, p) && MeetsNothing(t, m, dirs) && IsHomecoming(m) && id in RowsOf(t, m.from).notes
    requires NotesLandedThere(t, m, RowsOf(MoveRowsTo(t, m, p).tables, m.target), p.noteIds)
    ensures id in p.noteIds
    ensures NoteCameWhole(id, RowsOf(t, m.from).notes[id], HavingQueued(t, m.from), RowsOf(MoveRowsTo(t, m, p).tables, m.target),
                          MoveRowsTo(t, m, p).owed.notes, To(p.noteIds, id))
  {
    assert id in NotesTaken(m, RowsOf(t, m.from));
    TakenArrives(t, m, dirs, id);
    TakenMeetsNothing(t, m, dirs, id);
    RowsThatCome(t, m, p, id);
    hide ValidPlan, WellFormed, MeetsNothing, MoveRowsTo, HasQueued, NoteFile, MeetsItself, Arrives, NotesTaken;
  }

  lemma TakenMeetsNothing(t: Tables, m: Move, dirs: set<string>, id: Id)
    requires MeetsNothing(t, m, dirs) && id in NotesTaken(m, RowsOf(t, m.from))
    ensures !MeetsItself(m, RowsOf(t, m.target), RowsOf(t, m.from).notes[id])
  {
    hide OneSpelling, FileMeetsNothing, MeetsItself, FoldPath, IsIn;
    assert NoteMeetsNothing(m, RowsOf(t, m.from), RowsOf(t, m.target), dirs, id);
  }

  /** One file, as it comes. */
  ghost predicate FileComesWhole(from: Rows, after: Rows, owed: set<Id>, id: Id, to: Id)
    requires id in from.files
  {
    && to in after.files && after.files[to] == from.files[id] && to !in owed
    && (to in after.bytes <==> id in from.bytes)
    && (id in from.bytes ==> after.bytes[to] == from.bytes[id])
  }

  lemma OneFileComes(t: Tables, m: Move, p: Plan, dirs: set<string>, id: Id)
    requires CanMove(t, m, p) && MeetsNothing(t, m, dirs) && IsHomecoming(m) && id in RowsOf(t, m.from).files
    ensures id in p.fileIds && p.fileIds[id] !in RowsOf(t, m.target).files
    ensures FileComesWhole(RowsOf(t, m.from), RowsOf(MoveRowsTo(t, m, p).tables, m.target), MoveRowsTo(t, m, p).owed.files, id, p.fileIds[id])
  {
    MoveUnfolds(t, m, p);
    FilesLandPlainly(t, m, p, dirs);
    AllFilesCome(t, m, p);
    LandsElsewhere(t, m, p, id);
    hide ValidPlan, WellFormed, MeetsNothing, MoveRowsTo, Place, Shelve, Carry, CarryingOf, MeetsItsFile, FilesTaken, HeldIsCurrent,
      FoldPath, ParentPath;
    var from := RowsOf(t, m.from);
    FilesThatCome(t, m, p, p.fileIds[id]);
    var other :| other in FilesTaken(m, from) && other in p.fileIds && p.fileIds[other] == p.fileIds[id]
                 && IsFileOf(m.mode, other, from, p.fileIds[id], RowsOf(MoveRowsTo(t, m, p).tables, m.target),
                             MoveRowsTo(t, m, p).owed.files);
    LandsElsewhere(t, m, p, other);
    assert other == id;
  }

  lemma LandsElsewhere(t: Tables, m: Move, p: Plan, id: Id)
    requires CanMove(t, m, p) && IsHomecoming(m) && id in RowsOf(t, m.from).files
    ensures id in p.fileIds && p.fileIds[id] !in RowsOf(t, m.target).files
    ensures forall other :: other in RowsOf(t, m.from).files && other != id ==> other in p.fileIds && p.fileIds[other] != p.fileIds[id]
  {
    PlanIsValid(t, m, p);
    AllFilesCome(t, m, p);
    CarryingIsTheirs(t, m, p);
    hide ValidPlan, WellFormed, CarryingOf, ValidMoving, AtTells;
  }

  lemma AllFilesCome(t: Tables, m: Move, p: Plan)
    requires CanMove(t, m, p) && IsHomecoming(m)
    ensures var c, from := CarryingOf(t, m, p), RowsOf(t, m.from);
            c.files == from.files && c.bytes == from.bytes && c.mode == Resume && c.landing == p.fileIds
            && FilesTaken(m, from) == from.files.Keys
  {
    hide ValidPlan, WellFormed;
  }

  lemma FilesComeWhole(t: Tables, m: Move, p: Plan, dirs: set<string>)
    requires CanMove(t, m, p) && MeetsNothing(t, m, dirs) && IsHomecoming(m)
    ensures var moved, from := MoveRowsTo(t, m, p), RowsOf(t, m.from);
            && moved.owed.files == {}
            && (forall id :: id in from.files ==> id in p.fileIds)
            && FilesCameWhole(from, RowsOf(moved.tables, m.target), p.fileIds)
            && AsTheyWere(Carry(t, m, p)) == p.fileIds
  {
    AllFilesCome(t, m, p);
    CarryingIsTheirs(t, m, p);
    FilesArePlaced(t, m, p);
    OwedAreCarried(t, m, p);
    MoveUnfolds(t, m, p);
    hide ValidPlan, WellFormed, MeetsNothing, MoveRowsTo, Place, Shelve, Carry, CarryingOf, DistinctFiles, FiledSoFar, FileComesWhole,
      ValidCarrying, AsTheyWere;
    var c, g, from := CarryingOf(t, m, p), Carry(t, m, p), RowsOf(t, m.from);
    forall id | id in from.files
      ensures id in p.fileIds && c.landing[id] in g.files && c.landing[id] !in c.theirs && c.landing[id] !in g.owed
              && FileComesWhole(from, RowsOf(MoveRowsTo(t, m, p).tables, m.target), {}, id, p.fileIds[id])
    {
      OneFileComes(t, m, p, dirs, id);
      ComesUnowed(from, RowsOf(MoveRowsTo(t, m, p).tables, m.target), MoveRowsTo(t, m, p).owed.files, id, p.fileIds[id]);
    }
    AllAreAsTheyWere(c, RowsOf(t, m.target).bytes, g);
  }

  lemma ComesUnowed(from: Rows, after: Rows, owed: set<Id>, id: Id, to: Id)
    requires id in from.files && FileComesWhole(from, after, owed, id, to)
    ensures to in after.files && to !in owed && FileComesWhole(from, after, {}, id, to)
  {}

  lemma AllAreAsTheyWere(c: Carrying, theirBytes: map<Id, Held>, g: Filed)
    requires ValidCarrying(c) && FiledSoFar(c, theirBytes, g, c.files.Keys)
    requires forall id :: id in c.files ==> id in c.landing && c.landing[id] in g.files && c.landing[id] !in c.theirs
                                            && c.landing[id] !in g.owed
    ensures g.owed == {} && AsTheyWere(g) == c.landing
  {
    hide Faithful, AtTells, FileIsKept, FoldPath, ParentPath, IsSendable;
    forall id | id in c.files
      ensures id in g.placed && g.placed[id] == c.landing[id]
    {
      assert c.landing[id] in g.placed.Values;
      var other :| other in g.placed && g.placed[other] == c.landing[id];
      assert FiledAs(c, g, other);
    }
    forall to | to in g.placed.Values
      ensures to !in g.owed
    {
      var id :| id in g.placed && g.placed[id] == to;
      assert FiledAs(c, g, id);
    }
    assert AsTheyWere(g).Keys == c.landing.Keys;
  }

  lemma FoldersComeWhole(t: Tables, m: Move, p: Plan, dirs: set<string>)
    requires CanMove(t, m, p) && MeetsNothing(t, m, dirs) && IsHomecoming(m)
    ensures NotebooksCameWhole(RowsOf(t, m.from), RowsOf(t, m.target), RowsOf(MoveRowsTo(t, m, p).tables, m.target),
                               MoveRowsTo(t, m, p).owed.folders)
  {
    hide ValidPlan, WellFormed, MeetsNothing, MoveRowsTo, NotesLandedThere, FilesLandedThere, NotebooksLandedThere, IsHomecoming,
      TakenFolders, NotebooksCameWhole, RowsOf;
    PlainMove(t, m, p, dirs);
    NewNotebooksOwed(t, m, p);
    AllAreTaken(m, RowsOf(t, m.from));
    LandedWhole(RowsOf(t, m.from), RowsOf(t, m.target), RowsOf(MoveRowsTo(t, m, p).tables, m.target),
                MoveRowsTo(t, m, p).owed.folders);
  }

  lemma AllAreTaken(m: Move, from: Rows)
    requires IsHomecoming(m)
    ensures m.mode == Resume && TakenFolders(m, from) == from.folders
  {}

  lemma NewNotebooksOwed(t: Tables, m: Move, p: Plan)
    requires CanMove(t, m, p)
    ensures var after := RowsOf(MoveRowsTo(t, m, p).tables, m.target).folders;
            forall path :: path in after && path !in RowsOf(t, m.target).folders ==>
              (path in MoveRowsTo(t, m, p).owed.folders <==> after[path].remoteId.None?)
  {
    hide ValidPlan, WellFormed, MoveRowsTo;
    forall path | path in RowsOf(MoveRowsTo(t, m, p).tables, m.target).folders && path !in RowsOf(t, m.target).folders
      ensures path in MoveRowsTo(t, m, p).owed.folders <==>
                RowsOf(MoveRowsTo(t, m, p).tables, m.target).folders[path].remoteId.None?
    {
      NotebooksThatCome(t, m, p, path);
    }
  }

  lemma LandedWhole(from: Rows, theirs: Rows, after: Rows, owed: set<string>)
    requires NotebooksLandedThere(Resume, from.folders, theirs, after)
    requires forall path :: path in after.folders && path !in theirs.folders ==>
               (path in owed <==> after.folders[path].remoteId.None?)
    ensures NotebooksCameWhole(from, theirs, after, owed)
  {}

  // ----- The queue ---------------------------------------------------------------------

  lemma NoneYields(t: Tables, m: Move, p: Plan, dirs: set<string>)
    requires CanMove(t, m, p) && MeetsNothing(t, m, dirs) && IsHomecoming(m)
    ensures YieldedBy(MovingOf(t, m, p)) == {}
  {
    PlanIsValid(t, m, p);
    hide ValidPlan, WellFormed, MeetsNothing, ValidMoving, MeetsItself, HasTwin;
    forall id | id in RowsOf(t, m.from).notes
      ensures !HasTwin(MovingOf(t, m, p), id)
    {
      assert id in NotesTaken(m, RowsOf(t, m.from));
      TakenMeetsNothing(t, m, dirs, id);
      TwinIsMet(t, m, p, id);
    }
  }

  lemma QueueComesWhole(t: Tables, m: Move, p: Plan, dirs: set<string>)
    requires CanMove(t, m, p) && MeetsNothing(t, m, dirs) && IsHomecoming(m) && OpsNameRows(t, m.from)
    ensures QueueCameWhole(t.ops, MoveRowsTo(t, m, p).tables.ops, m.from, m.target, p.noteIds, p.fileIds)
  {
    MoveUnfolds(t, m, p);
    WhereOfAll(t, m, p, dirs);
    hide ValidPlan, WellFormed, MeetsNothing, MoveRowsTo, WhereOf, CarryOps, Arrived, Dropped, Carried, Relabelled;
    forall op | op in t.ops && op.source == m.from
      ensures !Dropped(WhereOf(t, m, p), op) && Carried(WhereOf(t, m, p), op) == Relabelled(op, m.target, p.noteIds, p.fileIds)
    {
      NotDropped(t, m, p, op);
    }
    CarriesEach(WhereOf(t, m, p), t.ops, p.fileIds);
  }

  /** Where everything went: each file as it was, and no note owed that something is queued for. */
  lemma WhereOfAll(t: Tables, m: Move, p: Plan, dirs: set<string>)
    requires CanMove(t, m, p) && MeetsNothing(t, m, dirs) && IsHomecoming(m)
    ensures var w := WhereOf(t, m, p);
            && w.m == m && w.noteIds == p.noteIds && w.yielded == {} && w.filesAsTheyWere == p.fileIds
            && (forall id :: id in RowsOf(t, m.from).notes && HasQueued(t.ops, m.from, id) ==> To(p.noteIds, id) !in w.owed)
            && (forall id :: id in RowsOf(t, m.from).files ==> id in p.fileIds)
  {
    MoveUnfolds(t, m, p);
    NoneYields(t, m, p, dirs);
    FilesComeWhole(t, m, p, dirs);
    NotesComeWhole(t, m, p, dirs);
    hide ValidPlan, WellFormed, MeetsNothing, MoveRowsTo, Place, Shelve, Carry, YieldedBy, AsTheyWere, MovingOf, CarryOps, NoteFile,
      Arrived, HasQueued, FilesCameWhole;
    assert forall id :: id in RowsOf(t, m.from).notes && HasQueued(t.ops, m.from, id) ==> id in HavingQueued(t, m.from);
  }

  lemma NotDropped(t: Tables, m: Move, p: Plan, op: Op)
    requires CanMove(t, m, p) && IsHomecoming(m) && OpsNameRows(t, m.from) && op in t.ops && op.source == m.from
    requires var w := WhereOf(t, m, p);
             && w.m == m && w.noteIds == p.noteIds && w.yielded == {} && w.filesAsTheyWere == p.fileIds
             && (forall id :: id in RowsOf(t, m.from).notes && HasQueued(t.ops, m.from, id) ==> To(p.noteIds, id) !in w.owed)
             && (forall id :: id in RowsOf(t, m.from).files ==> id in p.fileIds)
    ensures var w := WhereOf(t, m, p);
            !Dropped(w, op) && Carried(w, op) == Relabelled(op, m.target, p.noteIds, p.fileIds)
  {
    hide ValidPlan, WellFormed, WhereOf;
    assert op.noteId.Some? ==> HasQueued(t.ops, m.from, op.noteId.value);
  }

  lemma {:induction false} CarriesEach(w: Whereto, ops: seq<Op>, fileIds: map<Id, Id>)
    requires w.m.only.Everything?
    requires forall op :: op in ops && op.source == w.m.from ==>
               !Dropped(w, op) && Carried(w, op) == Relabelled(op, w.m.target, w.noteIds, fileIds)
    ensures QueueCameWhole(ops, CarryOps(w, ops), w.m.from, w.m.target, w.noteIds, fileIds)
    decreases |ops|
  {
    hide Dropped, Carried, Relabelled, QueueCameWhole;
    if ops == [] {
      NoQueueCame(w.m.from, w.m.target, w.noteIds, fileIds);
    } else {
      var front, last := ops[..|ops| - 1], ops[|ops| - 1];
      assert last in ops && (forall op :: op in front ==> op in ops) && ops == front + [last];
      CarriesEach(w, front, fileIds);
      OneMoreCame(front, CarryOps(w, front), last, w.m.from, w.m.target, w.noteIds, fileIds);
    }
  }

  lemma NoQueueCame(from: Source, target: Source, noteIds: map<Id, Id>, fileIds: map<Id, Id>)
    ensures QueueCameWhole([], [], from, target, noteIds, fileIds)
  {}

  lemma OneMoreCame(before: seq<Op>, after: seq<Op>, op: Op, from: Source, target: Source, noteIds: map<Id, Id>,
                    fileIds: map<Id, Id>)
    requires QueueCameWhole(before, after, from, target, noteIds, fileIds)
    ensures QueueCameWhole(before + [op], after + [if op.source == from then Relabelled(op, target, noteIds, fileIds) else op],
                           from, target, noteIds, fileIds)
  {
    hide Relabelled;
  }

  // ----- The theorem -------------------------------------------------------------------

  /**
    A source resumed where it meets nothing comes back whole: every row is the row it was,
    every op of its queue is queued in its place, and nothing is owed again but a note never
    sent that had nothing queued, and a notebook that names nothing.
   */
  lemma ResumeIsWhole(t: Tables, m: Move, p: Plan, dirs: set<string>)
    requires CanMove(t, m, p) && MeetsNothing(t, m, dirs) && IsHomecoming(m) && OpsNameRows(t, m.from)
    ensures var moved, from, theirs := MoveRowsTo(t, m, p), RowsOf(t, m.from), RowsOf(t, m.target);
            var after := RowsOf(moved.tables, m.target);
            && NotesCameWhole(from, HavingQueued(t, m.from), after, moved.owed.notes, p.noteIds)
            && NotebooksCameWhole(from, theirs, after, moved.owed.folders)
            && FilesCameWhole(from, after, p.fileIds) && moved.owed.files == {}
            && QueueCameWhole(t.ops, moved.tables.ops, m.from, m.target, p.noteIds, p.fileIds)
            && RowsOf(moved.tables, m.from) == NO_ROWS
  {
    NotesComeWhole(t, m, p, dirs);
    FilesComeWhole(t, m, p, dirs);
    FoldersComeWhole(t, m, p, dirs);
    QueueComesWhole(t, m, p, dirs);
    MoveUnfolds(t, m, p);
    hide ValidPlan, WellFormed, MeetsNothing, MoveRowsTo, QueueCameWhole, OpsNameRows, HavingQueued, NotesCameWhole,
      NotebooksCameWhole, FilesCameWhole, Arrived, AsTheyWere, Carry;
  }

  lemma IdsAreKept(t: Tables, m: Move, p: Plan)
    requires CanMove(t, m, p) && IsHomecoming(m) && RowsOf(t, m.target) == NO_ROWS
    ensures forall id :: To(p.noteIds, id) == id && To(p.fileIds, id) == id
  {
    PlanIsValid(t, m, p);
    AllFilesCome(t, m, p);
    CarryingIsTheirs(t, m, p);
    hide ValidPlan, WellFormed, AtTells;
    NoTwins(MovingOf(t, m, p));
    hide CarryingOf;
  }

  lemma NoTwins(c: Moving)
    requires ValidMoving(c) && c.theirs == map[]
    ensures forall id :: id in c.landing ==> c.landing[id] == id
  {
    forall id | id in c.landing
      ensures c.landing[id] == id
    {
      assert id in c.notes.Keys && LandsRight(c, id);
      assert forall r :: r !in c.twins;
    }
  }

  /** Nothing else is there, of a target that had nothing. */
  lemma NothingElseComes(t: Tables, m: Move, p: Plan)
    requires CanMove(t, m, p) && IsHomecoming(m) && RowsOf(t, m.target) == NO_ROWS
    ensures var from, after := RowsOf(t, m.from), RowsOf(MoveRowsTo(t, m, p).tables, m.target);
            && after.notes.Keys <= from.notes.Keys && after.files.Keys <= from.files.Keys
            && after.bytes.Keys <= after.files.Keys && from.bytes.Keys <= from.files.Keys
  {
    hide ValidPlan, MoveRowsTo, Arrives, Arrived, MeetsItsFile, IsFileOf, DistinctFolders, DistinctFiles;
    MoveUnfolds(t, m, p);
    IdsAreKept(t, m, p);
    NotesThatCome(t, m, p);
    TargetIsWellFormed(t, m, p);
    var from, after := RowsOf(t, m.from), RowsOf(MoveRowsTo(t, m, p).tables, m.target);
    forall k | k in after.files
      ensures k in from.files
    {
      FilesThatCome(t, m, p, k);
      var id :| id in FilesTaken(m, from) && id in p.fileIds && p.fileIds[id] == k;
      assert To(p.fileIds, id) == k;
    }
    forall k | k in after.notes
      ensures k in from.notes
    {
      var id :| id in from.notes && p.noteIds[id] == k;
      assert To(p.noteIds, id) == k;
    }
  }

  lemma SameRowsCame(from: Rows, queued: set<Id>, after: Rows, owed: Owed, noteIds: map<Id, Id>, fileIds: map<Id, Id>)
    requires NotesCameWhole(from, queued, after, owed.notes, noteIds) && NotebooksCameWhole(from, NO_ROWS, after, owed.folders)
    requires FilesCameWhole(from, after, fileIds)
    requires forall id :: To(noteIds, id) == id && To(fileIds, id) == id
    requires after.notes.Keys <= from.notes.Keys && after.files.Keys <= from.files.Keys
    requires after.bytes.Keys <= after.files.Keys && from.bytes.Keys <= from.files.Keys
    ensures after == Rows(map id | id in from.notes :: from.notes[id].(source := Some(NoteFile(id, from.notes[id]))),
                          from.folders, from.files, from.bytes)
  {
    hide NoteFile, To;
    forall id | id in from.notes
      ensures id in after.notes && after.notes[id] == from.notes[id].(source := Some(NoteFile(id, from.notes[id])))
    {
      assert To(noteIds, id) == id;
    }
    forall id | id in from.files
      ensures id in after.files && after.files[id] == from.files[id]
              && (id in after.bytes <==> id in from.bytes) && (id in from.bytes ==> after.bytes[id] == from.bytes[id])
    {
      assert To(fileIds, id) == id;
    }
    assert after.folders == from.folders && after.files == from.files;
    assert after.bytes.Keys == from.bytes.Keys;
  }

  lemma SameQueueCame(before: seq<Op>, after: seq<Op>, from: Source, target: Source, noteIds: map<Id, Id>, fileIds: map<Id, Id>)
    requires QueueCameWhole(before, after, from, target, noteIds, fileIds)
    requires forall id :: To(noteIds, id) == id && To(fileIds, id) == id
    ensures |after| == |before|
    ensures forall i :: 0 <= i < |before| ==>
              after[i] == if before[i].source == from then before[i].(source := target) else before[i]
  {
    hide To;
  }

  /**
    And where the target has nothing at all, its rows are then those that left, under the ids
    they had: a source detached and connected again under another id is what it was.
   */
  lemma HomeIsAsItWas(t: Tables, m: Move, p: Plan, dirs: set<string>)
    requires CanMove(t, m, p) && MeetsNothing(t, m, dirs) && IsHomecoming(m) && OpsNameRows(t, m.from)
    requires RowsOf(t, m.target) == NO_ROWS
    ensures var moved, from := MoveRowsTo(t, m, p), RowsOf(t, m.from);
            && RowsOf(moved.tables, m.target) ==
                 Rows(map id | id in from.notes :: from.notes[id].(source := Some(NoteFile(id, from.notes[id]))),
                      from.folders, from.files, from.bytes)
            && |moved.tables.ops| == |t.ops|
            && forall i :: 0 <= i < |t.ops| ==>
                 moved.tables.ops[i] == if t.ops[i].source == m.from then t.ops[i].(source := m.target) else t.ops[i]
  {
    hide ValidPlan, WellFormed, MeetsNothing, MoveRowsTo, NoteFile, HavingQueued, OpsNameRows, NotesCameWhole, NotebooksCameWhole,
      FilesCameWhole, QueueCameWhole, To;
    ResumeIsWhole(t, m, p, dirs);
    IdsAreKept(t, m, p);
    NothingElseComes(t, m, p);
    SameRowsCame(RowsOf(t, m.from), HavingQueued(t, m.from), RowsOf(MoveRowsTo(t, m, p).tables, m.target),
                 MoveRowsTo(t, m, p).owed, p.noteIds, p.fileIds);
    SameQueueCame(t.ops, MoveRowsTo(t, m, p).tables.ops, m.from, m.target, p.noteIds, p.fileIds);
  }
}
