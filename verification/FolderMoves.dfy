/**
  A notebook renamed or moved, with everything in it (`moveFolder` in
  apps/web/src/store/folders.ts).
 */
module FolderMoves {
  import opened Options
  import opened Paths
  import opened Naming
  import opened Library
  import opened MoveSpellings

  datatype Refusal = RootFolder | InsideItself | FolderExists

  /** What is being moved, both paths normalized. */
  datatype Rebase = Rebase(src: string, dst: string)

  function FoldersInside(rows: Rows, r: Rebase): set<string> {
    set path | path in rows.folders && IsWithin(path, r.src)
  }

  function NotesInside(rows: Rows, r: Rebase): set<Id> {
    set id | id in rows.notes && IsWithin(rows.notes[id].path, r.src)
  }

  function FilesInside(rows: Rows, r: Rebase): set<Id> {
    set id | id in rows.files && IsWithin(rows.files[id].path, r.src)
  }

  predicate IsNothing(rows: Rows, r: Rebase) {
    FoldersInside(rows, r) == {} && NotesInside(rows, r) == {} && FilesInside(rows, r) == {}
  }

  /** A notebook or a file at the destination, or under it, that is not itself on the move. Compared folded. */
  predicate IsOccupied(rows: Rows, r: Rebase) {
    || (exists path :: path in rows.folders && IsInTheWay(path, r))
    || (exists id :: id in rows.files && IsInTheWay(rows.files[id].path, r))
  }

  predicate IsInTheWay(path: string, r: Rebase) {
    IsWithin(FoldPath(path), FoldPath(r.dst)) && !IsWithin(path, r.src)
  }

  /** Why a move is refused, before anything is changed. */
  function Refused(rows: Rows, from: string, to: string): Option<Refusal> {
    var r := Rebase(NormalizePath(from), NormalizePath(to));
    if r.src == ROOT || r.dst == ROOT then Some(RootFolder)
    else if r.src == r.dst then None
    else if IsWithin(r.dst, r.src) then Some(InsideItself)
    else if !IsNothing(rows, r) && IsOccupied(rows, r) then Some(FolderExists)
    else None
  }

  /** Whether there is anything to do. */
  predicate Proceeds(rows: Rows, from: string, to: string) {
    var r := Rebase(NormalizePath(from), NormalizePath(to));
    Refused(rows, from, to).None? && r.src != r.dst && !IsNothing(rows, r)
  }

  // ----- Notebooks ---------------------------------------------------------------------

  /** `ensureFolder`: the path and every folder above it, compared exactly. */
  function Ensured(folders: map<string, Folder>, path: string, now: int): map<string, Folder> {
    map each | each in AncestorPaths(path) + [path] && each !in folders :: Folder(None, now)
  }

  /** The rows put back one by one under the destination, without the directory each was. */
  function PutUnder(folders: map<string, Folder>, rows: map<string, Folder>, r: Rebase, order: seq<string>): map<string, Folder>
    requires forall path :: path in order ==> path in rows
    decreases |order|
  {
    if order == [] then folders
    else
      var last := order[|order| - 1];
      PutUnder(folders, rows, r, order[..|order| - 1])[RebasePath(last, r.src, r.dst) := rows[last].(remoteId := None)]
  }

  function FoldersAfter(rows: Rows, r: Rebase, order: seq<string>, now: int): map<string, Folder>
    requires forall path :: path in order ==> path in rows.folders
  {
    var outside := rows.folders - FoldersInside(rows, r);
    PutUnder(outside + Ensured(outside, r.dst, now), rows.folders, r, order)
  }

  // ----- Notes -------------------------------------------------------------------------

  /** The paths that are settled before any live note is placed: those outside, and the tombstones' at the destination. */
  function SettledFirst(rows: Rows, r: Rebase): map<Id, string> {
    map id | id in rows.notes && (id !in NotesInside(rows, r) || rows.notes[id].deleted) ::
      if id in NotesInside(rows, r) then RebasePath(rows.notes[id].path, r.src, r.dst) else rows.notes[id].path
  }

  /** Each live note in turn, at its path under the destination or a free one beside it. */
  function Settle(rows: Rows, r: Rebase, settled: map<Id, string>, order: seq<Id>): map<Id, string>
    requires forall id :: id in order ==> id in rows.notes
    decreases |order|
  {
    if order == [] then settled
    else
      var path := FreePath(RebasePath(rows.notes[order[0]].path, r.src, r.dst), settled.Values);
      Settle(rows, r, settled[order[0] := path], order[1..])
  }

  function LiveInside(rows: Rows, r: Rebase): set<Id> {
    set id | id in NotesInside(rows, r) && id in rows.notes && IsLive(rows.notes[id])
  }

  function NotesAt(notes: map<Id, Note>, paths: map<Id, string>): map<Id, Note> {
    map id | id in notes :: if id in paths then notes[id].(path := paths[id]) else notes[id]
  }

  function FilesAfter(rows: Rows, r: Rebase): map<Id, File> {
    map id | id in rows.files ::
      if id in FilesInside(rows, r) then rows.files[id].(path := RebasePath(rows.files[id].path, r.src, r.dst)) else rows.files[id]
  }

  /** What the order of reading leaves to chance. */
  datatype FolderPlan = FolderPlan(folders: seq<string>, live: seq<Id>, now: int)

  ghost predicate ValidFolderPlan(rows: Rows, r: Rebase, p: FolderPlan) {
    && Enumerates(p.folders, FoldersInside(rows, r))
    && Enumerates(p.live, LiveInside(rows, r))
  }

  lemma PlanIsOfRows(rows: Rows, r: Rebase, p: FolderPlan)
    requires ValidFolderPlan(rows, r, p)
    ensures forall path :: path in p.folders ==> path in rows.folders
    ensures forall id :: id in p.live ==> id in rows.notes
  {
    assert forall path :: path in p.folders ==> path in FoldersInside(rows, r);
    assert forall id :: id in p.live ==> id in LiveInside(rows, r);
  }

  function RowsAfter(rows: Rows, r: Rebase, p: FolderPlan): Rows
    requires ValidFolderPlan(rows, r, p)
  {
    PlanIsOfRows(rows, r, p);
    Rows(NotesAt(rows.notes, Settle(rows, r, SettledFirst(rows, r), p.live)),
         FoldersAfter(rows, r, p.folders, p.now), FilesAfter(rows, r), rows.bytes)
  }

  // ----- Where notes land --------------------------------------------------------------

  /** A move of one folder to another, neither the root, of rows at paths as they are stored. */
  ghost predicate CanRebase(rows: Rows, r: Rebase) {
    && IsNormal(r.src) && r.src != ROOT && IsNormal(r.dst) && r.dst != ROOT
    && NormalFolders(rows.folders)
  }

  /** No path but its own is the same file as a live note's that has been placed. */
  ghost predicate Apart(settled: map<Id, string>, placed: set<Id>) {
    forall i, j :: i in placed && i in settled && j in settled && i != j ==> FoldPath(settled[i]) != FoldPath(settled[j])
  }

  function Members(order: seq<Id>): set<Id> {
    set id | id in order
  }

  lemma SettlesApart(settled: map<Id, string>, placed: set<Id>, id: Id, wanted: string)
    requires Apart(settled, placed) && id !in settled
    ensures Apart(settled[id := FreePath(wanted, settled.Values)], placed + {id})
  {
    hide FoldPath, FreePath;
    FreePathIsFree(wanted, settled.Values);
    var path := FreePath(wanted, settled.Values);
    forall j | j in settled
      ensures FoldPath(settled[j]) != FoldPath(path)
    {
      assert settled[j] in settled.Values;
      assert FoldPath(settled[j]) in FoldedPaths(settled.Values);
    }
  }

  /**
    Every live note that moves lands at a path no other note has or is about to have,
    live or deleted, moved or not; what was settled before stays where it was.
   */
  lemma {:induction false} LiveLandApart(rows: Rows, r: Rebase, settled: map<Id, string>, placed: set<Id>, order: seq<Id>)
    requires forall id :: id in order ==> id in rows.notes && id !in settled
    requires forall i, j :: 0 <= i < j < |order| ==> order[i] != order[j]
    requires Apart(settled, placed) && placed <= settled.Keys
    ensures var after := Settle(rows, r, settled, order);
            && after.Keys == settled.Keys + Members(order)
            && (forall id :: id in settled ==> after[id] == settled[id])
            && Apart(after, placed + Members(order))
    decreases |order|
  {
    hide FoldPath, FreePath, RebasePath, Apart;
    if order == [] {
      assert Members(order) == {};
      assert placed + {} == placed;
    } else {
      var id := order[0];
      var wanted := RebasePath(rows.notes[id].path, r.src, r.dst);
      var more := settled[id := FreePath(wanted, settled.Values)];
      assert id in order && forall each :: each in order[1..] ==> each in order && each != id;
      SettlesApart(settled, placed, id, wanted);
      LiveLandApart(rows, r, more, placed + {id}, order[1..]);
      assert Members(order) == {id} + Members(order[1..]);
      assert placed + {id} + Members(order[1..]) == placed + Members(order);
      assert settled.Keys + {id} + Members(order[1..]) == settled.Keys + Members(order);
    }
  }

  /** Where every note is settled, once all are. */
  lemma AllSettled(rows: Rows, r: Rebase, p: FolderPlan)
    requires ValidFolderPlan(rows, r, p)
    ensures forall id :: id in p.live ==> id in rows.notes
    ensures var paths := Settle(rows, r, SettledFirst(rows, r), p.live);
            && paths.Keys == rows.notes.Keys
            && Apart(paths, LiveInside(rows, r))
            && (forall id :: id in SettledFirst(rows, r) ==> paths[id] == SettledFirst(rows, r)[id])
  {
    PlanIsOfRows(rows, r, p);
    hide FoldPath, RebasePath, IsWithin, Settle, NotesInside, Apart, FoldersInside;
    assert Members(p.live) == LiveInside(rows, r);
    LiveAreNotFirst(rows, r);
    hide SettledFirst, LiveInside, Enumerates;
    LiveLandApart(rows, r, SettledFirst(rows, r), {}, p.live);
    assert {} + LiveInside(rows, r) == LiveInside(rows, r);
  }

  lemma LiveAreNotFirst(rows: Rows, r: Rebase)
    ensures forall id :: id in LiveInside(rows, r) ==> id !in SettledFirst(rows, r)
    ensures SettledFirst(rows, r).Keys + LiveInside(rows, r) == rows.notes.Keys
  {
    hide IsWithin, RebasePath;
  }

  /** What of a note a move of its notebook may change: where it is. */
  ghost predicate SameButPath(before: Note, after: Note) {
    after == before.(path := after.path)
  }

  /**
    A notebook's move: every note is the note it was but for its path, those outside are
    where they were, and a tombstone is exactly where its path leads; a live note that
    moves shares its path with no live note and no tombstone.
   */
  lemma NotesLandApart(rows: Rows, r: Rebase, p: FolderPlan)
    requires ValidFolderPlan(rows, r, p)
    ensures var after := RowsAfter(rows, r, p).notes;
            && after.Keys == rows.notes.Keys
            && (forall id :: id in rows.notes ==> SameButPath(rows.notes[id], after[id]))
            && (forall id :: id in rows.notes && id !in NotesInside(rows, r) ==> after[id] == rows.notes[id])
            && (forall id :: id in NotesInside(rows, r) && rows.notes[id].deleted ==>
                  after[id].path == RebasePath(rows.notes[id].path, r.src, r.dst))
            && (forall i, j :: i in LiveInside(rows, r) && j in rows.notes && i != j ==>
                  FoldPath(after[i].path) != FoldPath(after[j].path))
  {
    AllSettled(rows, r, p);
    hide FoldPath, RebasePath, IsWithin, Settle, FoldersAfter, FilesAfter;
  }

  /** So no two live notes are at one path afterwards exactly when none of those outside were. */
  lemma PathsStayDistinct(rows: Rows, r: Rebase, p: FolderPlan)
    requires ValidFolderPlan(rows, r, p)
    ensures DistinctPaths(RowsAfter(rows, r, p).notes) <==>
              DistinctPaths(map id | id in rows.notes && id !in NotesInside(rows, r) :: rows.notes[id])
  {
    NotesLandApart(rows, r, p);
    hide FoldPath, RebasePath, IsWithin, RowsAfter, SameButPath;
    var after, outside := RowsAfter(rows, r, p).notes, map id | id in rows.notes && id !in NotesInside(rows, r) :: rows.notes[id];
    if DistinctPaths(outside) {
      forall i, j | i in after && j in after && i != j && IsLive(after[i]) && IsLive(after[j])
        ensures FoldPath(after[i].path) != FoldPath(after[j].path)
      {
        assert SameButPath(rows.notes[i], after[i]) && SameButPath(rows.notes[j], after[j]);
        LiveStays(rows.notes[i], after[i]);
        LiveStays(rows.notes[j], after[j]);
        if i !in LiveInside(rows, r) && j !in LiveInside(rows, r) {
          assert outside[i] == after[i] && outside[j] == after[j];
        }
      }
    }
    if DistinctPaths(after) {
      forall i, j | i in outside && j in outside && i != j && IsLive(outside[i]) && IsLive(outside[j])
        ensures FoldPath(outside[i].path) != FoldPath(outside[j].path)
      {
        assert after[i] == outside[i] && after[j] == outside[j];
      }
    }
  }

  lemma LiveStays(before: Note, after: Note)
    requires SameButPath(before, after)
    ensures IsLive(after) == IsLive(before)
  {}

  // ----- Where notebooks and files land ------------------------------------------------

  /** One folded path within another, on segments. */
  lemma FoldWithin(path: string, folder: string)
    ensures IsWithin(FoldPath(path), FoldPath(folder)) <==> FoldSegments(folder) <= FoldSegments(path)
  {
    FoldPathSegments(path);
    FoldPathSegments(folder);
    WithinIsPrefix(FoldPath(path), FoldPath(folder));
  }

  lemma FoldConcatSegments(a: seq<string>, b: seq<string>)
    ensures FoldAll(a + b) == FoldAll(a) + FoldAll(b)
  {}

  /** A path moved is under the destination, folded the rest of it as it was. */
  lemma RebasedFold(path: string, r: Rebase)
    requires IsWithin(path, r.src) && PathSegments(r.src) != []
    ensures |FoldSegments(r.src)| == |PathSegments(r.src)| && FoldSegments(r.src) <= FoldSegments(path)
    ensures FoldSegments(RebasePath(path, r.src, r.dst)) == FoldSegments(r.dst) + FoldSegments(path)[|PathSegments(r.src)|..]
    ensures IsNormal(RebasePath(path, r.src, r.dst))
  {
    RebaseSegments(path, r.src, r.dst);
    var rest := PathSegments(path)[|PathSegments(r.src)|..];
    FoldConcatSegments(PathSegments(r.dst), rest);
    assert FoldAll(rest) == FoldSegments(path)[|PathSegments(r.src)|..];
    assert PathSegments(path) == PathSegments(r.src) + rest;
    FoldConcatSegments(PathSegments(r.src), rest);
  }

  /** Two paths moved are one file exactly when they were. */
  lemma RebaseKeepsFold(a: string, b: string, r: Rebase)
    requires IsWithin(a, r.src) && IsWithin(b, r.src) && PathSegments(r.src) != []
    ensures FoldPath(RebasePath(a, r.src, r.dst)) == FoldPath(RebasePath(b, r.src, r.dst)) <==> FoldPath(a) == FoldPath(b)
  {
    hide FoldPath, RebasePath, FoldSegments, IsWithin, PathSegments, IsNormal;
    RebasedFold(a, r);
    RebasedFold(b, r);
    SameFold(a, b);
    SameFold(RebasePath(a, r.src, r.dst), RebasePath(b, r.src, r.dst));
    SameRest(FoldSegments(r.src), FoldSegments(r.dst), FoldSegments(a), FoldSegments(b));
  }

  lemma SameRest(front: seq<string>, other: seq<string>, a: seq<string>, b: seq<string>)
    requires front <= a && front <= b
    ensures other + a[|front|..] == other + b[|front|..] <==> a == b
  {
    assert a == front + a[|front|..] && b == front + b[|front|..];
    if other + a[|front|..] == other + b[|front|..] {
      SameTail(other, a[|front|..], b[|front|..]);
    }
  }

  /** Nothing that stays is where anything moved to. */
  lemma MovedIsNotOutside(moved: string, outside: string, r: Rebase)
    requires IsWithin(moved, r.src) && PathSegments(r.src) != [] && !IsWithin(outside, r.src) && !IsInTheWay(outside, r)
    ensures FoldPath(RebasePath(moved, r.src, r.dst)) != FoldPath(outside)
  {
    hide FoldPath, RebasePath, FoldSegments;
    RebasedFold(moved, r);
    FoldWithin(outside, r.dst);
    SameFold(RebasePath(moved, r.src, r.dst), outside);
  }

  /** Files go where their folder goes, under the names they have, and no two become one. */
  lemma FilesStayDistinct(rows: Rows, r: Rebase)
    requires CanRebase(rows, r) && !IsOccupied(rows, r) && DistinctFiles(rows.files)
    ensures DistinctFiles(FilesAfter(rows, r))
  {
    NormalIsRootOrNamed(r.src);
    hide FoldPath, RebasePath, IsWithin, IsInTheWay;
    var after := FilesAfter(rows, r);
    forall i, j | i in after && j in after && FoldPath(after[i].path) == FoldPath(after[j].path)
      ensures i == j
    {
      var a, b := rows.files[i].path, rows.files[j].path;
      if i in FilesInside(rows, r) && j in FilesInside(rows, r) {
        RebaseKeepsFold(a, b, r);
      } else if i in FilesInside(rows, r) {
        assert !IsInTheWay(b, r);
        MovedIsNotOutside(a, b, r);
      } else if j in FilesInside(rows, r) {
        assert !IsInTheWay(a, r);
        MovedIsNotOutside(b, a, r);
      }
    }
  }

  /** The rows put under the destination, one by one. */
  lemma {:induction false} PutUnderAre(folders: map<string, Folder>, rows: map<string, Folder>, r: Rebase, order: seq<string>)
    requires forall path :: path in order ==> path in rows
    ensures var after := PutUnder(folders, rows, r, order);
            && (forall path :: path in order ==> RebasePath(path, r.src, r.dst) in after)
            && (forall q :: q in after ==> q in folders || exists path :: path in order && q == RebasePath(path, r.src, r.dst))
            && (forall q :: q in folders ==> q in after)
            && (forall q :: q in after && (q !in folders || exists path :: path in order && q == RebasePath(path, r.src, r.dst)) ==>
                  after[q].remoteId.None?)
            && (forall q :: q in folders && !(exists path :: path in order && q == RebasePath(path, r.src, r.dst)) ==>
                  after[q] == folders[q])
    decreases |order|
  {
    hide RebasePath;
    if order != [] {
      var front, last := order[..|order| - 1], order[|order| - 1];
      assert forall path :: path in order <==> path in front || path == last;
      PutUnderAre(folders, rows, r, front);
    }
  }

  /** A notebook of the result is one that stays, one above the destination, or one that moved. */
  ghost predicate IsNotebookAfter(rows: Rows, r: Rebase, q: string) {
    || (q in rows.folders && !IsWithin(q, r.src))
    || q in AncestorPaths(r.dst) || q == r.dst
    || (exists path :: path in FoldersInside(rows, r) && q == RebasePath(path, r.src, r.dst))
  }

  lemma NotebooksAfter(rows: Rows, r: Rebase, p: FolderPlan)
    requires ValidFolderPlan(rows, r, p)
    ensures forall q :: q in RowsAfter(rows, r, p).folders <==> IsNotebookAfter(rows, r, q)
  {
    PlanIsOfRows(rows, r, p);
    var outside := rows.folders - FoldersInside(rows, r);
    var start := outside + Ensured(outside, r.dst, p.now);
    PutUnderAre(start, rows.folders, r, p.folders);
    hide RebasePath, IsWithin, AncestorPaths, Settle, FilesAfter, PutUnder;
    var after := RowsAfter(rows, r, p).folders;
    assert after == PutUnder(start, rows.folders, r, p.folders);
    forall q
      ensures q in after <==> IsNotebookAfter(rows, r, q)
    {
      assert q in outside <==> q in rows.folders && !IsWithin(q, r.src);
      assert q in start <==> q in outside || q in AncestorPaths(r.dst) || q == r.dst;
      assert (exists path :: path in p.folders && q == RebasePath(path, r.src, r.dst))
             <==> (exists path :: path in FoldersInside(rows, r) && q == RebasePath(path, r.src, r.dst));
    }
  }

  /** The folders above the destination are spelled as the notebooks that are there are. */
  ghost predicate SpelledAsThere(rows: Rows, r: Rebase) {
    forall above, path ::
      above in AncestorPaths(r.dst) && path in rows.folders && !IsWithin(path, r.src) && FoldPath(above) == FoldPath(path) ==>
        above == path
  }

  /** Where a notebook of the result is, by its folded segments against the destination's. */
  lemma AboveIsShorter(r: Rebase, above: string)
    requires IsNormal(r.dst) && r.dst != ROOT && above in AncestorPaths(r.dst)
    ensures IsNormal(above) && |PathSegments(above)| < |PathSegments(r.dst)|
    ensures |FoldSegments(above)| == |PathSegments(above)| && |FoldSegments(r.dst)| == |PathSegments(r.dst)|
  {
    AncestorsArePrefixes(r.dst);
    NormalIsRootOrNamed(r.dst);
  }

  lemma TwoAbove(r: Rebase, a: string, b: string)
    requires IsNormal(r.dst) && r.dst != ROOT && a in AncestorPaths(r.dst) && b in AncestorPaths(r.dst)
    requires FoldPath(a) == FoldPath(b)
    ensures a == b
  {
    AncestorsArePrefixes(r.dst);
    SameFold(a, b);
    var all := AncestorPaths(r.dst);
    var i :| 0 <= i < |all| && all[i] == a;
    var j :| 0 <= j < |all| && all[j] == b;
    assert |FoldSegments(a)| == i + 1 && |FoldSegments(b)| == j + 1;
  }

  /** A notebook that moved, or the destination itself, against anything of the result. */
  lemma UnderIsUnique(rows: Rows, r: Rebase, a: string, b: string)
    requires CanRebase(rows, r) && !IsOccupied(rows, r) && DistinctFolders(rows.folders)
    requires (exists path :: path in FoldersInside(rows, r) && a == RebasePath(path, r.src, r.dst)) || a == r.dst
    requires IsNotebookAfter(rows, r, b) && FoldPath(a) == FoldPath(b)
    ensures a == b
  {
    NormalIsRootOrNamed(r.src);
    hide FoldPath, RebasePath, IsWithin, AncestorPaths, FoldSegments;
    SameFold(a, b);
    UnderIsWithin(rows, r, a);
    if b in AncestorPaths(r.dst) {
      AboveIsShorter(r, b);
    } else if b in rows.folders && !IsWithin(b, r.src) {
      assert !IsInTheWay(b, r);
      FoldWithin(b, r.dst);
    } else {
      UnderIsWithin(rows, r, b);
      UnderAreDistinct(rows, r, a, b);
    }
  }

  ghost predicate IsUnder(rows: Rows, r: Rebase, a: string) {
    (exists path :: path in FoldersInside(rows, r) && a == RebasePath(path, r.src, r.dst)) || a == r.dst
  }

  lemma UnderIsWithin(rows: Rows, r: Rebase, a: string)
    requires PathSegments(r.src) != [] && IsUnder(rows, r, a) && IsNormal(r.dst)
    ensures FoldSegments(r.dst) <= FoldSegments(a) && IsNormal(a)
    ensures |FoldSegments(a)| == |PathSegments(a)|
  {
    hide FoldPath, RebasePath, IsWithin;
    if exists path :: path in FoldersInside(rows, r) && a == RebasePath(path, r.src, r.dst) {
      var path :| path in FoldersInside(rows, r) && a == RebasePath(path, r.src, r.dst);
      RebasedFold(path, r);
    }
  }

  /** The source itself, moved, is the destination. */
  lemma SourceBecomesTarget(path: string, r: Rebase)
    requires IsWithin(path, r.src) && PathSegments(r.src) != [] && IsNormal(r.dst)
    requires FoldSegments(RebasePath(path, r.src, r.dst)) == FoldSegments(r.dst)
    ensures RebasePath(path, r.src, r.dst) == r.dst
  {
    hide FoldPath, RebasePath, IsWithin;
    RebasedFold(path, r);
    RebaseSegments(path, r.src, r.dst);
    var rest := PathSegments(path)[|PathSegments(r.src)|..];
    assert |FoldSegments(RebasePath(path, r.src, r.dst))| == |PathSegments(r.dst)| + |rest|;
    assert PathSegments(r.dst) + [] == PathSegments(r.dst);
    assert rest == [];
    SameNormal(RebasePath(path, r.src, r.dst), r.dst);
  }

  lemma UnderAreDistinct(rows: Rows, r: Rebase, a: string, b: string)
    requires CanRebase(rows, r) && DistinctFolders(rows.folders) && PathSegments(r.src) != []
    requires IsUnder(rows, r, a) && IsUnder(rows, r, b) && FoldPath(a) == FoldPath(b)
    ensures a == b
  {
    hide FoldPath, RebasePath, IsWithin, FoldSegments;
    SameFold(a, b);
    if a != r.dst && b != r.dst {
      var x :| x in FoldersInside(rows, r) && a == RebasePath(x, r.src, r.dst);
      var y :| y in FoldersInside(rows, r) && b == RebasePath(y, r.src, r.dst);
      RebaseKeepsFold(x, y, r);
    } else if a != r.dst {
      var x :| x in FoldersInside(rows, r) && a == RebasePath(x, r.src, r.dst);
      SourceBecomesTarget(x, r);
    } else if b != r.dst {
      var y :| y in FoldersInside(rows, r) && b == RebasePath(y, r.src, r.dst);
      SourceBecomesTarget(y, r);
    }
  }

  /**
    After a move that is not refused no two notebooks are one directory exactly when the
    folders above the destination are spelled as the notebooks there are: the missing ones
    are made by their exact paths, and the refusal looks only at the destination and under it.
   */
  lemma NotebooksStayDistinctIff(rows: Rows, r: Rebase, p: FolderPlan)
    requires ValidFolderPlan(rows, r, p) && CanRebase(rows, r) && !IsOccupied(rows, r) && DistinctFolders(rows.folders)
    ensures DistinctFolders(RowsAfter(rows, r, p).folders) <==> SpelledAsThere(rows, r)
  {
    NotebooksAfter(rows, r, p);
    hide FoldPath, RebasePath, IsWithin, AncestorPaths, RowsAfter, IsOccupied, CanRebase, ValidFolderPlan;
    var after := RowsAfter(rows, r, p).folders;
    if SpelledAsThere(rows, r) {
      forall a, b | a in after && b in after && FoldPath(a) == FoldPath(b)
        ensures a == b
      {
        assert IsNotebookAfter(rows, r, a) && IsNotebookAfter(rows, r, b);
        TwoNotebooks(rows, r, a, b);
      }
    }
    if DistinctFolders(after) {
      forall above, path
        | above in AncestorPaths(r.dst) && path in rows.folders && !IsWithin(path, r.src) && FoldPath(above) == FoldPath(path)
        ensures above == path
      {
        assert IsNotebookAfter(rows, r, above) && IsNotebookAfter(rows, r, path);
        assert above in after && path in after;
      }
    }
  }

  lemma TwoNotebooks(rows: Rows, r: Rebase, a: string, b: string)
    requires CanRebase(rows, r) && !IsOccupied(rows, r) && DistinctFolders(rows.folders) && SpelledAsThere(rows, r)
    requires IsNotebookAfter(rows, r, a) && IsNotebookAfter(rows, r, b) && FoldPath(a) == FoldPath(b)
    ensures a == b
  {
    hide FoldPath, RebasePath, IsWithin, AncestorPaths, IsOccupied;
    if IsUnder(rows, r, a) {
      UnderIsUnique(rows, r, a, b);
    } else if IsUnder(rows, r, b) {
      UnderIsUnique(rows, r, b, a);
    } else if a in AncestorPaths(r.dst) && b in AncestorPaths(r.dst) {
      TwoAbove(r, a, b);
    }
  }

  // ----- Nothing is left ---------------------------------------------------------------

  /** Two folders neither of which holds the other. */
  predicate AreDisjoint(r: Rebase) {
    !IsWithin(r.src, r.dst) && !IsWithin(r.dst, r.src)
  }

  lemma UnderDestinationIsOutside(path: string, r: Rebase)
    requires AreDisjoint(r) && IsWithin(path, r.dst)
    ensures !IsWithin(path, r.src)
  {
    hide IsWithin;
    WithinIsPrefix(path, r.dst);
    WithinIsPrefix(path, r.src);
    WithinIsPrefix(r.src, r.dst);
    WithinIsPrefix(r.dst, r.src);
    TwoPrefixes(PathSegments(r.src), PathSegments(r.dst), PathSegments(path));
  }

  lemma TwoPrefixes(a: seq<string>, b: seq<string>, whole: seq<string>)
    ensures a <= whole && b <= whole ==> a <= b || b <= a
  {
    if a <= whole && b <= whole {
      if |a| <= |b| {
        assert a == whole[..|a|] == b[..|a|];
      } else {
        assert b == whole[..|b|] == a[..|b|];
      }
    }
  }

  lemma RebasedIsWithin(path: string, r: Rebase)
    requires IsWithin(path, r.src) && PathSegments(r.src) != []
    ensures IsWithin(RebasePath(path, r.src, r.dst), r.dst)
  {
    hide IsWithin, RebasePath;
    RebaseSegments(path, r.src, r.dst);
    WithinIsPrefix(RebasePath(path, r.src, r.dst), r.dst);
  }

  /** A note inside a folder that gives way is still inside it: it takes another name where it is. */
  lemma GivingWayStaysInside(wanted: string, folder: string, taken: set<string>)
    requires IsWithin(wanted, folder) && PathSegments(wanted) != PathSegments(folder)
    ensures IsWithin(FreePath(wanted, taken), folder)
  {
    hide IsWithin, FreePath, ParentPath;
    WithinIsPrefix(wanted, folder);
    ParentSegments(wanted);
    FreeIsInTheSameNotebook(wanted, taken);
    var free := FreePath(wanted, taken);
    ParentSegments(free);
    WithinIsPrefix(free, folder);
    assert PathSegments(folder) <= PathSegments(ParentPath(wanted)) == PathSegments(ParentPath(free));
  }

  /** No note is at the folder's own path, where a directory is. */
  ghost predicate NotesAreInside(rows: Rows, r: Rebase) {
    forall id :: id in NotesInside(rows, r) && id in rows.notes ==> PathSegments(rows.notes[id].path) != PathSegments(r.src)
  }

  lemma {:induction false} SettledWithin(rows: Rows, r: Rebase, settled: map<Id, string>, order: seq<Id>)
    requires PathSegments(r.src) != [] && NotesAreInside(rows, r)
    requires forall id :: id in order ==> id in rows.notes && id in NotesInside(rows, r)
    ensures forall id :: id in Settle(rows, r, settled, order) ==>
              id in order || (id in settled && Settle(rows, r, settled, order)[id] == settled[id])
    ensures forall id :: id in settled ==> id in Settle(rows, r, settled, order)
    ensures forall id :: id in order ==> id in Settle(rows, r, settled, order) && IsWithin(Settle(rows, r, settled, order)[id], r.dst)
    decreases |order|
  {
    hide IsWithin, RebasePath, FreePath, PathSegments;
    if order != [] {
      var id := order[0];
      var path := rows.notes[id].path;
      assert id in order && IsWithin(path, r.src) by { InsideIsWithin(rows, r, id); }
      RebasedIsWithin(path, r);
      RebasedIsInside(path, r);
      GivingWayStaysInside(RebasePath(path, r.src, r.dst), r.dst, settled.Values);
      SettledWithin(rows, r, settled[id := FreePath(RebasePath(path, r.src, r.dst), settled.Values)], order[1..]);
      assert forall each :: each in order <==> each == id || each in order[1..];
    }
  }

  lemma InsideIsWithin(rows: Rows, r: Rebase, id: Id)
    requires id in NotesInside(rows, r)
    ensures id in rows.notes && IsWithin(rows.notes[id].path, r.src)
  {}

  lemma RebasedIsInside(path: string, r: Rebase)
    requires IsWithin(path, r.src) && PathSegments(r.src) != [] && PathSegments(path) != PathSegments(r.src)
    ensures PathSegments(RebasePath(path, r.src, r.dst)) != PathSegments(r.dst)
  {
    hide IsWithin, RebasePath;
    RebaseSegments(path, r.src, r.dst);
    var rest := PathSegments(path)[|PathSegments(r.src)|..];
    assert PathSegments(path) == PathSegments(r.src) + rest;
    assert rest == [] ==> PathSegments(path) == PathSegments(r.src);
    assert |PathSegments(r.dst) + rest| == |PathSegments(r.dst)| + |rest|;
  }

  /** Between two folders neither of which holds the other, nothing is left where the notebook was. */
  lemma NothingIsLeft(rows: Rows, r: Rebase, p: FolderPlan)
    requires ValidFolderPlan(rows, r, p) && CanRebase(rows, r) && AreDisjoint(r) && NotesAreInside(rows, r)
    ensures IsNothing(RowsAfter(rows, r, p), r)
  {
    NormalIsRootOrNamed(r.src);
    hide IsWithin, RebasePath, FreePath, PathSegments, AncestorPaths;
    var after := RowsAfter(rows, r, p);
    forall path | path in after.folders
      ensures !IsWithin(path, r.src)
    {
      FolderIsElsewhere(rows, r, p, path);
    }
    forall id | id in after.files
      ensures !IsWithin(after.files[id].path, r.src)
    {
      if id in FilesInside(rows, r) {
        RebasedIsWithin(rows.files[id].path, r);
        UnderDestinationIsOutside(after.files[id].path, r);
      }
    }
    forall id | id in after.notes
      ensures !IsWithin(after.notes[id].path, r.src)
    {
      NoteIsElsewhere(rows, r, p, id);
    }
  }

  lemma FolderIsElsewhere(rows: Rows, r: Rebase, p: FolderPlan, path: string)
    requires ValidFolderPlan(rows, r, p) && CanRebase(rows, r) && AreDisjoint(r)
    requires path in RowsAfter(rows, r, p).folders
    ensures !IsWithin(path, r.src)
  {
    NormalIsRootOrNamed(r.src);
    NotebooksAfter(rows, r, p);
    hide IsWithin, RebasePath, PathSegments, RowsAfter, AncestorPaths;
    assert IsNotebookAfter(rows, r, path);
    if path in AncestorPaths(r.dst) {
      AboveIsOutside(r, path);
    } else if path == r.dst {
    } else if exists was :: was in FoldersInside(rows, r) && path == RebasePath(was, r.src, r.dst) {
      var was :| was in FoldersInside(rows, r) && path == RebasePath(was, r.src, r.dst);
      RebasedIsWithin(was, r);
      UnderDestinationIsOutside(path, r);
    }
  }

  lemma AboveIsOutside(r: Rebase, above: string)
    requires AreDisjoint(r) && above in AncestorPaths(r.dst)
    ensures !IsWithin(above, r.src)
  {
    hide IsWithin;
    AncestorsArePrefixes(r.dst);
    WithinIsPrefix(above, r.src);
    WithinIsPrefix(r.dst, r.src);
    PrefixOfPrefix(PathSegments(r.src), PathSegments(above), PathSegments(r.dst));
  }

  lemma PrefixOfPrefix(a: seq<string>, b: seq<string>, c: seq<string>)
    ensures a <= b && b <= c ==> a <= c
  {
    if a <= b && b <= c {
      assert a == b[..|a|] == c[..|a|];
    }
  }

  lemma NoteIsElsewhere(rows: Rows, r: Rebase, p: FolderPlan, id: Id)
    requires ValidFolderPlan(rows, r, p) && AreDisjoint(r) && NotesAreInside(rows, r) && PathSegments(r.src) != []
    requires id in RowsAfter(rows, r, p).notes
    ensures !IsWithin(RowsAfter(rows, r, p).notes[id].path, r.src)
  {
    PlanIsOfRows(rows, r, p);
    NotesLandApart(rows, r, p);
    LiveAreInside(rows, r, p);
    SettledWithin(rows, r, SettledFirst(rows, r), p.live);
    hide IsWithin, RebasePath, PathSegments, Settle, FoldersAfter, FilesAfter, SameButPath, FoldPath;
    var after := RowsAfter(rows, r, p).notes;
    if id in LiveInside(rows, r) {
      assert id in p.live;
      UnderDestinationIsOutside(after[id].path, r);
    } else if id in NotesInside(rows, r) {
      RebasedIsWithin(rows.notes[id].path, r);
      UnderDestinationIsOutside(after[id].path, r);
    }
  }

  lemma LiveAreInside(rows: Rows, r: Rebase, p: FolderPlan)
    requires ValidFolderPlan(rows, r, p)
    ensures forall id :: id in p.live <==> id in LiveInside(rows, r)
    ensures forall id :: id in p.live ==> id in rows.notes && id in NotesInside(rows, r)
  {
    hide IsWithin, FoldersInside;
  }

  // ----- Two spellings -----------------------------------------------------------------

  const TWO_NOTEBOOKS := NO_ROWS.(folders := map["Work" := Folder(None, 0), "Plans" := Folder(None, 0)])

  /** `Plans` moved into a `work` that is there as `Work`: the directory then has two rows. */
  lemma SpellingsCanSplit(p: FolderPlan)
    requires ValidFolderPlan(TWO_NOTEBOOKS, Rebase("Plans", "work/Plans"), p)
    ensures DistinctFolders(TWO_NOTEBOOKS.folders) && !IsOccupied(TWO_NOTEBOOKS, Rebase("Plans", "work/Plans"))
    ensures !DistinctFolders(RowsAfter(TWO_NOTEBOOKS, Rebase("Plans", "work/Plans"), p).folders)
  {
    var r := Rebase("Plans", "work/Plans");
    NamesOfTwo();
    hide FoldPath, RebasePath, IsWithin, AncestorPaths, PathSegments, RowsAfter, NormalizePath;
    SameFold("Work", "Plans");
    SameFold("Work", "work");
    FoldWithin("Work", r.dst);
    WithinIsPrefix("Work", "Plans");
    WithinIsPrefix("Plans", "Plans");
    assert !IsInTheWay("Work", r) && !IsInTheWay("Plans", r);
    NotebooksStayDistinctIff(TWO_NOTEBOOKS, r, p);
  }

  lemma NamesOfTwo()
    ensures IsNormal("Work") && IsNormal("Plans") && IsNormal("work/Plans") && IsNormal("work")
    ensures PathSegments("Work") == ["Work"] && PathSegments("Plans") == ["Plans"] && PathSegments("work") == ["work"]
    ensures PathSegments("work/Plans") == ["work", "Plans"]
    ensures FoldSegments("Work") == FoldSegments("work") && FoldSegments("Work") != FoldSegments("Plans")
    ensures |FoldSegments("Work")| == 1 && |FoldSegments("work/Plans")| == 2
    ensures "work" in AncestorPaths("work/Plans")
  {
    hide Join, NormalizePath, PathSegments, IsWithin, AncestorPaths;
    OnePart("Work");
    OnePart("Plans");
    OnePart("work");
    TwoParts("work/Plans", "work", "Plans");
    FoldsOfTwo();
    WithinIsPrefix("work/Plans", "work");
    AncestorsAreEnclosing("work/Plans", "work");
  }

  lemma FoldsOfTwo()
    ensures FoldName("Work") == FoldName("work") && |FoldName("Plans")| != |FoldName("Work")|
  {
    assert FoldName("Work") == "work" == FoldName("work");
  }
}
