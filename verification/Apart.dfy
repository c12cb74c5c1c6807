/**
  The naming pass of the archive writer (`entryName`, `numbered`, `apart`,
  `emptyFolders` in apps/web/src/store/exportNotes.ts): every file and every empty
  notebook under a name of its own, compared as the disk it is unpacked onto compares.
 */
module Apart {
  import opened Paths
  import opened Naming

  /** A path an entry can have: normal, and not the root. */
  predicate IsEntryPath(path: string) {
    NormalizePath(path) == path && path != ROOT
  }

  function Underscored(path: string): string {
    seq(|path|, i requires 0 <= i < |path| => if path[i] == '\\' then '_' else path[i])
  }

  function SafeName(path: string): string {
    NormalizePath(Underscored(path))
  }

  /** `entryName`; `unnamed` is the user's word for a file with no name left. */
  function EntryName(path: string, unnamed: string): string {
    if SafeName(path) == "" then unnamed else SafeName(path)
  }

  /** Nothing an entry is named can climb, or be read as a separator by a careless tool. */
  lemma EntryNameIsSafe(path: string, unnamed: string)
    requires IsSegment(unnamed) && '\\' !in unnamed
    ensures IsEntryPath(EntryName(path, unnamed))
    ensures '\\' !in EntryName(path, unnamed)
    ensures AreSegments(PathSegments(EntryName(path, unnamed)))
  {
    NormalizeIdempotent(Underscored(path));
    SegmentsOfPath(EntryName(path, unnamed));
    assert AreSegments([unnamed]);
    JoinIsNormal([unnamed]);
    NormalizeKeepsOut(Underscored(path), '\\');
  }

  /** Normalizing puts no character in a path but the separators it had. */
  lemma NormalizeKeepsOut(path: string, c: char)
    requires c !in path && c != '/'
    ensures c !in NormalizePath(path)
  {
    ShortcutAgrees(path);
    SplitKeepsOut(path, c);
    KeptKeepsOut(Split(path), c);
    ClimbKeepsOut([], Kept(Split(path)), c);
    JoinKeepsOut(Resolved(path), c);
  }

  lemma {:induction false} SplitKeepsOut(s: string, c: char)
    requires c !in s
    ensures forall part :: part in Split(s) ==> c !in part
  {
    if s != "" {
      assert s == [s[0]] + s[1..];
      SplitKeepsOut(s[1..], c);
    }
  }

  lemma {:induction false} KeptKeepsOut(parts: seq<string>, c: char)
    requires forall part :: part in parts ==> c !in part
    ensures forall part :: part in Kept(parts) ==> c !in part
  {
    if parts != [] {
      KeptKeepsOut(parts[1..], c);
    }
  }

  lemma {:induction false} ClimbKeepsOut(done: seq<string>, parts: seq<string>, c: char)
    requires forall part :: part in done ==> c !in part
    requires forall part :: part in parts ==> c !in part
    ensures forall part :: part in Climb(done, parts) ==> c !in part
    decreases parts
  {
    if parts != [] {
      if parts[0] == ".." {
        ClimbKeepsOut(if done == [] then [] else done[..|done| - 1], parts[1..], c);
      } else {
        assert parts[0] in parts;
        ClimbKeepsOut(done + [parts[0]], parts[1..], c);
      }
    }
  }

  lemma {:induction false} JoinKeepsOut(parts: seq<string>, c: char)
    requires c != '/' && forall part :: part in parts ==> c !in part
    ensures c !in Join(parts)
  {
    if |parts| > 1 {
      JoinKeepsOut(parts[1..], c);
      assert parts[0] in parts && c !in "/";
    }
  }

  // ----- Numbered names ----------------------------------------------------------------

  /** Where the extension starts: at the last dot, unless that is the first character. */
  function ExtensionDot(name: string): (dot: nat)
    ensures dot <= |name|
  {
    var dot := LastDot(name);
    if dot > 0 then dot else |name|
  }

  function NumberedName(name: string, n: nat): string {
    var dot := ExtensionDot(name);
    name[..dot] + " (" + Decimal(n) + ")" + name[dot..]
  }

  /** `name (2).md`, beside the path. */
  function Numbered(path: string, n: nat): string {
    var folder := ParentPath(path);
    (if folder == ROOT then "" else folder + "/") + NumberedName(Basename(path), n)
  }

  lemma NumberedNameIsSegment(name: string, n: nat)
    requires '/' !in name
    ensures IsSegment(NumberedName(name, n))
  {
    var dot := ExtensionDot(name);
    assert '/' !in name[..dot] && '/' !in name[dot..] && '/' !in Decimal(n);
    assert '/' !in " (" && '/' !in ")";
  }

  /** The numbered path is in the folder the path is in. */
  lemma NumberedSegments(path: string, n: nat)
    requires IsEntryPath(path)
    ensures PathSegments(Numbered(path, n)) == Init(PathSegments(path)) + [NumberedName(Basename(path), n)]
    ensures ParentPath(Numbered(path, n)) == ParentPath(path)
    ensures IsEntryPath(Numbered(path, n))
  {
    SegmentsOfPath(path);
    ParentSegments(path);
    BasenameHasNoSeparator(path);
    NumberedNameIsSegment(Basename(path), n);
    var folder, name := Init(PathSegments(path)), NumberedName(Basename(path), n);
    assert AreSegments(folder + [name]);
    JoinIsNormal(folder);
    if folder != [] {
      JoinAppend(folder, [name]);
      assert Join(folder) + "/" + name == (Join(folder) + "/") + name;
    } else {
      assert folder + [name] == [name] && "" + name == name;
    }
    assert Numbered(path, n) == Join(folder + [name]);
    JoinIsNormal(folder + [name]);
    assert Init(folder + [name]) == folder;
  }

  lemma {:induction false} LastDotFolds(name: string)
    ensures LastDot(FoldName(name)) == LastDot(name)
  {
    if name != "" {
      LastDotFolds(name[1..]);
      assert FoldName(name)[1..] == FoldName(name[1..]);
    }
  }

  lemma NumberedNameFolds(name: string, n: nat)
    ensures FoldName(NumberedName(name, n)) == NumberedName(FoldName(name), n)
  {
    hide Decimal, LastDot;
    FoldDecimal(n);
    LastDotFolds(name);
    var dot := ExtensionDot(name);
    FoldConcat(name[..dot] + " (" + Decimal(n) + ")", name[dot..]);
    FoldConcat(name[..dot] + " (" + Decimal(n), ")");
    FoldConcat(name[..dot] + " (", Decimal(n));
    FoldConcat(name[..dot], " (");
    FoldDecimal(n);
    assert FoldName(name)[..dot] == FoldName(name[..dot]);
    assert FoldName(name)[dot..] == FoldName(name[dot..]);
  }

  /** The numbered names of a path, as they are compared: the same for every spelling of it. */
  function Candidate(folded: string): nat -> string {
    (n: nat) => FoldPath(Numbered(folded, n))
  }

  lemma NumberedFoldsAlike(path: string, n: nat)
    requires IsEntryPath(path)
    ensures IsEntryPath(FoldPath(path))
    ensures FoldPath(Numbered(path, n)) == Candidate(FoldPath(path))(n)
  {
    hide NumberedName, PathSegments, NormalizePath, Join, Decimal;
    var folded := FoldPath(path);
    FoldPathSegments(path);
    NormalizeIdempotent(path);
    JoinIsNormal(FoldSegments(path));
    SegmentsOfPath(path);
    JoinIsNormal(PathSegments(path));
    assert IsEntryPath(folded);
    NumberedSegments(path, n);
    NumberedSegments(folded, n);
    FoldOfParts(path);
    ParentSegments(path);
    ParentSegments(folded);
    NumberedNameFolds(Basename(path), n);
    NumberedNameFolds(Basename(folded), n);
    var a, b := FoldSegments(Numbered(path, n)), FoldSegments(Numbered(folded, n));
    FoldAllIdempotent(PathSegments(path));
    assert Basename(folded) == FoldName(Basename(path));
    FoldIdempotent(Basename(path));
    assert Init(FoldSegments(path)) == FoldAll(Init(PathSegments(path)));
    FoldAllIdempotent(Init(PathSegments(path)));
    assert a == FoldAll(Init(PathSegments(path))) + [NumberedName(FoldName(Basename(path)), n)];
    assert b == FoldAll(Init(FoldSegments(path))) + [NumberedName(FoldName(Basename(path)), n)];
    SameFold(Numbered(path, n), Numbered(folded, n));
  }

  lemma FoldAllIdempotent(names: seq<string>)
    ensures FoldAll(FoldAll(names)) == FoldAll(names)
  {
    forall i | 0 <= i < |names|
      ensures FoldAll(FoldAll(names))[i] == FoldAll(names)[i]
    {
      FoldIdempotent(names[i]);
    }
  }

  lemma CandidatesDistinct(folded: string)
    requires IsEntryPath(folded)
    ensures Distinct(Candidate(folded))
  {
    forall i: nat, j: nat | Candidate(folded)(i) == Candidate(folded)(j)
      ensures i == j
    {
      SameFold(Numbered(folded, i), Numbered(folded, j));
      NumberedSegments(folded, i);
      NumberedSegments(folded, j);
      var name := Basename(folded);
      var a, b := FoldSegments(Numbered(folded, i)), FoldSegments(Numbered(folded, j));
      assert a[|a| - 1] == FoldName(NumberedName(name, i)) && b[|b| - 1] == FoldName(NumberedName(name, j));
      NumberedNameFolds(name, i);
      NumberedNameFolds(name, j);
      NumbersApart(FoldName(name), i, j);
    }
  }

  lemma NumbersApart(name: string, i: nat, j: nat)
    requires NumberedName(name, i) == NumberedName(name, j)
    ensures i == j
  {
    var dot := ExtensionDot(name);
    var front, rest := name[..dot] + " ", ")" + name[dot..];
    assert NumberedName(name, i) == front + ['('] + Decimal(i) + rest;
    assert NumberedName(name, j) == front + ['('] + Decimal(j) + rest;
    NumberReadBack(front, front, '(', i, j, rest);
  }

  /** Skipping numbers that are all taken never changes which number is the least free. */
  lemma {:induction false} StartingLater(candidate: nat -> string, used: set<string>, from: nat, later: nat)
    requires Distinct(candidate) && from <= later
    requires forall m: nat :: from <= m < later ==> candidate(m) in used
    ensures LeastFree(candidate, used, from) == LeastFree(candidate, used, later)
    decreases later - from
  {
    if from < later {
      StartingLater(candidate, used, from + 1, later);
    }
  }

  // ----- Placing files -----------------------------------------------------------------

  /** The number a contested file gets: the least free one from 2 up. */
  function Renumbered(path: string, taken: set<string>): string
    requires IsEntryPath(path)
  {
    NumberedFoldsAlike(path, 2);
    CandidatesDistinct(FoldPath(path));
    Numbered(path, LeastFree(Candidate(FoldPath(path)), taken, 2))
  }

  function PlacedOne(path: string, taken: set<string>): string
    requires IsEntryPath(path)
  {
    if FoldPath(path) !in taken then path else Renumbered(path, taken)
  }

  /** The files are placed one after another; each claims its name for those behind it. */
  function Placed(paths: seq<string>, taken: set<string>): (placed: seq<string>)
    requires forall path :: path in paths ==> IsEntryPath(path)
    ensures |placed| == |paths|
    decreases |paths|
  {
    if paths == [] then []
    else
      assert paths[0] in paths;
      var path := PlacedOne(paths[0], taken);
      [path] + Placed(paths[1..], taken + {FoldPath(path)})
  }

  lemma PlacedOneIsFree(path: string, taken: set<string>)
    requires IsEntryPath(path)
    ensures FoldPath(PlacedOne(path, taken)) !in taken
    ensures ParentPath(PlacedOne(path, taken)) == ParentPath(path)
    ensures IsEntryPath(PlacedOne(path, taken))
    ensures FoldPath(path) !in taken ==> PlacedOne(path, taken) == path
    ensures FoldPath(path) in taken ==>
              exists n: nat {:trigger Numbered(path, n)} :: n >= 2 && PlacedOne(path, taken) == Numbered(path, n)
                && forall m: nat {:trigger Numbered(path, m)} :: 2 <= m < n ==> FoldPath(Numbered(path, m)) in taken
  {
    if FoldPath(path) in taken {
      var folded := FoldPath(path);
      NumberedFoldsAlike(path, 2);
      CandidatesDistinct(folded);
      var n := LeastFree(Candidate(folded), taken, 2);
      NumberedSegments(path, n);
      NumberedFoldsAlike(path, n);
      forall m: nat | 2 <= m < n
        ensures FoldPath(Numbered(path, m)) in taken
      {
        NumberedFoldsAlike(path, m);
        assert Candidate(folded)(m) in taken;
      }
    }
  }

  ghost predicate ApartFrom(paths: seq<string>, taken: set<string>) {
    forall i :: 0 <= i < |paths| ==> FoldPath(paths[i]) !in taken
  }

  ghost predicate PairwiseApart(paths: seq<string>) {
    forall i, j :: 0 <= i < j < |paths| ==> FoldPath(paths[i]) != FoldPath(paths[j])
  }

  ghost predicate AllEntryPaths(paths: seq<string>) {
    forall i :: 0 <= i < |paths| ==> IsEntryPath(paths[i])
  }

  ghost predicate SameFolders(paths: seq<string>, placed: seq<string>) {
    |paths| == |placed| && forall i :: 0 <= i < |paths| ==> ParentPath(placed[i]) == ParentPath(paths[i])
  }

  lemma ApartCons(path: string, rest: seq<string>, taken: set<string>)
    requires FoldPath(path) !in taken
    requires ApartFrom(rest, taken + {FoldPath(path)}) && PairwiseApart(rest)
    ensures ApartFrom([path] + rest, taken) && PairwiseApart([path] + rest)
  {
    var all := [path] + rest;
    forall i, j | 0 <= i < j < |all|
      ensures FoldPath(all[i]) != FoldPath(all[j])
    {
      assert all[j] == rest[j - 1];
      if i > 0 {
        assert all[i] == rest[i - 1];
      }
    }
  }

  /** No two files share a name, none has a name taken before, and each stays in its folder. */
  lemma {:induction false} PlacedApart(paths: seq<string>, taken: set<string>)
    requires forall path :: path in paths ==> IsEntryPath(path)
    ensures ApartFrom(Placed(paths, taken), taken)
    ensures PairwiseApart(Placed(paths, taken))
    ensures SameFolders(paths, Placed(paths, taken))
    ensures AllEntryPaths(Placed(paths, taken))
    decreases |paths|
  {
    hide FoldPath, PlacedOne, IsEntryPath, ParentPath;
    if paths != [] {
      assert paths[0] in paths;
      var path := PlacedOne(paths[0], taken);
      PlacedOneIsFree(paths[0], taken);
      PlacedApart(paths[1..], taken + {FoldPath(path)});
      ApartCons(path, Placed(paths[1..], taken + {FoldPath(path)}), taken);
    }
  }

  /** What `reached` promises: below it, every number of that name is taken. */
  ghost predicate Reached(reached: map<string, nat>, taken: set<string>) {
    forall folded :: folded in reached ==>
      reached[folded] >= 2
      && forall m: nat {:trigger Candidate(folded)(m)} :: 2 <= m < reached[folded] ==> Candidate(folded)(m) in taken
  }

  lemma ReachedGrows(reached: map<string, nat>, taken: set<string>, folded: string, n: nat, name: string)
    requires Reached(reached, taken) && n >= 2
    requires forall m: nat {:trigger Candidate(folded)(m)} :: 2 <= m < n ==> Candidate(folded)(m) in taken
    requires name == Candidate(folded)(n)
    ensures Reached(reached[folded := n + 1], taken + {name})
  {
    hide Candidate, Numbered, FoldPath;
  }

  lemma PlacedStep(paths: seq<string>, i: nat, taken: set<string>)
    requires i < |paths| && forall path :: path in paths ==> IsEntryPath(path)
    ensures paths[i] in paths && IsEntryPath(paths[i])
    ensures var path := PlacedOne(paths[i], taken);
            Placed(paths[i..], taken) == [path] + Placed(paths[i + 1..], taken + {FoldPath(path)})
  {
    assert paths[i..][0] == paths[i] && paths[i..][1..] == paths[i + 1..];
  }

  lemma NothingReached(taken: set<string>)
    ensures Reached(map[], taken)
  {}

  lemma NothingLeft(paths: seq<string>, taken: set<string>)
    ensures Placed(paths[|paths|..], taken) == []
  {}

  /** The loop of `apart`: `taken` and `reached` are written to as it goes. */
  method PlaceFiles(paths: seq<string>, names: set<string>) returns (placed: seq<string>)
    requires forall path :: path in paths ==> IsEntryPath(path)
    ensures placed == Placed(paths, names)
  {
    hide FoldPath, IsEntryPath, Numbered, Candidate, Placed;
    var taken := names;
    var reached: map<string, nat> := map[];
    NothingReached(taken);
    placed := [];
    assert paths[0..] == paths;
    for i := 0 to |paths|
      invariant Reached(reached, taken)
      invariant placed + Placed(paths[i..], taken) == Placed(paths, names)
    {
      PlacedStep(paths, i, taken);
      ghost var rest := Placed(paths[i + 1..], taken + {FoldPath(PlacedOne(paths[i], taken))});
      var name := paths[i];
      var folded := FoldPath(name);
      if folded in taken {
        var n := SearchFrom(name, taken, if folded in reached then reached[folded] else 2);
        NumberedFoldsAlike(name, n);
        name := Numbered(name, n);
        ReachedGrows(reached, taken, folded, n, FoldPath(name));
        reached := reached[folded := n + 1];
      }
      taken := taken + {FoldPath(name)};
      assert placed + ([name] + rest) == (placed + [name]) + rest;
      placed := placed + [name];
    }
    NothingLeft(paths, taken);
  }

  /** The search loop: from a number below which all are taken, it finds the least free one. */
  method SearchFrom(path: string, taken: set<string>, from: nat) returns (n: nat)
    requires IsEntryPath(path) && from >= 2
    requires forall m: nat {:trigger Candidate(FoldPath(path))(m)} ::
               2 <= m < from ==> Candidate(FoldPath(path))(m) in taken
    ensures Numbered(path, n) == Renumbered(path, taken) && n >= 2
    ensures forall m: nat {:trigger Candidate(FoldPath(path))(m)} ::
              2 <= m < n ==> Candidate(FoldPath(path))(m) in taken
  {
    ghost var candidate := Candidate(FoldPath(path));
    NumberedFoldsAlike(path, 2);
    CandidatesDistinct(FoldPath(path));
    n := from;
    NumberedFoldsAlike(path, n);
    while FoldPath(Numbered(path, n)) in taken
      invariant n >= 2 && FoldPath(Numbered(path, n)) == candidate(n)
      invariant forall m: nat {:trigger candidate(m)} :: 2 <= m < n ==> candidate(m) in taken
      decreases Ahead(candidate, taken, n)
    {
      AheadShrinks(candidate, taken, n);
      n := n + 1;
      NumberedFoldsAlike(path, n);
    }
    StartingLater(candidate, taken, 2, n);
  }

  // ----- Empty notebooks ---------------------------------------------------------------

  /** The folded names of every folder that some path implies. */
  function Implied(paths: seq<string>): set<string> {
    set i, folder | 0 <= i < |paths| && folder in AncestorPaths(paths[i]) :: FoldPath(folder)
  }

  /** The folders no file is in, each once, named as a file's path is. */
  function EmptyFolders(folders: seq<string>, filled: set<string>, seen: set<string>): seq<string>
    decreases |folders|
  {
    if folders == [] then []
    else
      var path := SafeName(folders[0]);
      var folded := FoldPath(path);
      if path == ROOT || folded in filled || folded in seen then EmptyFolders(folders[1..], filled, seen)
      else [path] + EmptyFolders(folders[1..], filled, seen + {folded})
  }

  method FindEmptyFolders(folders: seq<string>, files: seq<string>) returns (empty: seq<string>)
    ensures empty == EmptyFolders(folders, Implied(files), {})
  {
    hide FoldPath, SafeName, Implied;
    var filled := Implied(files);
    var seen: set<string> := {};
    empty := [];
    for i := 0 to |folders|
      invariant empty + EmptyFolders(folders[i..], filled, seen) == EmptyFolders(folders, filled, {})
    {
      assert folders[i..][0] == folders[i] && folders[i..][1..] == folders[i + 1..];
      var path := SafeName(folders[i]);
      var folded := FoldPath(path);
      if !(path == ROOT || folded in filled || folded in seen) {
        seen := seen + {folded};
        empty := empty + [path];
      }
    }
    assert folders[|folders|..] == [];
  }

  lemma {:induction false} EmptyFoldersApart(folders: seq<string>, filled: set<string>, seen: set<string>)
    ensures AllEntryPaths(EmptyFolders(folders, filled, seen))
    ensures ApartFrom(EmptyFolders(folders, filled, seen), filled + seen)
    ensures PairwiseApart(EmptyFolders(folders, filled, seen))
    decreases |folders|
  {
    if folders != [] {
      var path := SafeName(folders[0]);
      NormalizeIdempotent(Underscored(folders[0]));
      if path == ROOT || FoldPath(path) in filled || FoldPath(path) in seen {
        EmptyFoldersApart(folders[1..], filled, seen);
      } else {
        EmptyFoldersApart(folders[1..], filled, seen + {FoldPath(path)});
        assert filled + seen + {FoldPath(path)} == filled + (seen + {FoldPath(path)});
        ApartCons(path, EmptyFolders(folders[1..], filled, seen + {FoldPath(path)}), filled + seen);
      }
    }
  }

  /** An empty notebook is in the archive, under some spelling, unless a file implies it. */
  lemma {:induction false} EmptyFoldersKept(folders: seq<string>, filled: set<string>, seen: set<string>, folder: string)
    requires folder in folders && SafeName(folder) != ROOT
    ensures FoldPath(SafeName(folder)) in filled + seen + FoldedOf(EmptyFolders(folders, filled, seen))
    decreases |folders|
  {
    var path := SafeName(folders[0]);
    if path == ROOT || FoldPath(path) in filled || FoldPath(path) in seen {
      if FoldPath(SafeName(folder)) !in filled + seen {
        assert folder in folders[1..];
        EmptyFoldersKept(folders[1..], filled, seen, folder);
      }
    } else {
      var rest := EmptyFolders(folders[1..], filled, seen + {FoldPath(path)});
      assert path in [path] + rest;
      if folder in folders[1..] {
        EmptyFoldersKept(folders[1..], filled, seen + {FoldPath(path)}, folder);
        assert forall each :: each in rest ==> each in [path] + rest;
      }
    }
  }

  /** A notebook written is one given. */
  lemma {:induction false} EmptyFoldersAreGiven(folders: seq<string>, filled: set<string>, seen: set<string>)
    ensures forall path :: path in EmptyFolders(folders, filled, seen) ==>
              exists folder :: folder in folders && SafeName(folder) == path
    decreases |folders|
  {
    hide SafeName, FoldPath;
    if folders != [] {
      var path := SafeName(folders[0]);
      assert folders[0] in folders && forall folder :: folder in folders[1..] ==> folder in folders;
      if path == ROOT || FoldPath(path) in filled || FoldPath(path) in seen {
        EmptyFoldersAreGiven(folders[1..], filled, seen);
      } else {
        EmptyFoldersAreGiven(folders[1..], filled, seen + {FoldPath(path)});
      }
    }
  }

  // ----- The whole pass ----------------------------------------------------------------

  datatype Names = Names(folders: seq<string>, files: seq<string>)

  function Named(paths: seq<string>, unnamed: string): (named: seq<string>)
    requires IsSegment(unnamed) && '\\' !in unnamed
    ensures |named| == |paths|
    ensures forall i :: 0 <= i < |named| ==> named[i] == EntryName(paths[i], unnamed) && IsEntryPath(named[i])
  {
    if paths == [] then []
    else
      EntryNameIsSafe(paths[0], unnamed);
      [EntryName(paths[0], unnamed)] + Named(paths[1..], unnamed)
  }

  function FoldedOf(paths: seq<string>): set<string> {
    set path | path in paths :: FoldPath(path)
  }

  function ApartOf(files: seq<string>, folders: seq<string>, unnamed: string): Names
    requires IsSegment(unnamed) && '\\' !in unnamed
  {
    var named := Named(files, unnamed);
    var empty := EmptyFolders(folders, Implied(named), {});
    Names(empty, Placed(named, Implied(named) + Implied(empty) + FoldedOf(empty)))
  }

  method MakeApart(files: seq<string>, folders: seq<string>, unnamed: string) returns (names: Names)
    requires IsSegment(unnamed) && '\\' !in unnamed
    ensures names == ApartOf(files, folders, unnamed)
  {
    var named := Named(files, unnamed);
    var empty := FindEmptyFolders(folders, named);
    var placed := PlaceFiles(named, Implied(named) + Implied(empty) + FoldedOf(empty));
    names := Names(empty, placed);
  }

  /**
    The names of an archive. They are pairwise distinct as they unpack; no file has
    the name of a folder any entry needs; and every file is in the folder it was in.
   */
  lemma NamesAreApart(files: seq<string>, folders: seq<string>, unnamed: string)
    requires IsSegment(unnamed) && '\\' !in unnamed
    ensures var names := ApartOf(files, folders, unnamed);
            && AllEntryPaths(names.folders + names.files)
            && PairwiseApart(names.folders + names.files)
            && ApartFrom(names.files, Implied(names.folders + names.files))
            && SameFolders(Named(files, unnamed), names.files)
  {
    var named := Named(files, unnamed);
    var empty := EmptyFolders(folders, Implied(named), {});
    var taken := Implied(named) + Implied(empty) + FoldedOf(empty);
    EmptyFoldersApart(folders, Implied(named), {});
    PlacedApart(named, taken);
    ApartConcat(empty, Placed(named, taken), taken);
    ImpliedKept(named, Placed(named, taken), empty);
  }

  lemma ApartConcat(a: seq<string>, b: seq<string>, taken: set<string>)
    requires PairwiseApart(a) && PairwiseApart(b) && ApartFrom(b, taken) && FoldedOf(a) <= taken
    ensures PairwiseApart(a + b)
  {
    var all := a + b;
    forall i, j | 0 <= i < j < |all|
      ensures FoldPath(all[i]) != FoldPath(all[j])
    {
      if i < |a| <= j {
        assert a[i] in a && all[j] == b[j - |a|];
      } else if |a| <= i {
        assert all[i] == b[i - |a|] && all[j] == b[j - |a|];
      }
    }
  }

  lemma SameAncestors(a: string, b: string)
    requires ParentPath(a) == ParentPath(b)
    ensures AncestorPaths(a) == AncestorPaths(b)
  {}

  /** Numbering a file moves no folder: the folders implied are the ones implied before. */
  lemma ImpliedKept(named: seq<string>, placed: seq<string>, empty: seq<string>)
    requires |named| == |placed|
    requires forall i :: 0 <= i < |named| ==> ParentPath(placed[i]) == ParentPath(named[i])
    ensures Implied(empty + placed) <= Implied(named) + Implied(empty)
  {
    var all := empty + placed;
    forall folded | folded in Implied(all)
      ensures folded in Implied(named) + Implied(empty)
    {
      var i, folder :| 0 <= i < |all| && folder in AncestorPaths(all[i]) && FoldPath(folder) == folded;
      if i >= |empty| {
        SameAncestors(placed[i - |empty|], named[i - |empty|]);
        assert folder in AncestorPaths(named[i - |empty|]);
      } else {
        assert folder in AncestorPaths(empty[i]);
      }
    }
  }

  // ----- Names a reader takes as they are ----------------------------------------------

  /** No entry is named with a backslash, so none can be read as being in a folder it is not in. */
  lemma {:induction false} PlacedKeepsOut(paths: seq<string>, taken: set<string>)
    requires forall path :: path in paths ==> IsEntryPath(path) && '\\' !in path
    ensures forall path :: path in Placed(paths, taken) ==> '\\' !in path
    decreases |paths|
  {
    hide FoldPath, IsEntryPath, Renumbered;
    if paths != [] {
      assert paths[0] in paths;
      var path := PlacedOne(paths[0], taken);
      if path != paths[0] {
        RenumberedKeepsOut(paths[0], taken);
      }
      PlacedKeepsOut(paths[1..], taken + {FoldPath(path)});
    }
  }

  lemma RenumberedKeepsOut(path: string, taken: set<string>)
    requires IsEntryPath(path) && '\\' !in path
    ensures '\\' !in Renumbered(path, taken)
  {
    hide FoldPath, Candidate, LastDot, Decimal;
    NumberedFoldsAlike(path, 2);
    CandidatesDistinct(FoldPath(path));
    var n := LeastFree(Candidate(FoldPath(path)), taken, 2);
    SegmentsOfPath(path);
    SplitKeepsOut(path, '\\');
    JoinKeepsOut(Init(PathSegments(path)), '\\');
    var name := Basename(path);
    assert '\\' !in name;
    var dot := ExtensionDot(name);
    assert '\\' !in name[..dot] && '\\' !in name[dot..] && '\\' !in Decimal(n);
    assert '\\' !in " (" && '\\' !in ")" && '\\' !in "/";
  }

  /** A path does not end with a separator, which is how a folder is told from a file. */
  lemma EntryPathEnd(path: string)
    requires IsEntryPath(path)
    ensures path != "" && path[|path| - 1] != '/'
  {
    SegmentsOfPath(path);
    JoinEnd(PathSegments(path));
  }

  lemma {:induction false} JoinEnd(segments: seq<string>)
    requires segments != [] && AreSegments(segments)
    ensures Join(segments) != "" && Join(segments)[|Join(segments)| - 1] != '/'
  {
    if |segments| == 1 {
      assert IsSegment(segments[0]);
    } else {
      JoinEnd(segments[1..]);
    }
  }
}
