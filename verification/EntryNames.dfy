/**
  Which name each file of an archive gets, exactly (`entryName`, `numbered` and `apart` in
  apps/web/src/store/exportNotes.ts).
 */
module EntryNames {
  import opened Paths
  import opened Naming
  import opened Apart

  // ----- Made safe ---------------------------------------------------------------------

  /** The same with an underscore for each backslash. */
  ghost predicate IsUnderscored(name: string, path: string) {
    |name| == |path| && forall i :: 0 <= i < |path| ==> name[i] == if path[i] == '\\' then '_' else path[i]
  }

  /**
    An entry is named as its path is normalized, with an underscore for each backslash: a
    backslash makes no part of a path what it was not. The stand-in is for the root alone.
   */
  lemma EntryNameIs(path: string, unnamed: string)
    ensures NormalizePath(path) == ROOT ==> EntryName(path, unnamed) == unnamed
    ensures NormalizePath(path) != ROOT ==> IsUnderscored(EntryName(path, unnamed), NormalizePath(path))
  {
    ShortcutAgrees(path);
    ShortcutAgrees(Underscored(path));
    UnderscoredSplit(path);
    UnderscoredKept(Split(path));
    UnderscoredClimb([], Kept(Split(path)));
    UnderscoredJoin(Resolved(path));
    assert UnderscoredAll([]) == [];
  }

  function UnderscoredAll(parts: seq<string>): (changed: seq<string>)
    ensures |changed| == |parts| && forall i :: 0 <= i < |parts| ==> changed[i] == Underscored(parts[i])
  {
    seq(|parts|, i requires 0 <= i < |parts| => Underscored(parts[i]))
  }

  lemma {:induction false} UnderscoredSplit(path: string)
    ensures Split(Underscored(path)) == UnderscoredAll(Split(path))
  {
    if path != "" {
      UnderscoredSplit(path[1..]);
      assert Underscored(path)[1..] == Underscored(path[1..]);
      var rest := Split(path[1..]);
      if path[0] != '/' {
        assert Underscored([path[0]] + rest[0]) == [Underscored(path)[0]] + Underscored(rest[0]);
      }
    }
  }

  lemma UnderscoredPart(part: string)
    ensures Underscored(part) == "" <==> part == ""
    ensures Underscored(part) == "." <==> part == "."
    ensures Underscored(part) == ".." <==> part == ".."
  {
    var changed := Underscored(part);
    assert forall i :: 0 <= i < |part| ==> (changed[i] == '.' <==> part[i] == '.');
    if changed == "." || changed == ".." {
      assert forall i :: 0 <= i < |part| ==> changed[i] == '.' && part[i] == '.';
    }
  }

  lemma {:induction false} UnderscoredKept(parts: seq<string>)
    ensures Kept(UnderscoredAll(parts)) == UnderscoredAll(Kept(parts))
  {
    hide Underscored;
    if parts != [] {
      UnderscoredPart(parts[0]);
      assert UnderscoredAll(parts)[1..] == UnderscoredAll(parts[1..]);
      UnderscoredKept(parts[1..]);
    }
  }

  lemma {:induction false} UnderscoredClimb(done: seq<string>, parts: seq<string>)
    ensures Climb(UnderscoredAll(done), UnderscoredAll(parts)) == UnderscoredAll(Climb(done, parts))
    decreases parts
  {
    hide Underscored;
    if parts != [] {
      UnderscoredPart(parts[0]);
      assert UnderscoredAll(parts)[1..] == UnderscoredAll(parts[1..]);
      if parts[0] == ".." {
        var left := if done == [] then [] else done[..|done| - 1];
        assert UnderscoredAll(left) == if done == [] then [] else UnderscoredAll(done)[..|done| - 1];
        UnderscoredClimb(left, parts[1..]);
      } else {
        assert UnderscoredAll(done + [parts[0]]) == UnderscoredAll(done) + [Underscored(parts[0])];
        UnderscoredClimb(done + [parts[0]], parts[1..]);
      }
    }
  }

  lemma {:induction false} UnderscoredJoin(parts: seq<string>)
    ensures Join(UnderscoredAll(parts)) == Underscored(Join(parts))
  {
    if |parts| > 1 {
      assert UnderscoredAll(parts)[1..] == UnderscoredAll(parts[1..]);
      UnderscoredJoin(parts[1..]);
      assert Underscored(parts[0] + "/" + Join(parts[1..])) == Underscored(parts[0]) + "/" + Underscored(Join(parts[1..]));
    }
  }

  // ----- Numbered ----------------------------------------------------------------------

  /** What a name ends in, from its last dot on, if something is before that. */
  predicate AreStemAndEnd(stem: string, end: string) {
    if end == "" then forall i :: 1 <= i < |stem| ==> stem[i] != '.'
    else stem != "" && end[0] == '.' && '.' !in end[1..]
  }

  /** A numbered name has its number behind the stem, in brackets, in the folder it was in. */
  lemma NumberedIs(path: string, n: nat, stem: string, end: string)
    requires IsEntryPath(path) && Basename(path) == stem + end && AreStemAndEnd(stem, end)
    ensures Basename(Numbered(path, n)) == stem + " (" + Decimal(n) + ")" + end
    ensures ParentPath(Numbered(path, n)) == ParentPath(path)
  {
    hide LastDot, Decimal, NormalizePath, Numbered;
    NumberedSegments(path, n);
    ExtensionIsEnd(stem, end);
    var name := Basename(path);
    assert name[..|stem|] == stem && name[|stem|..] == end;
  }

  lemma ExtensionIsEnd(stem: string, end: string)
    requires AreStemAndEnd(stem, end)
    ensures ExtensionDot(stem + end) == |stem|
  {
    hide LastDot;
    var name := stem + end;
    if end != "" {
      assert name[|stem|] == '.' && name[|stem| + 1..] == end[1..];
      forall i {:trigger name[i]} | 0 <= i < |stem|
        ensures '.' in name[i + 1..]
      {
        assert name[i + 1..][|stem| - i - 1] == '.';
      }
      forall i | |stem| < i < |name|
        ensures name[i] != '.'
      {
        assert name[i] == end[1..][i - |stem| - 1] && name[i] in end[1..];
      }
    } else {
      assert name == stem;
    }
  }

  // ----- Who keeps a name --------------------------------------------------------------

  /** Some entry unpacks into a folder of that name, or is one. */
  ghost predicate IsFolderName(names: Names, path: string) {
    || (exists file, folder :: file in names.files && folder in AncestorPaths(file) && FoldPath(folder) == FoldPath(path))
    || (exists each, folder :: each in names.folders && folder in AncestorPaths(each) + [each] && FoldPath(folder) == FoldPath(path))
  }

  ghost predicate IsTakenBefore(names: Names, i: nat, path: string)
    requires i <= |names.files|
  {
    IsFolderName(names, path) || exists j :: 0 <= j < i && FoldPath(names.files[j]) == FoldPath(path)
  }

  /**
    A file keeps its name exactly where no folder of the archive has it and no file before it
    has. Otherwise it has the least number, from two, at which that is so.
   */
  lemma NameIs(files: seq<string>, folders: seq<string>, unnamed: string, i: nat)
    requires IsSegment(unnamed) && '\\' !in unnamed && i < |files|
    ensures var names, wanted := ApartOf(files, folders, unnamed), EntryName(files[i], unnamed);
            && |names.files| == |files|
            && (!IsTakenBefore(names, i, wanted) ==> names.files[i] == wanted)
            && (IsTakenBefore(names, i, wanted) ==>
                  exists n: nat {:trigger Numbered(wanted, n)} ::
                    && n >= 2 && names.files[i] == Numbered(wanted, n) && !IsTakenBefore(names, i, Numbered(wanted, n))
                    && forall m: nat {:trigger Numbered(wanted, m)} :: 2 <= m < n ==> IsTakenBefore(names, i, Numbered(wanted, m)))
  {
    hide EntryName, FoldPath, Numbered, IsTakenBefore, Placed, EmptyFolders;
    var names, wanted := ApartOf(files, folders, unnamed), EntryName(files[i], unnamed);
    var named := Named(files, unnamed);
    var taken := Implied(named) + Implied(names.folders) + FoldedOf(names.folders);
    assert named[i] == wanted;
    PlacedAt(named, taken, i);
    var before := taken + FoldedOf(names.files[..i]);
    forall path
      ensures FoldPath(path) in before <==> IsTakenBefore(names, i, path)
    {
      TakenIs(files, folders, unnamed, i, path);
    }
    PlacedOneIsFree(wanted, before);
  }

  lemma {:induction false} PlacedAt(paths: seq<string>, taken: set<string>, i: nat)
    requires (forall path :: path in paths ==> IsEntryPath(path)) && i < |paths|
    ensures paths[i] in paths
    ensures Placed(paths, taken)[i] == PlacedOne(paths[i], taken + FoldedOf(Placed(paths, taken)[..i]))
    decreases |paths|
  {
    hide FoldPath, PlacedOne, IsEntryPath;
    assert paths[0] in paths;
    var first := PlacedOne(paths[0], taken);
    var rest := Placed(paths[1..], taken + {FoldPath(first)});
    assert Placed(paths, taken) == [first] + rest;
    if i == 0 {
      assert taken + FoldedOf([]) == taken;
    } else {
      PlacedAt(paths[1..], taken + {FoldPath(first)}, i - 1);
      assert ([first] + rest)[..i] == [first] + rest[..i - 1];
      FoldedOfCons(first, rest[..i - 1]);
      assert taken + {FoldPath(first)} + FoldedOf(rest[..i - 1]) == taken + FoldedOf([first] + rest[..i - 1]);
    }
  }

  lemma FoldedOfCons(path: string, rest: seq<string>)
    ensures FoldedOf([path] + rest) == {FoldPath(path)} + FoldedOf(rest)
  {
    hide FoldPath;
    assert forall each :: each in [path] + rest <==> each == path || each in rest;
  }

  lemma TakenIs(files: seq<string>, folders: seq<string>, unnamed: string, i: nat, path: string)
    requires IsSegment(unnamed) && '\\' !in unnamed && i < |files|
    ensures var names, named := ApartOf(files, folders, unnamed), Named(files, unnamed);
            && |names.files| == |files|
            && (FoldPath(path) in Implied(named) + Implied(names.folders) + FoldedOf(names.folders) + FoldedOf(names.files[..i])
                <==> IsTakenBefore(names, i, path))
  {
    hide EntryName, FoldPath, Numbered, AncestorPaths, EmptyFolders, Placed, Implied, IsTakenBefore, FoldedOf;
    var names, named := ApartOf(files, folders, unnamed), Named(files, unnamed);
    NamesAreApart(files, folders, unnamed);
    SameImplied(named, names.files);
    TakenIsThere(names, i, path);
  }

  /** Numbering a file leaves the folders it is in. */
  lemma SameImplied(named: seq<string>, placed: seq<string>)
    requires SameFolders(named, placed) && |named| == |placed|
    ensures Implied(named) == Implied(placed)
  {
    hide FoldPath, AncestorPaths, Implied, ParentPath;
    ImpliedAlone(named, placed);
    ImpliedAlone(placed, named);
  }

  lemma ImpliedAlone(named: seq<string>, placed: seq<string>)
    requires |named| == |placed| && forall i :: 0 <= i < |named| ==> ParentPath(placed[i]) == ParentPath(named[i])
    ensures Implied(placed) <= Implied(named)
  {
    hide FoldPath, AncestorPaths, Implied, ParentPath;
    ImpliedKept(named, placed, []);
    NothingImplied();
    assert [] + placed == placed;
  }

  lemma NothingImplied()
    ensures Implied([]) == {}
  {}

  lemma TakenIsThere(names: Names, i: nat, path: string)
    requires i < |names.files|
    ensures FoldPath(path) in Implied(names.files) + Implied(names.folders) + FoldedOf(names.folders) + FoldedOf(names.files[..i])
            <==> IsTakenBefore(names, i, path)
  {
    hide FoldPath, AncestorPaths, Implied, FoldedOf;
    ImpliedIs(names.files, path);
    ImpliedIs(names.folders, path);
    FoldedIs(names.folders, path);
    FoldedIs(names.files[..i], path);
    FolderNameIs(names, path);
    assert forall each :: each in names.files[..i] <==> exists j :: 0 <= j < i && names.files[j] == each;
  }

  lemma FolderNameIs(names: Names, path: string)
    ensures IsFolderName(names, path) <==>
              || (exists each, folder :: each in names.files && folder in AncestorPaths(each) && FoldPath(folder) == FoldPath(path))
              || (exists each, folder :: each in names.folders && folder in AncestorPaths(each) && FoldPath(folder) == FoldPath(path))
              || (exists each :: each in names.folders && FoldPath(each) == FoldPath(path))
  {
    hide FoldPath, AncestorPaths;
    if each :| each in names.folders && FoldPath(each) == FoldPath(path) {
      assert each in AncestorPaths(each) + [each];
    }
    if each, folder :| each in names.folders && folder in AncestorPaths(each) && FoldPath(folder) == FoldPath(path) {
      assert folder in AncestorPaths(each) + [each];
    }
  }

  lemma ImpliedIs(paths: seq<string>, path: string)
    ensures FoldPath(path) in Implied(paths)
            <==> exists each, folder :: each in paths && folder in AncestorPaths(each) && FoldPath(folder) == FoldPath(path)
  {
    hide FoldPath, AncestorPaths;
    if each, folder :| each in paths && folder in AncestorPaths(each) && FoldPath(folder) == FoldPath(path) {
      var i :| 0 <= i < |paths| && paths[i] == each;
      assert folder in AncestorPaths(paths[i]);
    }
  }

  lemma FoldedIs(paths: seq<string>, path: string)
    ensures FoldPath(path) in FoldedOf(paths) <==> exists each :: each in paths && FoldPath(each) == FoldPath(path)
  {
    hide FoldPath;
  }

  // ----- Which notebooks are written ---------------------------------------------------

  /**
    The notebooks written are given, none of them the top, none one that a file is in, and no
    two of them one; and each one given but the top is a folder of the archive.
   */
  lemma FoldersAre(files: seq<string>, folders: seq<string>, unnamed: string)
    requires IsSegment(unnamed) && '\\' !in unnamed
    ensures var names := ApartOf(files, folders, unnamed);
            && (forall path :: path in names.folders ==>
                  && path != ROOT && (exists given :: given in folders && SafeName(given) == path)
                  && !exists file, folder :: file in names.files && folder in AncestorPaths(file) && FoldPath(folder) == FoldPath(path))
            && (forall i, j :: 0 <= i < j < |names.folders| ==> FoldPath(names.folders[i]) != FoldPath(names.folders[j]))
            && (forall given :: given in folders && SafeName(given) != ROOT ==> IsFolderName(names, SafeName(given)))
  {
    hide FoldPath, AncestorPaths, Implied, SafeName, NormalizePath, EmptyFolders, Placed, FoldedOf;
    var names, named := ApartOf(files, folders, unnamed), Named(files, unnamed);
    NamesAreApart(files, folders, unnamed);
    SameImplied(named, names.files);
    EmptyFoldersApart(folders, Implied(named), {});
    EmptyFoldersAreGiven(folders, Implied(named), {});
    forall path | path in names.folders
      ensures path != ROOT && FoldPath(path) !in Implied(names.files)
    {
      var i :| 0 <= i < |names.folders| && names.folders[i] == path;
      assert FoldPath(names.folders[i]) !in Implied(named) + {};
    }
    forall path
      ensures FoldPath(path) in Implied(names.files)
              <==> exists file, folder :: file in names.files && folder in AncestorPaths(file) && FoldPath(folder) == FoldPath(path)
    {
      ImpliedIs(names.files, path);
    }
    forall given | given in folders && SafeName(given) != ROOT
      ensures IsFolderName(names, SafeName(given))
    {
      EmptyFoldersKept(folders, Implied(named), {}, given);
      FoldedIs(names.folders, SafeName(given));
      FolderNameIs(names, SafeName(given));
    }
  }
}
