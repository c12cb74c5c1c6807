/**
  When an archive gives everything back as it was: every file under its own name with its
  bytes, and every empty notebook. A name that starts with a byte order mark loses it, and
  a file over the import's limit is not read; nothing else changes.
 */
module ZipUnchanged {
  import opened Paths
  import opened Options
  import opened Naming
  import opened Utf8
  import opened Apart
  import opened Zip
  import opened ZipWriter

  predicate IsMarked(name: string) {
    name != "" && name[0] == BOM
  }

  // ----- Marks the naming pass keeps ---------------------------------------------------

  /** A path is marked when its first segment is. */
  lemma MarkedByFirst(path: string)
    requires IsEntryPath(path)
    ensures PathSegments(path) != [] && (IsMarked(path) <==> IsMarked(PathSegments(path)[0]))
  {
    SegmentsOfPath(path);
    var parts := PathSegments(path);
    assert path == Join(parts);
    assert parts[0] in parts && parts[0] != "";
  }

  lemma SameFirstSameMark(a: string, b: string)
    requires IsEntryPath(a) && IsEntryPath(b) && PathSegments(a) != [] && PathSegments(b) != []
    requires IsMarked(PathSegments(a)[0]) <==> IsMarked(PathSegments(b)[0])
    ensures IsMarked(a) <==> IsMarked(b)
  {
    MarkedByFirst(a);
    MarkedByFirst(b);
  }

  /** A number goes in behind the first character. */
  lemma NumberedKeepsMark(path: string, n: nat)
    requires IsEntryPath(path)
    ensures IsEntryPath(Numbered(path, n)) && (IsMarked(Numbered(path, n)) <==> IsMarked(path))
  {
    hide Decimal, LastDot, NumberedName, NormalizePath;
    MarkedByFirst(path);
    NumberedSegments(path, n);
    SegmentsOfPath(path);
    var parts := PathSegments(path);
    assert parts[0] in parts;
    NumberedNameKeepsMark(parts[0], n);
    ParentSegments(path);
    SameFirstSameMark(Numbered(path, n), path);
  }

  lemma NumberedNameKeepsMark(name: string, n: nat)
    requires name != ""
    ensures IsMarked(NumberedName(name, n)) <==> IsMarked(name)
  {
    assert ExtensionDot(name) > 0;
  }

  lemma PlacedOneKeepsMark(path: string, taken: set<string>)
    requires IsEntryPath(path)
    ensures IsEntryPath(PlacedOne(path, taken)) && (IsMarked(PlacedOne(path, taken)) <==> IsMarked(path))
  {
    hide IsMarked, Numbered, FoldPath;
    PlacedOneIsFree(path, taken);
    if FoldPath(path) in taken {
      var n: nat :| PlacedOne(path, taken) == Numbered(path, n);
      NumberedKeepsMark(path, n);
    }
  }

  lemma {:induction false} PlacedKeepsMarks(paths: seq<string>, taken: set<string>)
    requires forall path :: path in paths ==> IsEntryPath(path)
    ensures forall i :: 0 <= i < |paths| ==> (IsMarked(Placed(paths, taken)[i]) <==> IsMarked(paths[i]))
    decreases |paths|
  {
    hide IsMarked, PlacedOne, FoldPath, IsEntryPath;
    if paths != [] {
      assert paths[0] in paths;
      PlacedOneKeepsMark(paths[0], taken);
      PlacedKeepsMarks(paths[1..], taken + {FoldPath(PlacedOne(paths[0], taken))});
    }
  }

  /** Folding neither puts a mark on a path nor takes one off. */
  lemma FoldKeepsMark(path: string)
    requires IsEntryPath(path)
    ensures IsEntryPath(FoldPath(path)) && (IsMarked(FoldPath(path)) <==> IsMarked(path))
  {
    FoldPathSegments(path);
    NormalizeIdempotent(FoldPath(path));
    assert FoldPath(path) == FoldName(path);
    MarkedByFirst(path);
    JoinIsNormal(FoldSegments(path));
  }

  /** A notebook above a path is marked exactly when the path is. */
  lemma AncestorKeepsMark(path: string, folder: string)
    requires IsEntryPath(path) && folder in AncestorPaths(path)
    ensures IsEntryPath(folder) && (IsMarked(folder) <==> IsMarked(path))
  {
    hide NormalizePath, PathSegments, IsMarked;
    AncestorsArePrefixes(path);
    MarkedByFirst(path);
    var i :| 0 <= i < |AncestorPaths(path)| && AncestorPaths(path)[i] == folder;
    assert PathSegments(folder) == PathSegments(path)[..i + 1];
    NotTheRoot(folder);
    SameMark(path, folder);
  }

  lemma NotTheRoot(folder: string)
    requires PathSegments(folder) != []
    ensures folder != ROOT
  {
    SegmentsOfPath(ROOT);
    assert Resolved(ROOT) == [];
  }

  lemma SameMark(path: string, folder: string)
    requires IsEntryPath(path) && IsEntryPath(folder) && PathSegments(path) != []
    requires |PathSegments(folder)| <= |PathSegments(path)|
    requires PathSegments(path)[..|PathSegments(folder)|] == PathSegments(folder)
    ensures IsMarked(folder) <==> IsMarked(path)
  {
    MarkedByFirst(path);
    MarkedByFirst(folder);
  }

  // ----- Which names are written -------------------------------------------------------

  ghost predicate NoneMarked(paths: seq<string>) {
    forall i :: 0 <= i < |paths| ==> !IsMarked(paths[i])
  }

  /** No name given is marked, once what no archive can hold is taken out of it. */
  ghost predicate GivenUnmarked(files: seq<string>, folders: seq<string>, unnamed: string) {
    && (forall path :: path in files ==> !IsMarked(EntryName(path, unnamed)))
    && (forall folder :: folder in folders ==> !IsMarked(SafeName(folder)))
  }

  lemma FilesUnmarked(files: seq<string>, taken: set<string>, unnamed: string)
    requires IsSegment(unnamed) && '\\' !in unnamed
    ensures NoneMarked(Placed(Named(files, unnamed), taken)) <==> forall path :: path in files ==> !IsMarked(EntryName(path, unnamed))
  {
    hide IsMarked, EntryName, IsEntryPath, PlacedOne, FoldPath;
    var named := Named(files, unnamed);
    PlacedKeepsMarks(named, taken);
    forall path | path in files && NoneMarked(Placed(named, taken))
      ensures !IsMarked(EntryName(path, unnamed))
    {
      var i :| 0 <= i < |files| && files[i] == path;
      assert named[i] == EntryName(files[i], unnamed);
    }
    assert forall i :: 0 <= i < |files| ==> files[i] in files;
  }

  /** With no file and no written notebook marked, no notebook given is. */
  lemma FolderUnmarked(folders: seq<string>, named: seq<string>, folder: string)
    requires forall path :: path in named ==> IsEntryPath(path)
    requires folder in folders && IsMarked(SafeName(folder))
    ensures !NoneMarked(EmptyFolders(folders, Implied(named), {})) || !NoneMarked(named)
  {
    hide IsMarked, FoldPath, AncestorPaths, IsEntryPath;
    var empty := EmptyFolders(folders, Implied(named), {});
    SafeNameIsPath(folder);
    EmptyFoldersKept(folders, Implied(named), {}, folder);
    EmptyFoldersApart(folders, Implied(named), {});
    var folded := FoldPath(SafeName(folder));
    FoldKeepsMark(SafeName(folder));
    if folded in Implied(named) {
      var i, above :| 0 <= i < |named| && above in AncestorPaths(named[i]) && FoldPath(above) == folded;
      assert named[i] in named;
      AncestorKeepsMark(named[i], above);
      FoldKeepsMark(above);
    } else {
      assert folded in FoldedOf(empty);
      var path :| path in empty && FoldPath(path) == folded;
      var i :| 0 <= i < |empty| && empty[i] == path;
      FoldKeepsMark(path);
    }
  }

  lemma SafeNameIsPath(folder: string)
    ensures IsMarked(SafeName(folder)) ==> IsEntryPath(SafeName(folder))
    ensures SafeName(folder) == ROOT ==> !IsMarked(SafeName(folder))
  {
    NormalizeIdempotent(Underscored(folder));
  }

  /** No name of the archive is marked exactly when none given is. */
  lemma NamesUnmarkedIff(files: seq<string>, folders: seq<string>, unnamed: string)
    requires IsSegment(unnamed) && '\\' !in unnamed
    ensures var names := ApartOf(files, folders, unnamed);
            NoneMarked(names.folders) && NoneMarked(names.files) <==> GivenUnmarked(files, folders, unnamed)
  {
    hide IsMarked, FoldPath, EntryName, SafeName, IsEntryPath, Placed, EmptyFolders, Implied, FoldedOf;
    var named := Named(files, unnamed);
    var empty := EmptyFolders(folders, Implied(named), {});
    var taken := Implied(named) + Implied(empty) + FoldedOf(empty);
    FilesUnmarked(files, taken, unnamed);
    EmptyFoldersAreGiven(folders, Implied(named), {});
    AllNamedArePaths(files, unnamed);
    forall folder | folder in folders && NoneMarked(empty) && NoneMarked(Placed(named, taken))
      ensures !IsMarked(SafeName(folder))
    {
      NamedUnmarked(files, unnamed);
      if IsMarked(SafeName(folder)) {
        FolderUnmarked(folders, named, folder);
      }
    }
    assert forall i :: 0 <= i < |empty| ==> empty[i] in empty;
  }

  lemma AllNamedArePaths(files: seq<string>, unnamed: string)
    requires IsSegment(unnamed) && '\\' !in unnamed
    ensures forall path :: path in Named(files, unnamed) ==> IsEntryPath(path)
  {
    hide IsEntryPath, EntryName;
  }

  lemma NamedUnmarked(files: seq<string>, unnamed: string)
    requires IsSegment(unnamed) && '\\' !in unnamed
    ensures (forall path :: path in files ==> !IsMarked(EntryName(path, unnamed))) ==> NoneMarked(Named(files, unnamed))
  {
    hide IsMarked, EntryName, IsEntryPath;
    assert forall i :: 0 <= i < |files| ==> files[i] in files;
  }

  // ----- What is read back -------------------------------------------------------------

  /** Every notebook and file of the archive, under its own name and with its bytes. */
  function Unchanged(files: seq<ZipFile>, folders: seq<ZipFolder>, unnamed: string): seq<ZipEntry>
    requires IsSegment(unnamed) && '\\' !in unnamed
  {
    var names := NamesOf(files, folders, unnamed);
    seq(|names.folders|, i requires 0 <= i < |names.folders| => Folder(names.folders[i] + "/"))
    + seq(|files|, i requires 0 <= i < |files| => File(names.files[i], DataOf(files[i].content)))
  }

  lemma BomIsLost(name: string)
    requires name != ""
    ensures WithoutBom(name) == name <==> !IsMarked(name)
    ensures WithoutBom(name + "/") == name + "/" <==> !IsMarked(name)
  {
    assert (name + "/")[0] == name[0];
    assert IsMarked(name) ==> |WithoutBom(name)| < |name| && |WithoutBom(name + "/")| < |name + "/"|;
  }

  lemma FoldersUnchangedIff(paths: seq<string>)
    requires forall i :: 0 <= i < |paths| ==> paths[i] != ""
    ensures FoldersReadBack(paths) == seq(|paths|, i requires 0 <= i < |paths| => Folder(paths[i] + "/"))
            <==> NoneMarked(paths)
  {
    hide IsMarked, WithoutBom;
    var same := seq(|paths|, i requires 0 <= i < |paths| => Folder(paths[i] + "/"));
    forall i | 0 <= i < |paths|
      ensures FoldersReadBack(paths)[i] == same[i] <==> !IsMarked(paths[i])
    {
      BomIsLost(paths[i]);
    }
  }

  lemma FilesUnchangedIff(paths: seq<string>, files: seq<ZipFile>)
    requires |paths| == |files| && forall i :: 0 <= i < |paths| ==> paths[i] != ""
    ensures FilesReadBack(paths, files) == seq(|files|, i requires 0 <= i < |files| => File(paths[i], DataOf(files[i].content)))
            <==> NoneMarked(paths) && forall i :: 0 <= i < |files| ==> |DataOf(files[i].content)| <= MAX_ATTACHMENT_BYTES
  {
    hide IsMarked, WithoutBom, DataOf;
    var same := seq(|files|, i requires 0 <= i < |files| => File(paths[i], DataOf(files[i].content)));
    forall i | 0 <= i < |paths|
      ensures FilesReadBack(paths, files)[i] == same[i]
              <==> !IsMarked(paths[i]) && |DataOf(files[i].content)| <= MAX_ATTACHMENT_BYTES
    {
      BomIsLost(paths[i]);
    }
  }

  /**
    A written archive is read back with every notebook and file unchanged exactly when
    no file is over the import's limit and no name given starts with a byte order mark.
   */
  lemma ReadsBackUnchangedIff(files: seq<ZipFile>, folders: seq<ZipFolder>, unnamed: string, inflate: Inflate)
    requires IsSegment(unnamed) && '\\' !in unnamed
    requires OutcomeOf(files, folders, unnamed).Written?
    ensures ReadZip(Archive(OutcomeOf(files, folders, unnamed).entries), inflate) == Ok(Unchanged(files, folders, unnamed))
            <==> && (forall i :: 0 <= i < |files| ==> |DataOf(files[i].content)| <= MAX_ATTACHMENT_BYTES)
                 && GivenUnmarked(FilePaths(files), FolderPaths(folders), unnamed)
  {
    hide OutcomeOf, ReadZip, Archive, ApartOf, GivenUnmarked, NoneMarked, FoldersReadBack, FilesReadBack, DataOf,
      IsEntryPath, FilePaths, FolderPaths;
    var names := NamesOf(files, folders, unnamed);
    ArchiveReadsBack(files, folders, unnamed, inflate);
    NamesUnmarkedIff(FilePaths(files), FolderPaths(folders), unnamed);
    NamesAreReadable(files, folders, unnamed);
    PathsAreNamed(names);
    FoldersUnchangedIff(names.folders);
    FilesUnchangedIff(names.files, files);
    SameHalves(FoldersReadBack(names.folders), FilesReadBack(names.files, files),
               seq(|names.folders|, i requires 0 <= i < |names.folders| => Folder(names.folders[i] + "/")),
               seq(|files|, i requires 0 <= i < |files| => File(names.files[i], DataOf(files[i].content))));
  }

  lemma PathsAreNamed(names: Names)
    requires forall i :: 0 <= i < |names.folders| ==> IsEntryPath(names.folders[i])
    requires forall i :: 0 <= i < |names.files| ==> IsEntryPath(names.files[i])
    ensures forall i :: 0 <= i < |names.folders| ==> names.folders[i] != ""
    ensures forall i :: 0 <= i < |names.files| ==> names.files[i] != ""
  {
    hide NormalizePath;
  }

  lemma SameHalves<T>(a: seq<T>, b: seq<T>, c: seq<T>, d: seq<T>)
    requires |a| == |c|
    ensures a + b == c + d <==> a == c && b == d
  {
    if a + b == c + d {
      assert (a + b)[..|a|] == a && (c + d)[..|a|] == c;
      assert (a + b)[|a|..] == b && (c + d)[|a|..] == d;
    }
  }

  /** A note whose name starts with a mark, and nothing else. */
  const MARKED: seq<ZipFile> := [ZipFile([BOM, 'a'], Text("text"), None)]

  lemma MarkedIsNormal()
    ensures IsSegment([BOM, 'a']) && PathSegments([BOM, 'a']) == [[BOM, 'a']]
    ensures SafeName([BOM, 'a']) == [BOM, 'a'] && IsSegment("unnamed")
  {
    assert AreSegments([[BOM, 'a']]);
    JoinIsNormal([[BOM, 'a']]);
    assert Underscored([BOM, 'a']) == [BOM, 'a'];
  }

  lemma MarkedNames()
    ensures IsSegment("unnamed") && NamesOf(MARKED, [], "unnamed") == Names([], [[BOM, 'a']])
  {
    hide SafeName, PathSegments, FoldPath, AncestorPaths;
    MarkedIsNormal();
    AncestorsArePrefixes([BOM, 'a']);
    assert FilePaths(MARKED) == [[BOM, 'a']] && FolderPaths([]) == [];
    var named := Named([[BOM, 'a']], "unnamed");
    assert [[BOM, 'a']][1..] == [];
    assert named == [[BOM, 'a']];
    assert Implied(named) == {};
  }

  lemma MarkedIsWritten()
    ensures IsSegment("unnamed") && OutcomeOf(MARKED, [], "unnamed").Written?
  {
    hide NamesOf, Local, Central, EntryOf, Encode;
    MarkedNames();
    var e := EntryOf([BOM, 'a'], Text("text"), None, 0);
    LittleEntry(e);
    assert AllEntries(MARKED, [], "unnamed") == [e];
    OneMore([], e);
    NothingYet();
    assert [] + [e] == [e];
  }

  lemma LittleEntry(e: Entry)
    requires e == EntryOf([BOM, 'a'], Text("text"), None, 0)
    ensures |e.name| == 4 && |e.data| == 4
  {
    LittleText();
    hide Encode;
  }

  lemma MarkedIsReadAs()
    ensures IsSegment("unnamed")
    ensures Unchanged(MARKED, [], "unnamed") == [File([BOM, 'a'], Encode("text"))]
    ensures AllReadBack(MARKED, [], "unnamed") == [File("a", Encode("text"))]
  {
    hide NamesOf, Encode;
    MarkedNames();
    LittleText();
    assert [BOM, 'a'][1..] == "a";
  }

  lemma LittleText()
    ensures |Encode([BOM, 'a'])| == 4 && |Encode("text")| == 4
  {
    assert [BOM, 'a'][1..] == "a" && "a"[1..] == "";
    assert "text"[1..] == "ext" && "ext"[1..] == "xt" && "xt"[1..] == "t" && "t"[1..] == "";
  }

  /** It is written, and is read back under another name. */
  lemma MarkedIsNotUnchanged(inflate: Inflate)
    ensures IsSegment("unnamed") && OutcomeOf(MARKED, [], "unnamed").Written?
    ensures ReadZip(Archive(OutcomeOf(MARKED, [], "unnamed").entries), inflate) == Ok([File("a", Encode("text"))])
    ensures Unchanged(MARKED, [], "unnamed") == [File([BOM, 'a'], Encode("text"))]
  {
    hide OutcomeOf, AllReadBack, ReadZip, Archive, Unchanged, Encode;
    MarkedIsWritten();
    MarkedIsReadAs();
    ArchiveReadsBack(MARKED, [], "unnamed", inflate);
  }
}
