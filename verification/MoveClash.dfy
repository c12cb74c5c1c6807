/**
  When a conflict copy takes a path some note is at. The taken paths are handed over
  whole where names are expected (apps/web/src/store/connection.ts:431), so they are
  avoided at the top of the source and nowhere else.
 */
module MoveClash {
  import opened Options
  import opened Paths
  import opened Naming
  import opened Library
  import opened MoveNotes
  import opened MoveSpellings

  ghost predicate AreFolded(taken: set<string>) {
    forall folded :: folded in taken ==> FoldPath(folded) == folded
  }

  lemma LivePathsAreFolded(notes: map<Id, Note>)
    ensures AreFolded(LivePaths(notes))
  {
    hide FoldPath;
    forall folded | folded in LivePaths(notes)
      ensures FoldPath(folded) == folded
    {
      var id :| id in notes && IsLive(notes[id]) && FoldPath(notes[id].path) == folded;
      FoldPathSegments(notes[id].path);
    }
  }

  /** At the top of a source a path is a name, and a conflict name is a free path. */
  lemma TopConflictIsFree(path: string, stamp: Stamp, taken: set<string>)
    requires AreFolded(taken) && ParentPath(path) == ROOT
    ensures FoldPath(ConflictPath(path, stamp, taken)) !in taken
  {
    hide FoldPath, ConflictPath, Basename;
    forall name | name in NamesIn(taken, ROOT)
      ensures name in taken || name == ""
    {
      var each :| each in taken && FoldPath(ParentPath(each)) == FoldPath(ROOT) && Basename(each) == name;
      NameAtTheTop(each);
    }
    TopNames(path, stamp, taken);
  }

  lemma TopNames(path: string, stamp: Stamp, taken: set<string>)
    requires AreFolded(taken) && ParentPath(path) == ROOT
    requires forall name :: name in NamesIn(taken, ROOT) ==> name in taken || name == ""
    ensures FoldPath(ConflictPath(path, stamp, taken)) !in taken
  {
    hide FoldPath, ConflictPath;
    var named := taken - {ROOT};
    assert NamesIn(named, ROOT) <= NamesIn(taken, ROOT);
    ConflictPathBeside(path, stamp, taken, named);
    forall name | name in NamesIn(named, ROOT)
      ensures name in taken
    {
      var each :| each in named && FoldPath(ParentPath(each)) == FoldPath(ROOT) && Basename(each) == name;
      NameAtTheTop(each);
      FoldedIsNormal(each);
      NormalIsRootOrNamed(each);
      ParentSegments(each);
    }
    FoldOfSubset(NamesIn(named, ROOT), taken);
    NamedIsNotRoot(ConflictPath(path, stamp, taken));
    assert forall each :: each in named ==> FoldPath(each) in FoldedPaths(named);
  }

  lemma NamedIsNotRoot(path: string)
    requires PathSegments(path) != []
    ensures FoldPath(path) != ROOT
  {
    FoldPathSegments(path);
    NormalRoot();
  }

  lemma FoldOfSubset(a: set<string>, b: set<string>)
    requires a <= b
    ensures Folded(a) <= Folded(b)
  {}

  lemma FoldedIsNormal(path: string)
    requires FoldPath(path) == path
    ensures IsNormal(path)
  {
    FoldPathSegments(path);
    SegmentsOfPath(path);
    JoinIsNormal(FoldSegments(path));
  }

  lemma NameAtTheTop(path: string)
    requires FoldPath(path) == path && FoldPath(ParentPath(path)) == FoldPath(ROOT)
    ensures Basename(path) == path
  {
    FoldedIsNormal(path);
    ParentSegments(path);
    NormalRoot();
    SameFold(ParentPath(path), ROOT);
    assert |FoldSegments(ParentPath(path))| == |FoldSegments(ROOT)| == 0;
    if PathSegments(path) == [] {
      SameNormalRoot(path);
    } else {
      assert PathSegments(path) == [Basename(path)];
      SegmentsOfPath(path);
    }
  }

  lemma SameNormalRoot(path: string)
    requires IsNormal(path) && PathSegments(path) == []
    ensures path == ROOT
  {
    NormalRoot();
    SameNormal(path, ROOT);
  }

  /** Where no taken path is at the top, every one has a separator, and none is a name. */
  lemma NotebooksHaveSeparators(path: string)
    requires |PathSegments(path)| >= 2
    ensures '/' in FoldPath(path)
  {
    FoldPathSegments(path);
    var parts := FoldSegments(path);
    assert |parts| == |PathSegments(path)|;
    assert Join(parts) == parts[0] + "/" + Join(parts[1..]);
    assert Join(parts)[|parts[0]|] == '/';
  }

  // ----- What a conflict name avoids ---------------------------------------------------

  /** Of the paths taken, those that could be names. */
  function Names(taken: set<string>): set<string> {
    set each | each in taken && '/' !in each
  }

  /** Every name the search tries has a bracket and no separator. */
  lemma CandidateIsBracketed(path: string, stamp: Stamp, n: nat)
    ensures var name := ConflictCandidate(StemOf(Basename(path)), NOTE_EXTENSION, stamp)(n);
            '/' !in name && '(' in name
  {
    hide FoldName, Cut, Utf8Length, ConflictTail, StemOf, Basename;
    BasenameHasNoSeparator(path);
    var stem := StemOf(Basename(path));
    var tail := ConflictTail(stamp, n + 1, NOTE_EXTENSION);
    var head := Cut(stem, |stem|, MAX_NAME_BYTES - Utf8Length(tail));
    TailIsBracketed(stamp, n + 1);
    PrefixHasNoSeparator(stem, Basename(path));
    PrefixHasNoSeparator(head, stem);
    BracketedConcat(head, tail);
    FoldKeepsBrackets(head + tail);
  }

  lemma PrefixHasNoSeparator(front: string, whole: string)
    requires front <= whole && '/' !in whole
    ensures '/' !in front
  {
    assert forall i :: 0 <= i < |front| ==> front[i] == whole[i];
  }

  lemma BracketedConcat(head: string, tail: string)
    requires '/' !in head && '/' !in tail && |tail| > 1 && tail[1] == '('
    ensures '/' !in head + tail && '(' in head + tail
  {
    assert (head + tail)[|head| + 1] == '(';
  }

  lemma TailIsBracketed(stamp: Stamp, n: nat)
    ensures var tail := ConflictTail(stamp, n, NOTE_EXTENSION); |tail| > 1 && tail[1] == '(' && '/' !in tail
  {
    assert '/' !in Decimal(n) && '/' !in NOTE_EXTENSION && '/' !in " (conflict " && '/' !in ")" && '/' !in "-";
  }

  lemma FoldKeepsBrackets(s: string)
    ensures '/' in FoldName(s) <==> '/' in s
    ensures '(' in FoldName(s) <==> '(' in s
  {
    forall c | c == '/' || c == '('
      ensures c in FoldName(s) <==> c in s
    {
      if c in s {
        var i :| 0 <= i < |s| && s[i] == c;
        assert FoldName(s)[i] == c;
      }
      if c in FoldName(s) {
        var i :| 0 <= i < |s| && FoldName(s)[i] == c;
        assert s[i] == c;
      }
    }
  }

  /** Two sets of paths that hold the same bracketed names give one conflict name. */
  lemma SameNamesSameCopy(path: string, stamp: Stamp, a: set<string>, b: set<string>)
    requires forall name :: '/' !in name && '(' in name ==> (name in Folded(a) <==> name in Folded(b))
    ensures ConflictPath(path, stamp, a) == ConflictPath(path, stamp, b)
  {
    hide FoldName, ConflictNumbered, Decimal, StemOf, Basename, ReplaceBasename, Folded, ConflictCandidate;
    var stem := StemOf(Basename(path));
    var candidate := ConflictCandidate(stem, NOTE_EXTENSION, stamp);
    ConflictCandidatesDistinct(stem, NOTE_EXTENSION, stamp);
    forall m: nat
      ensures candidate(m) in Folded(a) <==> candidate(m) in Folded(b)
    {
      CandidateIsBracketed(path, stamp, m);
    }
    LeastFreeSame(candidate, Folded(a), Folded(b));
  }

  /** A conflict copy avoids the paths taken that are names, and none of the rest. */
  lemma OnlyNamesAreAvoided(path: string, stamp: Stamp, taken: set<string>)
    ensures ConflictPath(path, stamp, taken) == ConflictPath(path, stamp, Names(taken))
  {
    hide FoldName, ConflictPath;
    forall name | '/' !in name && '(' in name
      ensures name in Folded(taken) <==> name in Folded(Names(taken))
    {
      forall each | each in taken && FoldName(each) == name
        ensures each in Names(taken)
      {
        FoldKeepsBrackets(each);
      }
    }
    SameNamesSameCopy(path, stamp, taken, Names(taken));
  }

  /** A conflict copy clashes exactly when the path beside its own, named apart from the names alone, is taken. */
  lemma ClashesIff(c: Moving, g: Landed, id: Id)
    requires id in c.notes && Goes(c, id) && IsLive(c.notes[id]) && HasTwin(c, id)
    ensures Clashes(c, g, id) <==>
            FoldPath(ConflictPath(NoteRespelled(g.spellings, c.notes[id].path).path, c.stamp, Names(LivePaths(g.notes))))
            in LivePaths(g.notes)
  {
    hide FoldPath, ConflictPath, NoteRespelled, LivePaths, Names;
    OnlyNamesAreAvoided(NoteRespelled(g.spellings, c.notes[id].path).path, c.stamp, LivePaths(g.notes));
  }

  /** A row wanting a place at the top of the source never clashes. */
  lemma TopNeverClashes(c: Moving, g: Landed, id: Id)
    requires id in c.notes && ParentPath(NoteRespelled(g.spellings, c.notes[id].path).path) == ROOT
    ensures !Clashes(c, g, id)
  {
    hide FoldPath, ConflictPath, NoteRespelled, LivePaths;
    LivePathsAreFolded(g.notes);
    TopConflictIsFree(NoteRespelled(g.spellings, c.notes[id].path).path, c.stamp, LivePaths(g.notes));
  }

  function Clean(path: string, remoteId: Id): Note {
    Note(path, "theirs", Some(remoteId), None, None, false, false, 0, 0)
  }

  /**
    An edit kept by a detached source, whose file the live connection has pulled at
    another name, and beside which the same conflict name is in use already.
   */
  function ClashingMove(stamp: Stamp): Moving {
    Moving(
      Resume,
      map[5 := Note("w/n.md", "mine", Some(7), None, None, true, false, 0, 0)],
      {5},
      map[0 := Clean("x/y.md", 7), 1 := Clean(ConflictPath("w/n.md", stamp, {}), 8)],
      map[7 := 0, 8 := 1],
      map[5 := 6],
      {},
      stamp)
  }

  /** Two live notes at one path, where none were: the resume of `ClashingMove` into its target. */
  lemma ConflictCopiesCanClash(stamp: Stamp)
    ensures ValidMoving(ClashingMove(stamp)) && DistinctPaths(ClashingMove(stamp).theirs)
    ensures !DistinctPaths(PlaceNotes(ClashingMove(stamp), NoneLanded(ClashingMove(stamp), map[]), [5]).notes)
  {
    hide FoldPath, ConflictPath, LivePaths, ParentPath, Basename, JoinPath, OwedAt, RowAt, DistinctPaths;
    var c := ClashingMove(stamp);
    var copy := ConflictPath("w/n.md", stamp, {});
    var g := NoneLanded(c, map[]);
    ClashingIsValid(stamp);
    ClashingPaths(stamp);
    RespelledNowhere("w/n.md", "w");
    OnlyNamesAreAvoided("w/n.md", stamp, LivePaths(c.theirs));
    NoNamesTaken(c.theirs);
    PlaceNoteDistinct(c, g, 5);
    assert [5][1..] == [];
    assert PlaceNotes(c, PlaceNote(c, g, 5), []) == PlaceNote(c, g, 5);
    assert PlaceNotes(c, g, [5]) == PlaceNote(c, g, 5);
  }

  lemma NoNamesTaken(notes: map<Id, Note>)
    requires forall folded :: folded in LivePaths(notes) ==> '/' in folded
    ensures Names(LivePaths(notes)) == {}
  {}

  lemma ClashingIsValid(stamp: Stamp)
    ensures ValidMoving(ClashingMove(stamp))
    ensures Goes(ClashingMove(stamp), 5) && HasTwin(ClashingMove(stamp), 5)
  {
    hide ConflictPath;
    var c := ClashingMove(stamp);
    assert LandsRight(c, 5);
  }

  lemma RespelledNowhere(path: string, folder: string)
    requires IsNormal(path) && PathSegments(path) == [folder, Basename(path)] && ParentPath(path) == folder
    requires PathSegments(folder) == [folder] && folder != ROOT
    ensures NoteRespelled(map[], path).path == path
  {
    hide FoldPath;
    NormalRoot();
    ParentSegments(folder);
    ParentSegments(path);
    assert Init([folder]) == [];
    SameNormalRoot(ParentPath(folder));
    assert Basename(folder) == folder;
    var spelled := JoinPath(ROOT, folder);
    JoinPathSegments(ROOT, folder);
    assert Respell(map[], folder).path == spelled;
    JoinPathSegments(spelled, Basename(path));
    assert PathSegments(JoinPath(spelled, Basename(path))) == [folder, Basename(path)];
    SameNormal(JoinPath(spelled, Basename(path)), path);
  }

  lemma ClashingPaths(stamp: Stamp)
    ensures var theirs := ClashingMove(stamp).theirs;
            && DistinctPaths(theirs)
            && (forall folded :: folded in LivePaths(theirs) ==> '/' in folded)
            && FoldPath(ConflictPath("w/n.md", stamp, {})) in LivePaths(theirs)
    ensures IsNormal("w/n.md") && ParentPath("w/n.md") == "w" && PathSegments("w") == ["w"]
    ensures PathSegments("w/n.md") == ["w", "n.md"] && Basename("w/n.md") == "n.md"
  {
    hide FoldPath, ConflictPath, FoldName, LivePaths, DistinctPaths, ParentPath, Basename, PathSegments, FoldSegments;
    TwoParts("w/n.md", "w", "n.md");
    CopyIsElsewhere(stamp);
    TwoLive(ClashingMove(stamp).theirs, "x/y.md", ConflictPath("w/n.md", stamp, {}));
  }

  lemma OtherPath()
    ensures PathSegments("x/y.md") == ["x", "y.md"] && PathSegments("w") == ["w"]
  {
    TwoParts("w/n.md", "w", "n.md");
    TwoParts("x/y.md", "x", "y.md");
  }

  lemma CopyBesideN(stamp: Stamp)
    ensures var copy := ConflictPath("w/n.md", stamp, {});
            PathSegments(copy) != [] && FoldPath(ParentPath(copy)) == FoldPath("w")
  {
    hide FoldPath, ConflictPath, FoldName, Basename, PathSegments;
    TwoParts("w/n.md", "w", "n.md");
    ConflictPathBeside("w/n.md", stamp, {}, {});
  }

  /** Both of the target's notes are in notebooks, and not the same one. */
  lemma CopyIsElsewhere(stamp: Stamp)
    ensures var copy := ConflictPath("w/n.md", stamp, {});
            FoldPath("x/y.md") != FoldPath(copy) && '/' in FoldPath("x/y.md") && '/' in FoldPath(copy)
  {
    hide FoldPath, ConflictPath, FoldName, ParentPath, Basename, PathSegments, FoldSegments;
    var copy := ConflictPath("w/n.md", stamp, {});
    OtherPath();
    CopyBesideN(stamp);
    CopyIsInW(copy);
    SameFold(copy, "x/y.md");
    NotebooksHaveSeparators(copy);
    NotebooksHaveSeparators("x/y.md");
  }

  lemma TwoLive(notes: map<Id, Note>, a: string, b: string)
    requires notes == map[0 := Clean(a, 7), 1 := Clean(b, 8)]
    requires FoldPath(a) != FoldPath(b) && '/' in FoldPath(a) && '/' in FoldPath(b)
    ensures DistinctPaths(notes)
    ensures forall folded :: folded in LivePaths(notes) ==> '/' in folded
    ensures FoldPath(b) in LivePaths(notes)
  {
    hide FoldPath;
    assert notes[1].path == b && IsLive(notes[1]);
  }

  lemma CopyIsInW(copy: string)
    requires PathSegments(copy) != [] && FoldPath(ParentPath(copy)) == FoldPath("w")
    requires PathSegments("w") == ["w"] && PathSegments("x/y.md") == ["x", "y.md"]
    ensures |PathSegments(copy)| == 2 && FoldSegments(copy) != FoldSegments("x/y.md")
  {
    SameFold(ParentPath(copy), "w");
    FoldOfParts(copy);
    assert FoldSegments("w") == [FoldName("w")];
    assert FoldSegments("x/y.md")[0] == FoldName("x");
    assert FoldName("w")[0] == 'w' && FoldName("x")[0] == 'x';
    assert FoldSegments(copy)[0] == FoldName("w");
  }
}
