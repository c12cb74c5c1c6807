/**
  Whether a move will leave two live notes at one path, told beforehand from its inputs:
  the rows leaving, the target's own, which are twins, the order they are read in and the
  moment. Nothing of the placement itself is looked at.
 */
module MoveForetold {
  import opened Paths
  import opened Naming
  import opened Library
  import opened MoveNotes
  import opened MoveSpellings
  import opened MoveClash

  /** A live row whose file the target has a row of, with text of its own: it becomes a conflict copy. */
  predicate BecomesCopy(c: Moving, id: Id)
    requires id in c.notes
  {
    Goes(c, id) && IsLive(c.notes[id]) && HasTwin(c, id)
  }

  /** The folded path of the conflict copy of a row, with these paths claimed. */
  function CopyPath(c: Moving, id: Id, claimed: set<string>): string
    requires id in c.notes
  {
    FoldPath(ConflictPath(c.notes[id].path, c.stamp, claimed))
  }

  /** The folded path a row claims: a copy the one beside its own, any other live row its own. */
  function Claim(c: Moving, claimed: set<string>, id: Id): set<string>
    requires id in c.notes
  {
    if !Goes(c, id) || !IsLive(c.notes[id]) then {}
    else if HasTwin(c, id) then {CopyPath(c, id, claimed)}
    else {FoldPath(c.notes[id].path)}
  }

  /** Taking the rows in order, no conflict copy is beside its own path at one that is claimed. */
  predicate CopiesAreFree(c: Moving, claimed: set<string>, order: seq<Id>)
    requires forall id :: id in order ==> id in c.notes
    decreases |order|
  {
    order == [] ||
    (&& (BecomesCopy(c, order[0]) ==> CopyPath(c, order[0], claimed) !in claimed)
     && CopiesAreFree(c, claimed + Claim(c, claimed, order[0]), order[1..]))
  }

  // ----- What is claimed and what is taken ---------------------------------------------

  /**
    How the paths claimed stand to those taken as rows are placed: each is taken, and what
    else is taken was made free under a slug, which has no bracket.
   */
  ghost predicate Tells(claimed: set<string>, taken: set<string>) {
    && claimed <= taken && AreFolded(taken)
    && forall path :: path in taken && path !in claimed ==> '(' !in Basename(path)
  }

  /** A name at the top is its own basename. */
  lemma NameIsItsBasename(name: string)
    requires FoldPath(name) == name && '/' !in name
    ensures Basename(name) == name
  {
    FoldedIsNormal(name);
    SegmentsOfPath(name);
    if PathSegments(name) == [] {
      SameNormalRoot(name);
    } else if |PathSegments(name)| >= 2 {
      NotebooksHaveSeparators(name);
    } else {
      assert PathSegments(name) == [PathSegments(name)[0]];
    }
  }

  lemma TellsNames(claimed: set<string>, taken: set<string>)
    requires Tells(claimed, taken)
    ensures forall name :: '/' !in name && '(' in name ==> (name in Folded(taken) <==> name in Folded(claimed))
  {
    hide FoldName, FoldPath, Basename;
    FoldedAreFolded(taken);
    FoldedAreFolded(claimed);
    forall name | '/' !in name && '(' in name && name in taken
      ensures name in claimed
    {
      NameIsItsBasename(name);
    }
  }

  lemma FoldedAreFolded(taken: set<string>)
    requires AreFolded(taken)
    ensures Folded(taken) == taken
  {
    hide FoldName;
    forall each | each in taken
      ensures FoldName(each) == each
    {
      FoldedIsNormal(each);
      assert FoldPath(each) == each;
      NormalFold(each);
    }
    forall name | name in Folded(taken)
      ensures name in taken
    {}
    forall name | name in taken
      ensures name in Folded(taken)
    {
      assert FoldName(name) == name;
    }
  }

  lemma NormalFold(path: string)
    requires IsNormal(path)
    ensures FoldName(path) == FoldPath(path)
  {}

  /** A copy's path does not hang on how its notebook is spelled, nor on what was merely made free. */
  lemma CopyIsForetold(c: Moving, id: Id, wanted: string, claimed: set<string>, taken: set<string>)
    requires id in c.notes && Tells(claimed, taken)
    requires FoldPath(wanted) == FoldPath(c.notes[id].path) && Basename(wanted) == Basename(c.notes[id].path)
    ensures FoldPath(ConflictPath(wanted, c.stamp, taken)) == CopyPath(c, id, claimed)
  {
    hide FoldPath, FoldName, ConflictName, StemOf, ParentPath, Basename, Tells;
    TellsNames(claimed, taken);
    SameNamesSameCopy(wanted, c.stamp, taken, claimed);
    var name := ConflictFilename(Basename(wanted), c.stamp, claimed);
    BasenameHasNoSeparator(wanted);
    ConflictNameIsFree(StemOf(Basename(wanted)), NOTE_EXTENSION, c.stamp, claimed);
    SameFoldSameParent(wanted, c.notes[id].path);
    SameFolderSameFile(ParentPath(wanted), ParentPath(c.notes[id].path), name);
  }

  lemma SameFolderSameFile(a: string, b: string, name: string)
    requires FoldPath(a) == FoldPath(b) && IsSegment(name)
    ensures FoldPath(JoinPath(a, name)) == FoldPath(JoinPath(b, name))
  {
    hide FoldPath, JoinPath;
    SameFold(a, b);
    FoldOfJoin(a, name);
    FoldOfJoin(b, name);
    SameFold(JoinPath(a, name), JoinPath(b, name));
  }

  /** A conflict copy's path ends in a bracketed name. */
  lemma CopyIsBracketed(path: string, stamp: Stamp, taken: set<string>)
    ensures var copy := FoldPath(ConflictPath(path, stamp, taken)); '(' in Basename(copy) && FoldPath(copy) == copy
  {
    hide FoldPath, FoldName, ConflictNumbered, StemOf, ConflictCandidate, ParentPath, Basename, JoinPath, Decimal, LeastFree;
    var stem := StemOf(Basename(path));
    ConflictCandidatesDistinct(stem, NOTE_EXTENSION, stamp);
    var n: nat := LeastFree(ConflictCandidate(stem, NOTE_EXTENSION, stamp), Folded(taken), 0);
    var name := ConflictNumbered(stem, NOTE_EXTENSION, stamp, n + 1);
    CandidateIs(stem, stamp, n);
    CandidateIsBracketed(path, stamp, n);
    BasenameHasNoSeparator(path);
    ConflictNameIsFree(stem, NOTE_EXTENSION, stamp, taken);
    assert ConflictPath(path, stamp, taken) == JoinPath(ParentPath(path), name);
    FoldedBasename(ParentPath(path), name);
  }

  lemma CandidateIs(stem: string, stamp: Stamp, n: nat)
    ensures ConflictCandidate(stem, NOTE_EXTENSION, stamp)(n) == FoldName(ConflictNumbered(stem, NOTE_EXTENSION, stamp, n + 1))
  {
    hide FoldName, ConflictNumbered;
  }

  /** The basename of a folded path is the folded basename. */
  lemma FoldedBasename(folder: string, name: string)
    requires IsSegment(name)
    ensures var path := FoldPath(JoinPath(folder, name)); Basename(path) == FoldName(name) && FoldPath(path) == path
  {
    hide FoldName, JoinPath, FoldPath;
    FoldPathSegments(JoinPath(folder, name));
    FoldOfJoin(folder, name);
  }

  lemma FreedHasNoBracket(wanted: string, taken: set<string>)
    requires AreFolded(taken) && FoldPath(wanted) in taken
    ensures var free := FoldPath(FreePath(wanted, taken)); '(' !in Basename(free) && FoldPath(free) == free
  {
    hide FoldName, StemOf, UniqueFilename, NamesIn, Basename, ParentPath, JoinPath, FoldPath;
    assert FoldPath(FoldPath(wanted)) in FoldedPaths(taken);
    assert FoldPath(FoldPath(wanted)) == FoldPath(wanted);
    assert Occupied(wanted, taken);
    BasenameOccupied(wanted, taken);
    var siblings := NamesIn(taken, ParentPath(wanted));
    var name := UniqueFilename(StemOf(Basename(wanted)), siblings);
    UniqueFilenameIsFree(StemOf(Basename(wanted)), siblings);
    UniqueFilenameHasNoBracket(StemOf(Basename(wanted)), siblings);
    FoldKeepsBrackets(name);
    assert FreePath(wanted, taken) == JoinPath(ParentPath(wanted), name);
    FoldedBasename(ParentPath(wanted), name);
  }

  /** One row more: what it claims is taken, and what it takes is claimed or was made free. */
  lemma TellsMore(claimed: set<string>, taken: set<string>, claim: string, path: string)
    requires Tells(claimed, taken) && FoldPath(claim) == claim && FoldPath(path) == path
    requires path == claim || (claim in taken && '(' !in Basename(path))
    ensures Tells(claimed + {claim}, taken + {path})
  {
    hide FoldPath, Basename;
  }

  // ----- One row -----------------------------------------------------------------------

  /** The path wanted for a note folds to its own, and ends in its own name. */
  lemma WantedKeepsName(spellings: Spellings, path: string)
    requires Faithful(spellings) && PathSegments(path) != []
    ensures FoldPath(NoteRespelled(spellings, path).path) == FoldPath(path)
    ensures Basename(NoteRespelled(spellings, path).path) == Basename(path)
  {
    hide FoldPath, Respell, JoinPath, Basename;
    NoteRespelledIsFaithful(spellings, path);
    ParentSegments(path);
    JoinPathSegments(Respell(spellings, ParentPath(path)).path, Basename(path));
  }

  /** Whether a copy clashes is told by the paths claimed. */
  lemma ClashIsForetold(c: Moving, g: Landed, claimed: set<string>, id: Id)
    requires id in c.notes && Faithful(g.spellings) && PathSegments(c.notes[id].path) != []
    requires Tells(claimed, LivePaths(g.notes))
    ensures Clashes(c, g, id) <==> BecomesCopy(c, id) && CopyPath(c, id, claimed) in claimed
  {
    hide FoldPath, ConflictPath, NoteRespelled, LivePaths, Basename, PathSegments;
    if BecomesCopy(c, id) {
      var wanted := NoteRespelled(g.spellings, c.notes[id].path).path;
      WantedKeepsName(g.spellings, c.notes[id].path);
      CopyIsForetold(c, id, wanted, claimed, LivePaths(g.notes));
      CopyIsBracketed(c.notes[id].path, c.stamp, claimed);
    }
  }

  lemma FoldedClaim(path: string)
    ensures FoldPath(FoldPath(path)) == FoldPath(path)
  {
    FoldPathSegments(path);
  }

  /** Placing a row keeps what is claimed telling what is taken. */
  lemma PlaceNoteTells(c: Moving, g: Landed, claimed: set<string>, id: Id)
    requires id in c.notes && id in c.landing && Faithful(g.spellings) && PathSegments(c.notes[id].path) != []
    requires Goes(c, id) ==> c.landing[id] !in g.notes
    requires Tells(claimed, LivePaths(g.notes))
    ensures Tells(claimed + Claim(c, claimed, id), LivePaths(PlaceNote(c, g, id).notes))
  {
    hide FoldPath, ConflictPath, FreePath, NoteRespelled, LivePaths, OwedAt, Tells, CopyPath, Basename, PathSegments;
    var note := c.notes[id];
    if !Goes(c, id) {
      assert claimed + {} == claimed;
    } else if note.deleted {
      RowCarries(c, id, note.path);
      TakenGrows(g.notes, c.landing[id], RowAt(c, id, note.path));
      assert claimed + {} == claimed && LivePaths(g.notes) + {} == LivePaths(g.notes);
    } else {
      var wanted := NoteRespelled(g.spellings, note.path).path;
      var path := ChosenPath(c, id, wanted, LivePaths(g.notes));
      RowCarries(c, id, path);
      TakenGrows(g.notes, c.landing[id], RowAt(c, id, path));
      WantedKeepsName(g.spellings, note.path);
      ChosenTells(c, claimed, LivePaths(g.notes), id, wanted);
    }
  }

  lemma ChosenTells(c: Moving, claimed: set<string>, taken: set<string>, id: Id, wanted: string)
    requires id in c.notes && Goes(c, id) && IsLive(c.notes[id]) && Tells(claimed, taken)
    requires FoldPath(wanted) == FoldPath(c.notes[id].path) && Basename(wanted) == Basename(c.notes[id].path)
    ensures Tells(claimed + Claim(c, claimed, id), taken + {FoldPath(ChosenPath(c, id, wanted, taken))})
  {
    hide FoldPath, ConflictPath, FreePath, Basename, Goes;
    FoldedClaim(c.notes[id].path);
    FoldedClaim(ChosenPath(c, id, wanted, taken));
    if HasTwin(c, id) {
      CopyIsForetold(c, id, wanted, claimed, taken);
      FoldedClaim(ConflictPath(c.notes[id].path, c.stamp, claimed));
      TellsMore(claimed, taken, CopyPath(c, id, claimed), CopyPath(c, id, claimed));
    } else if FoldPath(wanted) in taken {
      FreedHasNoBracket(wanted, taken);
      TellsMore(claimed, taken, FoldPath(wanted), FoldPath(FreePath(wanted, taken)));
    } else {
      TellsMore(claimed, taken, FoldPath(wanted), FoldPath(wanted));
    }
  }

  // ----- A whole move ------------------------------------------------------------------

  lemma {:induction false} NoClashIff(c: Moving, g: Landed, claimed: set<string>, done: set<Id>, order: seq<Id>)
    requires ValidMoving(c) && LandedSoFar(c, g, done) && NamedNotes(c.notes) && Tells(claimed, LivePaths(g.notes))
    requires Enumerates(order, c.notes.Keys - done)
    ensures forall id :: id in order ==> id in c.notes && id in c.landing
    ensures NoClash(c, g, order) <==> CopiesAreFree(c, claimed, order)
    decreases |order|
  {
    hide PlaceNote, LandedSoFar, Clashes, Tells, LivePaths, BecomesCopy, CopyPath, Claim, PathSegments, Goes;
    assert forall id :: id in order ==> id in c.notes.Keys - done;
    assert ValidMoving(c) ==> c.landing.Keys == c.notes.Keys;
    if order != [] {
      var id := order[0];
      EnumeratesRest(order, c.notes.Keys - done);
      LandedIsFaithful(c, g, done);
      if Goes(c, id) {
        LandsOnItsOwn(c, g, done, id);
      }
      ClashIsForetold(c, g, claimed, id);
      PlaceNoteTells(c, g, claimed, id);
      PlaceNoteLands(c, g, done, id);
      assert c.notes.Keys - done - {id} == c.notes.Keys - (done + {id});
      NoClashIff(c, PlaceNote(c, g, id), claimed + Claim(c, claimed, id), done + {id}, order[1..]);
    }
  }

  /**
    A move into a target none of whose live notes share a path leaves none that do exactly
    when, of its inputs, no conflict copy is beside its own path at one that is claimed.
   */
  lemma PathsStayDistinctForetold(c: Moving, spellings: Spellings, order: seq<Id>)
    requires ValidMoving(c) && Faithful(spellings) && NamedNotes(c.notes) && Enumerates(order, c.notes.Keys)
    ensures forall id :: id in order ==> id in c.notes && id in c.landing
    ensures DistinctPaths(PlaceNotes(c, NoneLanded(c, spellings), order).notes)
            <==> DistinctPaths(c.theirs) && CopiesAreFree(c, LivePaths(c.theirs), order)
  {
    hide ValidMoving, LandedSoFar, NoClash, CopiesAreFree, DistinctPaths, PlaceNotes, LivePaths, AreFolded;
    var none := NoneLanded(c, spellings);
    NoneIsLanded(c, spellings);
    assert c.notes.Keys - {} == c.notes.Keys;
    LivePathsAreFolded(c.theirs);
    NoClashIff(c, none, LivePaths(c.theirs), {}, order);
    PathsStayDistinctIff(c, none, {}, order);
  }

  // ----- When the condition holds ------------------------------------------------------

  /** Every row that becomes a conflict copy wants the top of the source: so too where none does. */
  predicate CopiesWantTheTop(c: Moving) {
    forall id :: id in c.notes && BecomesCopy(c, id) ==> ParentPath(c.notes[id].path) == ROOT
  }

  /** Then every copy is free, whatever is there and in whatever order. */
  lemma {:induction false} TopCopiesAreFree(c: Moving, claimed: set<string>, order: seq<Id>)
    requires CopiesWantTheTop(c) && AreFolded(claimed) && forall id :: id in order ==> id in c.notes
    ensures CopiesAreFree(c, claimed, order)
    decreases |order|
  {
    hide FoldPath, ConflictPath, BecomesCopy, ParentPath;
    if order != [] {
      var id := order[0];
      assert id in order;
      if BecomesCopy(c, id) {
        TopConflictIsFree(c.notes[id].path, c.stamp, claimed);
      }
      ClaimIsFolded(c, claimed, id);
      TopCopiesAreFree(c, claimed + Claim(c, claimed, id), order[1..]);
    }
  }

  lemma ClaimIsFolded(c: Moving, claimed: set<string>, id: Id)
    requires id in c.notes
    ensures AreFolded(Claim(c, claimed, id))
  {
    hide FoldPath, ConflictPath, Goes;
    FoldedClaim(c.notes[id].path);
    FoldedClaim(ConflictPath(c.notes[id].path, c.stamp, claimed));
  }

  // ----- Copies that want notebooks ----------------------------------------------------

  /** A live row that keeps a place of its own. */
  predicate KeepsOwnPath(c: Moving, id: Id)
    requires id in c.notes
  {
    Goes(c, id) && IsLive(c.notes[id]) && !HasTwin(c, id)
  }

  /** The paths of the target's own notes, and of those read before that keep their own. */
  function OwnPaths(c: Moving, order: seq<Id>, b: nat): set<string>
    requires b <= |order| && forall id :: id in order ==> id in c.notes
  {
    LivePaths(c.theirs) + set a | 0 <= a < b && KeepsOwnPath(c, order[a]) :: FoldPath(c.notes[order[a]].path)
  }

  /** Where the copy of the row read at `b` goes, all copies being in notebooks. */
  function CopyAt(c: Moving, order: seq<Id>, b: nat): string
    requires b < |order| && forall id :: id in order ==> id in c.notes
  {
    CopyPath(c, order[b], OwnPaths(c, order, b))
  }

  function CopiesBefore(c: Moving, order: seq<Id>, b: nat): set<string>
    requires b <= |order| && forall id :: id in order ==> id in c.notes
  {
    set a: nat | a < b && BecomesCopy(c, order[a]) :: CopyAt(c, order, a)
  }

  /** The copy of the row read at `b` is at no note's own path, nor at the path of a copy before it. */
  predicate CopyIsFree(c: Moving, order: seq<Id>, b: nat)
    requires b < |order| && forall id :: id in order ==> id in c.notes
  {
    && CopyAt(c, order, b) !in OwnPaths(c, order, b)
    && forall a: nat :: a < b && BecomesCopy(c, order[a]) ==> CopyAt(c, order, a) != CopyAt(c, order, b)
  }

  /** Every row that becomes a conflict copy is in a notebook. */
  predicate CopiesWantNotebooks(c: Moving) {
    forall id :: id in c.notes && BecomesCopy(c, id) ==> |PathSegments(c.notes[id].path)| >= 2
  }

  lemma NotebookCopyHasSeparator(c: Moving, id: Id, claimed: set<string>)
    requires id in c.notes && |PathSegments(c.notes[id].path)| >= 2
    ensures '/' in CopyPath(c, id, claimed)
  {
    hide FoldPath, FoldName, ConflictPath;
    var path := c.notes[id].path;
    var copy := ConflictPath(path, c.stamp, claimed);
    ConflictPathBeside(path, c.stamp, claimed, {});
    ParentSegments(path);
    ParentSegments(copy);
    SameFold(ParentPath(copy), ParentPath(path));
    assert |FoldSegments(ParentPath(copy))| == |FoldSegments(ParentPath(path))|;
    NotebooksHaveSeparators(copy);
  }

  /** Copies in notebooks are names to no other. */
  lemma CopiesAreNoNames(c: Moving, id: Id, own: set<string>, copies: set<string>)
    requires id in c.notes && forall copy :: copy in copies ==> '/' in copy
    ensures CopyPath(c, id, own + copies) == CopyPath(c, id, own)
  {
    hide FoldPath, ConflictPath;
    OnlyNamesAreAvoided(c.notes[id].path, c.stamp, own + copies);
    OnlyNamesAreAvoided(c.notes[id].path, c.stamp, own);
    assert Names(own + copies) == Names(own);
  }

  /**
    With every conflict copy in some notebook: the copies are free exactly when each is at
    none of the target's paths, none of those of the notes read before it, and none of the
    copies before it.
   */
  lemma NotebookCopiesAreFreeIff(c: Moving, order: seq<Id>)
    requires CopiesWantNotebooks(c) && forall id :: id in order ==> id in c.notes
    ensures CopiesAreFree(c, LivePaths(c.theirs), order)
            <==> forall b: nat :: b < |order| && BecomesCopy(c, order[b]) ==> CopyIsFree(c, order, b)
  {
    hide LivePaths, CopiesAreFree, BecomesCopy, CopyIsFree, CopiesWantNotebooks;
    NothingBefore(c, order);
    assert order[0..] == order;
    NotebooksFrom(c, order, 0);
  }

  lemma NothingBefore(c: Moving, order: seq<Id>)
    requires forall id :: id in order ==> id in c.notes
    ensures OwnPaths(c, order, 0) + CopiesBefore(c, order, 0) == LivePaths(c.theirs)
  {
    hide LivePaths;
    assert CopiesBefore(c, order, 0) == {};
  }

  lemma {:induction false} NotebooksFrom(c: Moving, order: seq<Id>, b: nat)
    requires CopiesWantNotebooks(c) && b <= |order| && forall id :: id in order ==> id in c.notes
    ensures forall id :: id in order[b..] ==> id in c.notes
    ensures CopiesAreFree(c, OwnPaths(c, order, b) + CopiesBefore(c, order, b), order[b..])
            <==> forall k: nat :: b <= k < |order| && BecomesCopy(c, order[k]) ==> CopyIsFree(c, order, k)
    decreases |order| - b
  {
    hide OwnPaths, CopiesBefore, BecomesCopy, CopyIsFree, CopyPath, Claim, CopiesWantNotebooks;
    assert forall id :: id in order[b..] ==> id in order;
    if b < |order| {
      var claimed := OwnPaths(c, order, b) + CopiesBefore(c, order, b);
      assert order[b..][0] == order[b] && order[b..][1..] == order[b + 1..] && order[b] in order;
      OneCopyIsFree(c, order, b);
      ClaimedNext(c, order, b);
      NotebooksFrom(c, order, b + 1);
    }
  }

  lemma CopiesBeforeAreDeep(c: Moving, order: seq<Id>, b: nat)
    requires CopiesWantNotebooks(c) && b <= |order| && forall id :: id in order ==> id in c.notes
    ensures forall copy :: copy in CopiesBefore(c, order, b) ==> '/' in copy
  {
    hide CopyPath, OwnPaths, BecomesCopy, PathSegments;
    forall copy | copy in CopiesBefore(c, order, b)
      ensures '/' in copy
    {
      var a: nat :| a < b && BecomesCopy(c, order[a]) && CopyAt(c, order, a) == copy;
      assert order[a] in order;
      NotebookCopyHasSeparator(c, order[a], OwnPaths(c, order, a));
    }
  }

  lemma OneCopyIsFree(c: Moving, order: seq<Id>, b: nat)
    requires CopiesWantNotebooks(c) && b < |order| && forall id :: id in order ==> id in c.notes
    ensures order[b] in order && CopyPath(c, order[b], OwnPaths(c, order, b) + CopiesBefore(c, order, b)) == CopyAt(c, order, b)
    ensures CopyAt(c, order, b) !in OwnPaths(c, order, b) + CopiesBefore(c, order, b) <==> CopyIsFree(c, order, b)
  {
    hide CopyPath, OwnPaths, BecomesCopy;
    assert order[b] in order;
    CopiesBeforeAreDeep(c, order, b);
    CopiesAreNoNames(c, order[b], OwnPaths(c, order, b), CopiesBefore(c, order, b));
  }

  lemma ClaimedNext(c: Moving, order: seq<Id>, b: nat)
    requires CopiesWantNotebooks(c) && b < |order| && forall id :: id in order ==> id in c.notes
    ensures order[b] in order
    ensures var claimed := OwnPaths(c, order, b) + CopiesBefore(c, order, b);
            claimed + Claim(c, claimed, order[b]) == OwnPaths(c, order, b + 1) + CopiesBefore(c, order, b + 1)
  {
    hide CopyPath, LivePaths, FoldPath, HasTwin, Goes, OwnPaths, CopiesBefore, CopyAt;
    OneCopyIsFree(c, order, b);
    OwnNext(c, order, b);
    CopiesNext(c, order, b);
  }

  lemma OwnNext(c: Moving, order: seq<Id>, b: nat)
    requires b < |order| && forall id :: id in order ==> id in c.notes
    ensures order[b] in order
    ensures OwnPaths(c, order, b + 1)
            == OwnPaths(c, order, b) + (if KeepsOwnPath(c, order[b]) then {FoldPath(c.notes[order[b]].path)} else {})
  {
    hide LivePaths, FoldPath, KeepsOwnPath;
  }

  lemma CopiesNext(c: Moving, order: seq<Id>, b: nat)
    requires b < |order| && forall id :: id in order ==> id in c.notes
    ensures order[b] in order
    ensures CopiesBefore(c, order, b + 1)
            == CopiesBefore(c, order, b) + (if BecomesCopy(c, order[b]) then {CopyAt(c, order, b)} else {})
  {
    hide CopyAt, BecomesCopy;
  }
}
