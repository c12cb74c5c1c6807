/**
  What a move of rows keeps: every other source, everything the target had, the text of
  every note that goes, and a target with one note a path, one notebook a directory and
  one file a name.
 */
module MoveKeeps {
  import opened Paths
  import opened Naming
  import opened Library
  import opened MoveNotes
  import opened MoveSpellings
  import opened MoveFiles
  import opened MoveRows

  /** A move with somewhere to go, of rows under well-formed paths. */
  ghost predicate CanMove(t: Tables, m: Move, p: Plan) {
    m.from != m.target && ValidPlan(t, m, p) && WellFormed(RowsOf(t, m.from)) && WellFormed(RowsOf(t, m.target))
  }

  lemma SpellingsOfTarget(t: Tables, m: Move, p: Plan)
    requires CanMove(t, m, p)
    ensures var g := Shelves(RowsOf(t, m.target).folders, SpellingsFrom(p.spelled), {});
            Shelved(g) && NormalSpellings(g.spellings)
  {
    hide FoldPath, IsNormal, ValidMoving, ValidCarrying, AtTells;
    var folders := RowsOf(t, m.target).folders;
    assert forall path :: path in p.spelled <==> path in folders.Keys;
    SpellingsFromFaithful(p.spelled);
  }

  lemma FoldersAreTaken(t: Tables, m: Move, p: Plan)
    requires CanMove(t, m, p)
    ensures forall path :: path in p.folders ==> path in RowsOf(t, m.from).folders && path != ROOT
  {
    hide IsNormal, ValidMoving, ValidCarrying, AtTells;
    assert forall path :: path in p.folders <==> path in FoldersTaken(m, RowsOf(t, m.from));
  }

  /** The notebooks, placed. */
  lemma FoldersAreShelved(t: Tables, m: Move, p: Plan)
    requires CanMove(t, m, p)
    ensures forall path :: path in p.folders ==> path in RowsOf(t, m.from).folders
    ensures var g, theirs := Shelve(t, m, p), RowsOf(t, m.target).folders;
            && Shelved(g) && NormalSpellings(g.spellings) && NormalFolders(g.folders)
            && (DistinctFolders(theirs) ==> DistinctFolders(g.folders))
            && (forall path :: path in theirs ==> path in g.folders && g.folders[path] == theirs[path])
            && (forall path :: path in FoldersTaken(m, RowsOf(t, m.from)) ==> FoldPath(path) in g.spellings)
            && (forall path :: path in g.folders && path !in theirs ==> path in g.owed || g.folders[path].remoteId.Some?)
  {
    hide FoldPath, IsNormal, ValidMoving, ValidCarrying, AtTells, PlaceFolders, SpellingsFrom, NormalSpellings;
    var leaving := RowsOf(t, m.from);
    var first := Shelves(RowsOf(t, m.target).folders, SpellingsFrom(p.spelled), {});
    FoldersAreTaken(t, m, p);
    SpellingsOfTarget(t, m, p);
    FoldersArePlaced(m.mode, first, leaving.folders, p.folders);
    PlacedFoldersAreNormal(m.mode, first, leaving.folders, p.folders);
    assert forall path :: path in FoldersTaken(m, leaving) ==> path in p.folders;
  }

  lemma PlanIsValid(t: Tables, m: Move, p: Plan)
    requires ValidPlan(t, m, p)
    ensures ValidMoving(MovingOf(t, m, p)) && Enumerates(p.notes, MovingOf(t, m, p).notes.Keys)
    ensures ValidCarrying(CarryingOf(t, m, p)) && Enumerates(p.files, CarryingOf(t, m, p).files.Keys)
    ensures AtTells(RowsOf(t, m.target).files, p.at)
    ensures CarryingOf(t, m, p).files.Keys == FilesTaken(m, RowsOf(t, m.from))
  {
    hide Enumerates, ValidMoving, ValidCarrying, AtTells;
    assert CarryingOf(t, m, p).files.Keys == FilesTaken(m, RowsOf(t, m.from));
  }

  /** The notes, placed. */
  lemma NotesArePlaced(t: Tables, m: Move, p: Plan)
    requires CanMove(t, m, p)
    ensures var c, g := MovingOf(t, m, p), Place(t, m, p);
            && ValidMoving(c) && LandedSoFar(c, g, c.notes.Keys)
            && PlacedInNotebooks(c, g)
            && SpellingsGrow(Shelve(t, m, p).spellings, g.spellings)
            && Faithful(g.spellings)
  {
    hide FoldPath, ValidMoving, ValidCarrying, AtTells, LandedSoFar, PlaceNotes, Shelve, ValidPlan, Enumerates;
    var c := MovingOf(t, m, p);
    FoldersAreShelved(t, m, p);
    PlanIsValid(t, m, p);
    var none := NoneLanded(c, Shelve(t, m, p).spellings);
    NoneIsLanded(c, none.spellings);
    assert c.notes.Keys - {} == c.notes.Keys;
    NotesLand(c, none, {}, p.notes);
    NotesAreSpelled(c, none, {}, p.notes);
    LandedIsFaithful(c, Place(t, m, p), c.notes.Keys);
  }

  /** The files, placed. */
  lemma FilesArePlaced(t: Tables, m: Move, p: Plan)
    requires CanMove(t, m, p)
    ensures var c, g, theirs := CarryingOf(t, m, p), Carry(t, m, p), RowsOf(t, m.target);
            && ValidCarrying(c)
            && FiledSoFar(c, theirs.bytes, g, c.files.Keys)
            && (DistinctFiles(theirs.files) ==> DistinctFiles(g.files))
  {
    hide FoldPath, ValidMoving, ValidCarrying, AtTells, FiledSoFar, PlaceFiles, Place, ValidPlan, Enumerates,
      DistinctFiles, LandedSoFar, PlacedInNotebooks, SpellingsGrow, CarryingOf;
    var c, theirs := CarryingOf(t, m, p), RowsOf(t, m.target);
    PlanIsValid(t, m, p);
    NotesArePlaced(t, m, p);
    var none := NoneFiled(theirs.files, theirs.bytes, p.at, Place(t, m, p).spellings);
    CarryingIsTheirs(t, m, p);
    NoneIsFiled(c, theirs.bytes, p.at, none.spellings);
    assert c.files.Keys - {} == c.files.Keys;
    FilesLand(c, theirs.bytes, none, {}, p.files);
  }

  lemma CarryingIsTheirs(t: Tables, m: Move, p: Plan)
    ensures CarryingOf(t, m, p).theirs == RowsOf(t, m.target).files
  {}

  lemma NoneIsFiled(c: Carrying, theirBytes: map<Id, Held>, at: map<string, File>, spellings: Spellings)
    requires Faithful(spellings) && AtTells(c.theirs, at) && theirBytes.Keys <= c.theirs.Keys
    ensures FiledSoFar(c, theirBytes, NoneFiled(c.theirs, theirBytes, at, spellings), {})
  {
    hide Faithful, AtTells, FoldPath;
    var none: map<Id, Id> := map[];
    assert none.Values == {};
  }

  // ----- What moved --------------------------------------------------------------------

  lemma MoveUnfolds(t: Tables, m: Move, p: Plan)
    requires CanMove(t, m, p)
    ensures var u := MoveRowsTo(t, m, p).tables;
            && RowsOf(u, m.target) == Arrived(t, m, p)
            && RowsOf(u, m.from) == Left(m, RowsOf(t, m.from))
            && u.ops == CarryOps(WhereOf(t, m, p), t.ops)
            && MoveRowsTo(t, m, p).owed.notes == Place(t, m, p).owed
            && (forall s :: s != m.from && s != m.target ==> RowsOf(u, s) == RowsOf(t, s))
  {
    hide ValidPlan, Place, Shelve, Carry, CarryOps, IsLinked, WellFormed;
  }

  /** No source but the two named is touched. */
  lemma OthersAreUntouched(t: Tables, m: Move, p: Plan, source: Source)
    requires CanMove(t, m, p) && source != m.from && source != m.target
    ensures RowsOf(MoveRowsTo(t, m, p).tables, source) == RowsOf(t, source)
    ensures OpsOf(MoveRowsTo(t, m, p).tables.ops, source) == OpsOf(t.ops, source)
  {
    hide ValidPlan, Place, Shelve, Carry, CarryOps, IsLinked, WellFormed;
    MoveUnfolds(t, m, p);
    OtherOpsStay(WhereOf(t, m, p), t.ops, source);
  }

  lemma {:induction false} OpsOfConcat(a: seq<Op>, b: seq<Op>, source: Source)
    ensures OpsOf(a + b, source) == OpsOf(a, source) + OpsOf(b, source)
  {
    if a == [] {
      assert a + b == b;
    } else {
      assert (a + b)[0] == a[0] && (a + b)[1..] == a[1..] + b;
      OpsOfConcat(a[1..], b, source);
    }
  }

  lemma OpsOfOne(op: Op, source: Source)
    ensures OpsOf([op], source) == if op.source == source then [op] else []
  {
    assert [op][1..] == [];
  }

  lemma {:induction false} OtherOpsStay(w: Whereto, ops: seq<Op>, source: Source)
    requires source != w.m.from && source != w.m.target
    ensures OpsOf(CarryOps(w, ops), source) == OpsOf(ops, source)
    decreases |ops|
  {
    hide OpsOf, Dropped;
    if ops != [] {
      var front, op := ops[..|ops| - 1], ops[|ops| - 1];
      assert ops == front + [op];
      OtherOpsStay(w, front, source);
      OpsOfConcat(front, [op], source);
      OpsOfConcat(CarryOps(w, front), CarryOp(w, op), source);
      OpsOfOne(op, source);
      OpsOfOne(Carried(w, op), source);
      OpsOfNothing(source);
    } else {
      OpsOfNothing(source);
    }
  }

  lemma OpsOfNothing(source: Source)
    ensures OpsOf([], source) == []
  {}

  /** The target's rows stand as they were; what comes beside them comes under new keys. */
  ghost predicate RowsStand(before: Rows, after: Rows) {
    && (forall id :: id in before.notes ==> id in after.notes && after.notes[id] == before.notes[id])
    && (forall path :: path in before.folders ==> path in after.folders && after.folders[path] == before.folders[path])
    && (forall id :: id in before.files ==> id in after.files && after.files[id] == before.files[id])
    && (forall id :: id in before.bytes ==> id in after.bytes && after.bytes[id] == before.bytes[id])
  }

  lemma TargetStands(t: Tables, m: Move, p: Plan)
    requires CanMove(t, m, p)
    ensures RowsStand(RowsOf(t, m.target), Arrived(t, m, p))
  {
    NotebooksStand(t, m, p);
    NotesStand(t, m, p);
    FilesStand(t, m, p);
    hide ValidPlan, Place, Shelve, Carry, WellFormed;
  }

  lemma NotebooksStand(t: Tables, m: Move, p: Plan)
    requires CanMove(t, m, p)
    ensures forall path :: path in RowsOf(t, m.target).folders ==>
              path in Arrived(t, m, p).folders && Arrived(t, m, p).folders[path] == RowsOf(t, m.target).folders[path]
  {
    FoldersAreShelved(t, m, p);
    hide ValidPlan, Place, Shelve, Carry, WellFormed, Shelved, NormalSpellings, NormalFolders, DistinctFolders;
  }

  lemma NotesStand(t: Tables, m: Move, p: Plan)
    requires CanMove(t, m, p)
    ensures forall id :: id in RowsOf(t, m.target).notes ==>
              id in Arrived(t, m, p).notes && Arrived(t, m, p).notes[id] == RowsOf(t, m.target).notes[id]
  {
    NotesArePlaced(t, m, p);
    hide ValidPlan, Place, Shelve, Carry, WellFormed, PlacedRight, ValidMoving, PlacedInNotebooks, SpellingsGrow, Faithful;
  }

  lemma FilesStand(t: Tables, m: Move, p: Plan)
    requires CanMove(t, m, p)
    ensures var rows := RowsOf(t, m.target);
            && (forall id :: id in rows.files ==> id in Arrived(t, m, p).files && Arrived(t, m, p).files[id] == rows.files[id])
            && (forall id :: id in rows.bytes ==> id in Arrived(t, m, p).bytes && Arrived(t, m, p).bytes[id] == rows.bytes[id])
  {
    FilesArePlaced(t, m, p);
    CarryingIsTheirs(t, m, p);
    hide ValidPlan, Place, Shelve, Carry, WellFormed, FiledAs, FileIsKept, ValidCarrying, AtTells, Faithful, DistinctFiles,
      CarryingOf;
  }

  /** The target's paths are well formed, and no two of its notebooks or files have become one. */
  lemma TargetIsWellFormed(t: Tables, m: Move, p: Plan)
    requires CanMove(t, m, p)
    ensures WellFormed(Arrived(t, m, p))
    ensures DistinctFolders(RowsOf(t, m.target).folders) ==> DistinctFolders(Arrived(t, m, p).folders)
    ensures DistinctFiles(RowsOf(t, m.target).files) ==> DistinctFiles(Arrived(t, m, p).files)
  {
    FoldersAreShelved(t, m, p);
    NotesArePlaced(t, m, p);
    FilesArePlaced(t, m, p);
    hide ValidPlan, Place, Shelve, Carry, FiledAs, FileIsKept, ValidMoving, ValidCarrying, SpellingsGrow, Shelved,
      AtTells, Faithful, NormalSpellings, NormalFolders, DistinctFolders, DistinctFiles, CarriedAs;
    NotesAreNamed(MovingOf(t, m, p), Place(t, m, p));
  }

  lemma NotesAreNamed(c: Moving, g: Landed)
    requires ValidMoving(c) && LandedSoFar(c, g, c.notes.Keys) && PlacedInNotebooks(c, g) && NamedNotes(c.theirs)
    ensures NamedNotes(g.notes)
  {
    hide CarriedAs, Goes, LandsRight, Faithful, NormalSpellings, InItsNotebook, PathSegments, ValidMoving, OwedAt;
    forall k | k in g.notes
      ensures PathSegments(g.notes[k].path) != []
    {
      if k !in c.theirs {
        var id :| id in g.placed && g.placed[id] == k;
        assert PlacedRight(c, g, id);
      }
    }
  }
}
