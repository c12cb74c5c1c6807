/**
  When binding a source leaves two of its live notes at one path: exactly when a
  conflict copy of a resume would be where something else is, which can be looked up
  before the bind, and never where no row being resumed has a rival elsewhere for a
  file it keeps in a notebook.
 */
module SourceClashes {
  import opened Options
  import opened Paths
  import opened Naming
  import opened Library
  import opened MoveNotes
  import opened MoveSpellings
  import opened MoveClash
  import opened MoveForetold
  import opened MoveRows
  import opened MoveKeeps
  import opened Sources
  import opened SourceRuns
  import opened SourcesKept
  import opened Unsynced

  // ----- Exactly when ------------------------------------------------------------------

  lemma StandThen(a: Rows, b: Rows, c: Rows)
    ensures RowsStand(a, a) && (RowsStand(a, b) && RowsStand(b, c) ==> RowsStand(a, c))
    ensures RowsStand(a, b) && DistinctPaths(b.notes) ==> DistinctPaths(a.notes)
  {
    hide FoldPath;
    if RowsStand(a, b) && DistinctPaths(b.notes) {
      forall i, j | i in a.notes && j in a.notes && i != j && IsLive(a.notes[i]) && IsLive(a.notes[j])
        ensures FoldPath(a.notes[i].path) != FoldPath(a.notes[j].path)
      {
        assert b.notes[i] == a.notes[i] && b.notes[j] == a.notes[j];
      }
    }
  }

  lemma MoveStands(t: Tables, m: Move, p: Plan)
    requires CanMove(t, m, p)
    ensures RowsStand(RowsOf(t, m.target), RowsOf(MoveRowsTo(t, m, p).tables, m.target))
  {
    hide ValidPlan, WellFormed, MoveRowsTo, Arrived, RowsStand;
    MoveUnfolds(t, m, p);
    TargetStands(t, m, p);
  }

  /** What was at one path stays at one path, however many sources are resumed after. */
  lemma {:induction false} ResumesStand(t: Tables, target: nat, homes: seq<nat>, plans: map<nat, Plan>)
    requires ValidResumes(t, target, homes, plans)
    ensures RowsStand(RowsOf(t, Connection(target)), RowsOf(ResumeAll(t, target, homes, plans).tables, Connection(target)))
    decreases |homes|
  {
    hide ValidPlan, WellFormed, MoveRowsTo, RowsStand, RowsOf;
    var rows := RowsOf(t, Connection(target));
    if homes == [] {
      StandThen(rows, rows, rows);
    } else {
      var first := MoveRowsTo(t, Homeward(homes[0], target), plans[homes[0]]).tables;
      MoveStands(t, Homeward(homes[0], target), plans[homes[0]]);
      ResumesStand(first, target, homes[1..], plans);
      StandThen(rows, RowsOf(first, Connection(target)),
                RowsOf(ResumeAll(t, target, homes, plans).tables, Connection(target)));
    }
  }

  lemma {:induction false} ResumesKeepPathsIff(t: Tables, target: nat, homes: seq<nat>, plans: map<nat, Plan>)
    requires ValidResumes(t, target, homes, plans) && OneNoteAPath(t)
    ensures var u := ResumeAll(t, target, homes, plans).tables;
            && (ResumesAreClashFree(t, target, homes, plans) ==> OneNoteAPath(u))
            && (DistinctPaths(RowsOf(u, Connection(target)).notes) ==> ResumesAreClashFree(t, target, homes, plans))
    decreases |homes|
  {
    hide ValidPlan, WellFormed, MoveRowsTo, RowsStand, RowsOf, IsClashFree, OneNoteAPath, DistinctPaths;
    if homes != [] {
      var m := Homeward(homes[0], target);
      var first := MoveRowsTo(t, m, plans[homes[0]]).tables;
      var u := ResumeAll(t, target, homes, plans).tables;
      MoveKeepsOneNote(t, m, plans[homes[0]]);
      TargetTells(t, m, plans[homes[0]]);
      if IsClashFree(t, m, plans[homes[0]]) {
        ResumesKeepPathsIff(first, target, homes[1..], plans);
      } else {
        ResumesStand(first, target, homes[1..], plans);
        StandThen(RowsOf(first, Connection(target)), RowsOf(u, Connection(target)), RowsOf(u, Connection(target)));
      }
    }
  }

  /**
    A bind leaves every source with one live note a path exactly when, of the rows as each
    source resumed finds them, no conflict copy would be where another note is claimed.
   */
  lemma BindKeepsPathsIff(d: Device, input: BindInput, plan: BindPlan)
    requires UnchangedSince(d, input.since) && ValidBind(d, input, plan) && OneNoteAPath(d.tables)
    ensures OneNoteAPath(Bind(d, input, plan).tables)
            <==> ResumesAreClashFree(d.tables, input.connection, plan.homes, plan.resumes)
  {
    hide CanMove, MoveRowsTo, QueueAll, ValidResumes, ResumeAll, Sound, AreWellFormed, OneNoteAPath, ResumesAreClashFree, OwesOf,
      DistinctPaths, RowsStand;
    BindKeepsSound(d, input, plan);
    ResumesKeepPathsIff(d.tables, input.connection, plan.homes, plan.resumes);
    var t := ResumeAll(d.tables, input.connection, plan.homes, plan.resumes).tables;
    var u := Bind(d, input, plan).tables;
    var target := Connection(input.connection);
    SameRows(Gathered(d, input, plan).tables, u);
    if OneNoteAPath(u) {
      BoundStands(d, input, plan);
      StandThen(RowsOf(t, target), RowsOf(u, target), RowsOf(u, target));
      PathsOfOne(u, target);
    }
  }

  lemma PathsOfOne(t: Tables, source: Source)
    requires OneNoteAPath(t)
    ensures DistinctPaths(RowsOf(t, source).notes)
  {}

  lemma BoundStands(d: Device, input: BindInput, plan: BindPlan)
    requires UnchangedSince(d, input.since) && ValidBind(d, input, plan)
    ensures var target := Connection(input.connection);
            RowsStand(RowsOf(ResumeAll(d.tables, input.connection, plan.homes, plan.resumes).tables, target),
                      RowsOf(Bind(d, input, plan).tables, target))
  {
    hide CanMove, MoveRowsTo, ValidResumes, ResumeAll, RowsStand;
    var t := ResumeAll(d.tables, input.connection, plan.homes, plan.resumes).tables;
    var rows := RowsOf(t, Connection(input.connection));
    StandThen(rows, rows, rows);
    if !PileIsHeld(d) {
      MoveStands(t, PileMove(d, input), plan.copy);
    }
  }

  // ----- When it does ------------------------------------------------------------------

  /** An account's connection, bound before its account was known, beside a detached source of the same account. */
  function ClashingDevice(stamp: Stamp): Device {
    var c := ClashingMove(stamp);
    Device(
      Tables(map[Connection(1) := NO_ROWS.(notes := c.notes), Connection(2) := NO_ROWS.(notes := c.theirs)], []),
      map[1 := State(Some("drive"), Some("a"), false, Some(Detached(1, Disconnected)), None, None),
          2 := State(Some("drive"), None, false, None, Some(2), None)],
      Some(Connection(2)), 3)
  }

  /** It is bound again, and now the account is named. */
  const NAMED := BindInput(2, "drive", Some("a"), None)

  function ClashingPlan(stamp: Stamp): Plan {
    Plan([], [], [5], map[7 := 0, 8 := 1], map[5 := 6], [], map[], map[], stamp)
  }

  function NothingFrom(stamp: Stamp): Plan {
    Plan([], [], [], map[7 := 0, 8 := 1], map[], [], map[], map[], stamp)
  }

  lemma {:induction false} AnOrder<T(!new)>(rows: set<T>) returns (order: seq<T>)
    ensures Enumerates(order, rows)
    decreases |rows|
  {
    if rows == {} {
      order := [];
    } else {
      var x :| x in rows;
      var rest := AnOrder(rows - {x});
      order := [x] + rest;
    }
  }

  lemma ClashingMoveIs(stamp: Stamp)
    ensures var t := ClashingDevice(stamp).tables;
            && MovingOf(t, Homeward(1, 2), ClashingPlan(stamp)) == ClashingMove(stamp)
            && CarryingOf(t, Homeward(1, 2), ClashingPlan(stamp)).files == map[]
            && RowsOf(t, Connection(1)) == NO_ROWS.(notes := ClashingMove(stamp).notes)
            && RowsOf(t, Connection(2)) == NO_ROWS.(notes := ClashingMove(stamp).theirs)
  {
    hide ConflictPath;
    assert QueuedFor(ClashingDevice(stamp).tables.ops, Connection(1)) == {};
  }

  lemma ClashingMoveIsMade(stamp: Stamp)
    ensures var t, m, p := ClashingDevice(stamp).tables, Homeward(1, 2), ClashingPlan(stamp);
            CanMove(t, m, p) && MovingOf(t, m, p) == ClashingMove(stamp)
  {
    ClashingIsValid(stamp);
    ClashingNames(stamp);
    ClashingMoveIs(stamp);
    OneIsEnumerated(stamp);
    hide ValidMoving, ClashingMove, ClashingDevice, NamedNotes, MovingOf, FoldPath;
  }

  lemma OneIsEnumerated(stamp: Stamp)
    ensures Enumerates([5], ClashingMove(stamp).notes.Keys)
  {
    hide ConflictPath;
  }

  lemma ClashingNames(stamp: Stamp)
    ensures NamedNotes(ClashingMove(stamp).notes) && NamedNotes(ClashingMove(stamp).theirs)
  {
    hide ConflictPath, PathSegments;
    NamedPaths(stamp);
  }

  lemma NamedPaths(stamp: Stamp)
    ensures PathSegments("w/n.md") != [] && PathSegments("x/y.md") != [] && PathSegments(ConflictPath("w/n.md", stamp, {})) != []
  {
    hide ConflictPath, FoldPath, ParentPath;
    TwoParts("w/n.md", "w", "n.md");
    hide PathSegments;
    OtherPath();
    CopyBesideN(stamp);
  }

  /** The pile is empty, so nothing is copied after. */
  lemma ClashingCopyIsMade(stamp: Stamp)
    requires CanMove(ClashingDevice(stamp).tables, Homeward(1, 2), ClashingPlan(stamp))
    ensures var t := MoveRowsTo(ClashingDevice(stamp).tables, Homeward(1, 2), ClashingPlan(stamp)).tables;
            CanMove(t, PileMove(ClashingDevice(stamp), NAMED), NothingFrom(stamp))
  {
    ClashingIsBound(stamp);
    hide MoveRowsTo, ClashingMove, ClashingDevice, ValidPlan, FilesNamed, RowsOf, NothingFrom;
    var u := MoveRowsTo(ClashingDevice(stamp).tables, Homeward(1, 2), ClashingPlan(stamp)).tables;
    EmptyMoveIsValid(u, PileMove(ClashingDevice(stamp), NAMED), NothingFrom(stamp), stamp);
  }

  /** What an empty move must find: no notebooks or files, and notes of the two files named. */
  ghost predicate HasBothFiles(rows: Rows) {
    && WellFormed(rows) && rows.folders == map[] && rows.files == map[] && FilesNamed(rows.notes) <= {7, 8}
    && 0 in rows.notes && rows.notes[0].remoteId == Some(7) && 1 in rows.notes && rows.notes[1].remoteId == Some(8)
  }

  lemma ClashingIsBound(stamp: Stamp)
    requires CanMove(ClashingDevice(stamp).tables, Homeward(1, 2), ClashingPlan(stamp))
    ensures var t := MoveRowsTo(ClashingDevice(stamp).tables, Homeward(1, 2), ClashingPlan(stamp)).tables;
            RowsOf(t, Pile) == NO_ROWS && HasBothFiles(RowsOf(t, Connection(2)))
  {
    NothingElseArrives(stamp);
    ClashingFiles(stamp);
    hide MoveRowsTo, ClashingMove, ClashingDevice, ClashingPlan, ValidPlan, Arrived, FilesNamed, WellFormed, RowsOf;
    StillHasBoth(ClashingDevice(stamp).tables, Homeward(1, 2), ClashingPlan(stamp));
  }

  lemma StillHasBoth(t: Tables, m: Move, p: Plan)
    requires CanMove(t, m, p) && m.from != Pile && m.target != Pile && RowsOf(t, Pile) == NO_ROWS
    requires HasBothFiles(RowsOf(t, m.target)) && FilesNamed(RowsOf(t, m.from).notes) <= {7, 8}
    requires Arrived(t, m, p).folders == map[] && Arrived(t, m, p).files == map[]
    ensures RowsOf(MoveRowsTo(t, m, p).tables, Pile) == NO_ROWS
    ensures HasBothFiles(RowsOf(MoveRowsTo(t, m, p).tables, m.target))
  {
    MoveUnfolds(t, m, p);
    FilesNamedAfter(t, m, p);
    TargetStands(t, m, p);
    TargetIsWellFormed(t, m, p);
    hide MoveRowsTo, ValidPlan, Arrived, FilesNamed, WellFormed, WhereOf, CarryOps, Place, Left, RowsOf, DistinctFiles,
      DistinctFolders;
  }

  lemma ClashingFiles(stamp: Stamp)
    ensures var t := ClashingDevice(stamp).tables;
            FilesNamed(RowsOf(t, Connection(1)).notes) == {7} && FilesNamed(RowsOf(t, Connection(2)).notes) == {7, 8}
            && RowsOf(t, Connection(2)).folders == map[] && RowsOf(t, Connection(2)).files == map[]
            && RowsOf(t, Pile) == NO_ROWS
    ensures var notes := RowsOf(ClashingDevice(stamp).tables, Connection(2)).notes;
            0 in notes && notes[0].remoteId == Some(7) && 1 in notes && notes[1].remoteId == Some(8)
  {
    hide ConflictPath;
    var theirs := RowsOf(ClashingDevice(stamp).tables, Connection(2)).notes;
    assert theirs[0].remoteId == Some(7) && theirs[1].remoteId == Some(8) && theirs.Keys == {0, 1};
    var ours := RowsOf(ClashingDevice(stamp).tables, Connection(1)).notes;
    assert ours[5].remoteId == Some(7) && ours.Keys == {5};
    assert forall r :: r in FilesNamed(theirs) <==> r == 7 || r == 8;
  }

  lemma NothingElseArrives(stamp: Stamp)
    requires CanMove(ClashingDevice(stamp).tables, Homeward(1, 2), ClashingPlan(stamp))
    ensures var rows := Arrived(ClashingDevice(stamp).tables, Homeward(1, 2), ClashingPlan(stamp));
            rows.folders == map[] && rows.files == map[] && rows.bytes == map[]
  {
    hide ClashingMove, ValidMoving, PlaceNotes;
  }

  lemma EmptyMoveIsValid(t: Tables, m: Move, p: Plan, stamp: Stamp)
    requires m.from != m.target && m.only == Everything && m.mode == Copy && p == NothingFrom(stamp)
    requires RowsOf(t, m.from) == NO_ROWS && HasBothFiles(RowsOf(t, m.target))
    ensures CanMove(t, m, p)
  {
    hide WellFormed;
    assert WellFormed(NO_ROWS) by {
      NoRowsAreSound();
    }
    assert ValidMoving(MovingOf(t, m, p)) by {
      var notes := RowsOf(t, m.target).notes;
      assert forall i :: i in notes && notes[i].remoteId.Some? ==> notes[i].remoteId.value in FilesNamed(notes);
    }
    assert CarryingOf(t, m, p).files == map[];
  }

  /** No conflict copy is free: the one there is would be where the target's own is. */
  lemma ClashingIsNotFree(stamp: Stamp)
    ensures DistinctPaths(ClashingMove(stamp).theirs)
    ensures !CopiesAreFree(ClashingMove(stamp), LivePaths(ClashingMove(stamp).theirs), [5])
  {
    hide FoldPath, ConflictPath, LivePaths, ParentPath, Basename, DistinctPaths;
    var c := ClashingMove(stamp);
    ClashingIsValid(stamp);
    ClashingPaths(stamp);
    OnlyNamesAreAvoided("w/n.md", stamp, LivePaths(c.theirs));
    NoNamesTaken(c.theirs);
    assert BecomesCopy(c, 5);
  }

  /**
    Bound, the device has two live notes at one path where it had none: a source of the
    account comes home beside a note pulled at the very name its conflict copy is given.
   */
  lemma BindCanClash(stamp: Stamp) returns (plan: BindPlan)
    ensures UnchangedSince(ClashingDevice(stamp), NAMED.since) && ValidBind(ClashingDevice(stamp), NAMED, plan)
    ensures OneNoteAPath(ClashingDevice(stamp).tables) && !OneNoteAPath(Bind(ClashingDevice(stamp), NAMED, plan).tables)
  {
    hide CanMove, MoveRowsTo, OwesOf, ClashingMove, DistinctPaths, CopiesAreFree, LivePaths;
    var d := ClashingDevice(stamp);
    plan := BindPlan([1], map[1 := ClashingPlan(stamp)], NothingFrom(stamp), [], Connection(2), 4);
    ClashingMoveIsMade(stamp);
    ClashingCopyIsMade(stamp);
    ClashingIsNotFree(stamp);
    assert Homes(d, NAMED) == {1} && !PileIsHeld(d);
    assert [1][1..] == [];
    var gathered := Gathered(d, NAMED, plan);
    var owes := AnOrder(OwesOf(RowsOf(gathered.tables, Connection(2)), gathered.owed));
    plan := plan.(owes := owes);
    assert Gathered(d, NAMED, plan) == gathered;
    OnePathEach(stamp);
    BindKeepsPathsIff(d, NAMED, plan);
    assert !IsClashFree(d.tables, Homeward(1, 2), ClashingPlan(stamp));
  }

  lemma OnePathEach(stamp: Stamp)
    ensures OneNoteAPath(ClashingDevice(stamp).tables)
  {
    hide ConflictPath, FoldPath, LivePaths;
    ClashingPaths(stamp);
    hide ClashingMove, DistinctPaths;
    var t := ClashingDevice(stamp).tables;
    assert DistinctPaths(ClashingMove(stamp).notes) by {
      OneNoteIsDistinct(stamp);
    }
    NoRowsAreSound();
  }

  lemma OneNoteIsDistinct(stamp: Stamp)
    ensures DistinctPaths(ClashingMove(stamp).notes)
  {
    hide ConflictPath, FoldPath;
  }

  // ----- When it cannot happen ---------------------------------------------------------

  /** The files on the remote that notes name. */
  function FilesNamed(notes: map<Id, Note>): set<Id> {
    set id | id in notes && notes[id].remoteId.Some? :: notes[id].remoteId.value
  }

  /** An edit to a file, kept in a notebook: what a rival row of the file would make a conflict copy of. */
  predicate IsDeepEdit(note: Note) {
    IsLive(note) && note.dirty && note.remoteId.Some? && ParentPath(note.path) != ROOT
  }

  /** No row of a source that is an edit in a notebook has a rival for its file in the target or another source resumed. */
  predicate HasNoRivals(t: Tables, target: nat, homes: set<nat>, home: nat) {
    var notes := RowsOf(t, Connection(home)).notes;
    forall id :: id in notes && IsDeepEdit(notes[id]) ==>
      && notes[id].remoteId.value !in FilesNamed(RowsOf(t, Connection(target)).notes)
      && (forall other :: other in homes && other != home ==>
            notes[id].remoteId.value !in FilesNamed(RowsOf(t, Connection(other)).notes))
  }

  function Members(homes: seq<nat>): set<nat> {
    set home | home in homes
  }

  /** What a bind can be checked for beforehand, of the device and what is bound. */
  predicate CannotClash(d: Device, input: BindInput) {
    forall home :: home in Homes(d, input) ==> HasNoRivals(d.tables, input.connection, Homes(d, input), home)
  }

  /** A move brings the target no files but those of the rows that left. */
  lemma FilesNamedAfter(t: Tables, m: Move, p: Plan)
    requires CanMove(t, m, p)
    ensures FilesNamed(RowsOf(MoveRowsTo(t, m, p).tables, m.target).notes)
            <= FilesNamed(RowsOf(t, m.target).notes) + FilesNamed(RowsOf(t, m.from).notes)
  {
    MoveUnfolds(t, m, p);
    NotesArePlaced(t, m, p);
    hide ValidPlan, Place, MoveRowsTo, Faithful, LandedSoFar, PlacedInNotebooks, SpellingsGrow, Shelve, WellFormed,
      ValidMoving, FilesNamed;
    LandedFilesNamed(MovingOf(t, m, p), Place(t, m, p));
  }

  lemma LandedFilesNamed(c: Moving, g: Landed)
    requires ValidMoving(c) && LandedSoFar(c, g, c.notes.Keys)
    ensures FilesNamed(g.notes) <= FilesNamed(c.theirs) + FilesNamed(c.notes)
  {
    hide ValidMoving, Faithful, Goes, FoldPath, ParentPath, OwedAt, RowAt;
    forall k | k in g.notes && g.notes[k].remoteId.Some?
      ensures g.notes[k].remoteId.value in FilesNamed(c.theirs) + FilesNamed(c.notes)
    {
      if k in c.theirs {
        assert g.notes[k] == c.theirs[k];
      } else {
        assert k in g.placed.Values;
        var id :| id in g.placed && g.placed[id] == k;
        assert PlacedRight(c, g, id);
        RowIsPinnedOrNew(c, id, g.notes[k].path);
        assert g.notes[k].remoteId == c.notes[id].remoteId;
      }
    }
  }

  /** Without a rival in the target, every edit that becomes a conflict copy is at the top. */
  lemma NoRivalsNoClash(t: Tables, m: Move, p: Plan)
    requires CanMove(t, m, p)
    requires var notes := RowsOf(t, m.from).notes;
             forall id :: id in notes && IsDeepEdit(notes[id]) ==>
               notes[id].remoteId.value !in FilesNamed(RowsOf(t, m.target).notes)
    ensures IsClashFree(t, m, p)
  {
    PlanIsValid(t, m, p);
    hide ValidPlan, WellFormed, ParentPath, CopiesAreFree, LivePaths, Enumerates, AreFolded, LandsRight;
    var c := MovingOf(t, m, p);
    assert c.notes == RowsOf(t, m.from).notes && c.theirs == RowsOf(t, m.target).notes;
    forall id | id in c.notes && BecomesCopy(c, id)
      ensures ParentPath(c.notes[id].path) == ROOT
    {
      var r := c.notes[id].remoteId.value;
      assert c.twins[r] in c.theirs && c.theirs[c.twins[r]].remoteId == Some(r);
      assert r in FilesNamed(c.theirs);
    }
    InOrder(p.notes, c.notes.Keys);
    LivePathsAreFolded(c.theirs);
    TopCopiesAreFree(c, LivePaths(c.theirs), p.notes);
  }

  lemma InOrder<T(!new)>(order: seq<T>, rows: set<T>)
    requires Enumerates(order, rows)
    ensures forall x :: x in order ==> x in rows
  {}

  lemma {:induction false} ResumesNeverClash(t: Tables, target: nat, homes: seq<nat>, plans: map<nat, Plan>)
    requires ValidResumes(t, target, homes, plans)
    requires forall i, j :: 0 <= i < j < |homes| ==> homes[i] != homes[j]
    requires target !in homes
    requires forall home :: home in homes ==> HasNoRivals(t, target, Members(homes), home)
    ensures ResumesAreClashFree(t, target, homes, plans)
    decreases |homes|
  {
    hide ValidPlan, WellFormed, MoveRowsTo, RowsOf, IsClashFree, FilesNamed, IsDeepEdit;
    if homes != [] {
      var m := Homeward(homes[0], target);
      var first := MoveRowsTo(t, m, plans[homes[0]]).tables;
      assert homes[0] in homes;
      NoRivalsNoClash(t, m, plans[homes[0]]);
      FilesNamedAfter(t, m, plans[homes[0]]);
      forall home | home in homes[1..]
        ensures HasNoRivals(first, target, Members(homes[1..]), home)
      {
        RestHaveNoRivals(t, target, homes, plans[homes[0]], home);
      }
      assert target !in homes[1..];
      ResumesNeverClash(first, target, homes[1..], plans);
    }
  }

  lemma RestHaveNoRivals(t: Tables, target: nat, homes: seq<nat>, p: Plan, home: nat)
    requires homes != [] && CanMove(t, Homeward(homes[0], target), p) && target !in homes
    requires forall i, j :: 0 <= i < j < |homes| ==> homes[i] != homes[j]
    requires home in homes[1..] && HasNoRivals(t, target, Members(homes), home)
    ensures HasNoRivals(MoveRowsTo(t, Homeward(homes[0], target), p).tables, target, Members(homes[1..]), home)
  {
    hide ValidPlan, WellFormed, MoveRowsTo, RowsOf, FilesNamed, IsDeepEdit;
    var m := Homeward(homes[0], target);
    FilesNamedAfter(t, m, p);
    forall h | h in homes[1..]
      ensures h in homes && h != homes[0]
      ensures RowsOf(MoveRowsTo(t, m, p).tables, Connection(h)) == RowsOf(t, Connection(h))
    {
      OthersAreUntouched(t, m, p, Connection(h));
    }
    assert homes[0] in homes && homes[0] != home;
  }

  /** A bind of a source whose resumed edits have no rivals leaves one live note a path. */
  lemma BindNeverClashes(d: Device, input: BindInput, plan: BindPlan)
    requires UnchangedSince(d, input.since) && ValidBind(d, input, plan) && CannotClash(d, input)
    ensures ResumesAreClashFree(d.tables, input.connection, plan.homes, plan.resumes)
  {
    hide ValidResumes, ResumesAreClashFree, HasNoRivals;
    assert Members(plan.homes) == Homes(d, input);
    ResumesNeverClash(d.tables, input.connection, plan.homes, plan.resumes);
  }

  /** Nothing a run binds can clash, as each bind finds the device. */
  ghost predicate RunCannotClash(d: Device, events: seq<Event>)
    requires CanRun(d, events)
    decreases |events|
  {
    events == [] ||
    (&& (events[0].Binding? ==> CannotClash(d, events[0].input))
     && RunCannotClash(Step(d, events[0]), events[1..]))
  }

  /** Every run that looks before it binds keeps one live note a path in every source. */
  lemma {:induction false} RunKeepsPaths(d: Device, events: seq<Event>)
    requires CanRun(d, events) && OneNoteAPath(d.tables) && RunCannotClash(d, events)
    ensures OneNoteAPath(Run(d, events).tables)
    decreases |events|
  {
    hide Step, IsEnabled, Sound, AreWellFormed, OneNoteAPath, CannotClash;
    if events != [] {
      StepCannotClash(d, events[0]);
      StepKeepsSound(d, events[0]);
      RunKeepsPaths(Step(d, events[0]), events[1..]);
    }
  }

  lemma StepCannotClash(d: Device, e: Event)
    requires IsEnabled(d, e) && (e.Binding? ==> CannotClash(d, e.input))
    ensures StepIsClashFree(d, e)
  {
    hide ValidBind, CannotClash, ResumesAreClashFree, ValidMove, Refusal;
    if e.Binding? && UnchangedSince(d, e.input.since) {
      BindNeverClashes(d, e.input, e.plan);
    }
  }
}
