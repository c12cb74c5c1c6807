/**
  What every step of a device keeps of every source: rows under well-formed paths and,
  where it was so before, one notebook a directory, one file a name and one live note a path.
 */
module SourcesKept {
  import opened Options
  import opened Paths
  import opened Naming
  import opened Library
  import opened MoveNotes
  import opened MoveSpellings
  import opened MoveRows
  import opened MoveForetold
  import opened MoveKeeps
  import opened MoveQueue
  import opened Unsynced
  import opened Sources
  import opened SourceRuns

  /** Well-formed paths in every source. */
  ghost predicate AreWellFormed(t: Tables) {
    forall source :: WellFormed(RowsOf(t, source))
  }

  ghost predicate IsSound(rows: Rows) {
    WellFormed(rows) && DistinctFolders(rows.folders) && DistinctFiles(rows.files)
  }

  /** In every source: well-formed paths, one notebook a directory, one file a name. */
  ghost predicate Sound(t: Tables) {
    forall source :: IsSound(RowsOf(t, source))
  }

  /** No two live notes of one source are one file on its provider. */
  ghost predicate OneNoteAPath(t: Tables) {
    forall source :: DistinctPaths(RowsOf(t, source).notes)
  }

  /** Of the rows as a move finds them: no conflict copy is beside its own path at one that is claimed. */
  ghost predicate IsClashFree(t: Tables, m: Move, p: Plan)
    requires CanMove(t, m, p)
  {
    && (forall id :: id in p.notes ==> id in RowsOf(t, m.from).notes)
    && CopiesAreFree(MovingOf(t, m, p), LivePaths(RowsOf(t, m.target).notes), p.notes)
  }

  ghost predicate ResumesAreClashFree(t: Tables, target: nat, homes: seq<nat>, plans: map<nat, Plan>)
    requires ValidResumes(t, target, homes, plans)
    decreases |homes|
  {
    homes == [] ||
    (&& IsClashFree(t, Homeward(homes[0], target), plans[homes[0]])
     && ResumesAreClashFree(MoveRowsTo(t, Homeward(homes[0], target), plans[homes[0]]).tables, target, homes[1..], plans))
  }

  /** Only a bind resumes, and only a resume makes conflict copies. */
  ghost predicate StepIsClashFree(d: Device, e: Event)
    requires IsEnabled(d, e)
  {
    e.Binding? && UnchangedSince(d, e.input.since) ==>
      ResumesAreClashFree(d.tables, e.input.connection, e.plan.homes, e.plan.resumes)
  }

  /** Rows no worse than they were. */
  ghost predicate RowsKeep(before: Rows, after: Rows) {
    (WellFormed(before) ==> WellFormed(after)) && (IsSound(before) ==> IsSound(after))
  }

  /** Every source's rows well formed or sound, if they were. */
  ghost predicate Keeps(t: Tables, u: Tables) {
    (AreWellFormed(t) ==> AreWellFormed(u)) && (Sound(t) ==> Sound(u))
  }

  ghost predicate KeepsPaths(t: Tables, u: Tables) {
    OneNoteAPath(t) ==> OneNoteAPath(u)
  }

  lemma NoRowsAreSound()
    ensures IsSound(NO_ROWS) && DistinctPaths(NO_ROWS.notes)
  {}

  lemma LeftIsSound(m: Move, rows: Rows)
    ensures RowsKeep(rows, Left(m, rows)) && (DistinctPaths(rows.notes) ==> DistinctPaths(Left(m, rows).notes))
  {
    hide IsNormal, PathSegments, FoldPath;
    NoRowsAreSound();
  }

  lemma EveryRowKeeps(t: Tables, u: Tables)
    requires forall source :: RowsKeep(RowsOf(t, source), RowsOf(u, source))
    ensures Keeps(t, u)
  {
    hide WellFormed, IsSound, RowsOf;
    forall source
      ensures RowsKeep(RowsOf(t, source), RowsOf(u, source))
    {}
  }

  lemma ArrivedKeeps(t: Tables, m: Move, p: Plan)
    requires CanMove(t, m, p)
    ensures RowsKeep(RowsOf(t, m.target), Arrived(t, m, p))
  {
    TargetIsWellFormed(t, m, p);
    hide ValidPlan, WellFormed, Arrived, DistinctFiles, DistinctFolders, RowsOf;
  }

  lemma MoveKeepsRows(t: Tables, m: Move, p: Plan, source: Source)
    requires CanMove(t, m, p)
    ensures RowsKeep(RowsOf(t, source), RowsOf(MoveRowsTo(t, m, p).tables, source))
  {
    MoveUnfolds(t, m, p);
    hide ValidPlan, WellFormed, IsSound, MoveRowsTo, Arrived, Left, RowsOf, Place, WhereOf, CarryOps;
    if source == m.target {
      ArrivedKeeps(t, m, p);
    } else if source == m.from {
      LeftIsSound(m, RowsOf(t, m.from));
    }
  }

  lemma MoveKeepsSound(t: Tables, m: Move, p: Plan)
    requires CanMove(t, m, p)
    ensures Keeps(t, MoveRowsTo(t, m, p).tables)
  {
    hide ValidPlan, WellFormed, IsSound, MoveRowsTo, RowsOf, Keeps, RowsKeep;
    forall source
      ensures RowsKeep(RowsOf(t, source), RowsOf(MoveRowsTo(t, m, p).tables, source))
    {
      MoveKeepsRows(t, m, p, source);
    }
    EveryRowKeeps(t, MoveRowsTo(t, m, p).tables);
  }

  lemma TargetTells(t: Tables, m: Move, p: Plan)
    requires CanMove(t, m, p) && OneNoteAPath(t)
    ensures DistinctPaths(RowsOf(MoveRowsTo(t, m, p).tables, m.target).notes) <==> IsClashFree(t, m, p)
  {
    hide ValidPlan, WellFormed, MoveRowsTo, Arrived, DistinctPaths, CopiesAreFree, RowsOf, LivePaths;
    MoveUnfolds(t, m, p);
    MoveKeepsPathsIff(t, m, p);
    assert DistinctPaths(RowsOf(t, m.target).notes);
  }

  /** A move leaves one live note a path in every source exactly when, there being one before, no copy clashes. */
  lemma MoveKeepsOneNote(t: Tables, m: Move, p: Plan)
    requires CanMove(t, m, p)
    ensures m.mode == Copy ==> IsClashFree(t, m, p)
    ensures OneNoteAPath(t) ==> (OneNoteAPath(MoveRowsTo(t, m, p).tables) <==> IsClashFree(t, m, p))
  {
    MoveKeepsPathsIff(t, m, p);
    hide ValidPlan, WellFormed, MoveRowsTo, Arrived, DistinctPaths, CopiesAreFree, LivePaths, RowsOf;
    if OneNoteAPath(t) {
      TargetTells(t, m, p);
      RestKeepsOneNote(t, m, p);
    }
  }

  lemma RestKeepsOneNote(t: Tables, m: Move, p: Plan)
    requires CanMove(t, m, p) && OneNoteAPath(t)
    ensures var u := MoveRowsTo(t, m, p).tables;
            OneNoteAPath(u) <==> DistinctPaths(RowsOf(u, m.target).notes)
  {
    var u := MoveRowsTo(t, m, p).tables;
    MoveUnfolds(t, m, p);
    LeftIsSound(m, RowsOf(t, m.from));
    hide ValidPlan, WellFormed, IsSound, MoveRowsTo, Arrived, Left, DistinctPaths, RowsOf, Place;
    if DistinctPaths(RowsOf(u, m.target).notes) {
      forall source
        ensures DistinctPaths(RowsOf(u, source).notes)
      {
        assert DistinctPaths(RowsOf(t, source).notes) && DistinctPaths(RowsOf(t, m.from).notes);
      }
    }
  }

  lemma {:induction false} ResumesKeepSound(t: Tables, target: nat, homes: seq<nat>, plans: map<nat, Plan>)
    requires ValidResumes(t, target, homes, plans)
    ensures Keeps(t, ResumeAll(t, target, homes, plans).tables)
    ensures OneNoteAPath(t) && ResumesAreClashFree(t, target, homes, plans) ==> OneNoteAPath(ResumeAll(t, target, homes, plans).tables)
    decreases |homes|
  {
    hide ValidPlan, WellFormed, MoveRowsTo, IsClashFree, Sound, AreWellFormed, OneNoteAPath;
    if homes != [] {
      MoveKeepsSound(t, Homeward(homes[0], target), plans[homes[0]]);
      MoveKeepsOneNote(t, Homeward(homes[0], target), plans[homes[0]]);
      ResumesKeepSound(MoveRowsTo(t, Homeward(homes[0], target), plans[homes[0]]).tables, target, homes[1..], plans);
    }
  }

  lemma SameRows(t: Tables, u: Tables)
    requires u.rows == t.rows
    ensures AreWellFormed(u) == AreWellFormed(t) && Sound(u) == Sound(t) && OneNoteAPath(u) == OneNoteAPath(t)
  {
    hide IsSound, WellFormed, DistinctPaths;
    assert forall source :: RowsOf(u, source) == RowsOf(t, source);
  }

  lemma BindKeepsSound(d: Device, input: BindInput, plan: BindPlan)
    requires UnchangedSince(d, input.since) && ValidBind(d, input, plan)
    ensures Keeps(d.tables, Bind(d, input, plan).tables)
    ensures OneNoteAPath(d.tables) && ResumesAreClashFree(d.tables, input.connection, plan.homes, plan.resumes) ==>
              OneNoteAPath(Bind(d, input, plan).tables)
  {
    hide CanMove, MoveRowsTo, QueueAll, ValidResumes, ResumeAll, Sound, AreWellFormed, OneNoteAPath, ResumesAreClashFree,
      OwesOf;
    ResumesKeepSound(d.tables, input.connection, plan.homes, plan.resumes);
    var t := ResumeAll(d.tables, input.connection, plan.homes, plan.resumes).tables;
    if !PileIsHeld(d) {
      MoveKeepsSound(t, PileMove(d, input), plan.copy);
      MoveKeepsOneNote(t, PileMove(d, input), plan.copy);
    }
    SameRows(Gathered(d, input, plan).tables, Bind(d, input, plan).tables);
  }

  /** Fewer rows, at the paths they had. */
  ghost predicate IsFewer(before: Rows, after: Rows) {
    && (forall id :: id in after.notes ==> id in before.notes && after.notes[id].path == before.notes[id].path
                                           && after.notes[id].deleted == before.notes[id].deleted)
    && after.folders.Keys <= before.folders.Keys
    && (forall id :: id in after.files ==> id in before.files && after.files[id].path == before.files[id].path)
    && (before.bytes.Keys <= before.files.Keys ==> after.bytes.Keys <= after.files.Keys)
  }

  lemma FewerIsSound(before: Rows, after: Rows)
    requires IsFewer(before, after)
    ensures RowsKeep(before, after) && (DistinctPaths(before.notes) ==> DistinctPaths(after.notes))
  {
    hide IsNormal, PathSegments, FoldPath;
    FewerFolders(before.folders, after.folders);
    FewerFiles(before, after);
    FewerNotes(before, after);
    hide DistinctFolders, DistinctFiles, DistinctPaths;
  }

  lemma FewerFolders(before: map<string, Folder>, after: map<string, Folder>)
    requires after.Keys <= before.Keys
    ensures DistinctFolders(before) ==> DistinctFolders(after)
    ensures NormalFolders(before) ==> NormalFolders(after)
  {
    hide IsNormal, FoldPath;
    assert forall path :: path in after ==> path in before.Keys;
  }

  lemma FewerFiles(before: Rows, after: Rows)
    requires IsFewer(before, after)
    ensures DistinctFiles(before.files) ==> DistinctFiles(after.files)
  {
    hide FoldPath;
    if DistinctFiles(before.files) {
      forall i, j | i in after.files && j in after.files && FoldPath(after.files[i].path) == FoldPath(after.files[j].path)
        ensures i == j
      {
        assert FoldPath(before.files[i].path) == FoldPath(before.files[j].path);
      }
    }
  }

  lemma FewerNotes(before: Rows, after: Rows)
    requires IsFewer(before, after)
    ensures NamedNotes(before.notes) ==> NamedNotes(after.notes)
    ensures DistinctPaths(before.notes) ==> DistinctPaths(after.notes)
  {
    hide FoldPath, PathSegments;
    if NamedNotes(before.notes) {
      assert forall id :: id in after.notes ==> PathSegments(before.notes[id].path) != [];
    }
    if DistinctPaths(before.notes) {
      forall i, j | i in after.notes && j in after.notes && i != j && IsLive(after.notes[i]) && IsLive(after.notes[j])
        ensures FoldPath(after.notes[i].path) != FoldPath(after.notes[j].path)
      {
        assert FoldPath(before.notes[i].path) != FoldPath(before.notes[j].path);
      }
    }
  }

  /** One source's rows made fewer, and nothing else. */
  lemma FewerInOne(t: Tables, u: Tables, source: Source)
    requires IsFewer(RowsOf(t, source), RowsOf(u, source))
    requires forall other :: other != source ==> RowsOf(u, other) == RowsOf(t, other)
    ensures Keeps(t, u) && KeepsPaths(t, u)
  {
    hide WellFormed, IsSound, DistinctPaths, RowsOf, IsFewer;
    FewerIsSound(RowsOf(t, source), RowsOf(u, source));
    forall other
      ensures RowsKeep(RowsOf(t, other), RowsOf(u, other))
      ensures OneNoteAPath(t) ==> DistinctPaths(RowsOf(u, other).notes)
    {
      assert OneNoteAPath(t) ==> DistinctPaths(RowsOf(t, source).notes) && DistinctPaths(RowsOf(t, other).notes);
      assert other != source ==> RowsOf(u, other) == RowsOf(t, other);
    }
    EveryRowKeeps(t, u);
  }

  lemma KeepOnlyIsFewer(t: Tables, source: Source, k: Keeping)
    ensures IsFewer(RowsOf(t, source), RowsOf(KeepOnly(t, source, k), source))
  {
    hide KeptFiles, NeededFolders, OpsStaying;
  }

  lemma CutIsFewer(t: Tables, source: Source)
    ensures IsFewer(RowsOf(t, source), RowsOf(CutLoose(t, source).tables, source))
  {
    hide OnlyUploads, FileStays;
  }

  lemma KeepOnlyKeepsSound(t: Tables, source: Source, k: Keeping)
    ensures Keeps(t, KeepOnly(t, source, k)) && Keeps(t, ForgetRows(t, source))
    ensures KeepsPaths(t, KeepOnly(t, source, k)) && KeepsPaths(t, ForgetRows(t, source))
  {
    KeepOnlyIsFewer(t, source, k);
    hide IsFewer, OpsStaying, OpsNotOf, KeptFiles, NeededFolders, Keeps, KeepsPaths;
    FewerInOne(t, KeepOnly(t, source, k), source);
    NoRowsAreFewer(RowsOf(t, source));
    FewerInOne(t, ForgetRows(t, source), source);
  }

  lemma NoRowsAreFewer(rows: Rows)
    ensures IsFewer(rows, NO_ROWS)
  {}

  lemma KeepUnseenKeepsSound(d: Device, c: nat, seen: Seen, holding: set<Id>, links: Links, now: int)
    requires c in d.states
    ensures var u := KeepUnseen(d, c, seen, holding, links, now).device.tables;
            Keeps(d.tables, u) && KeepsPaths(d.tables, u)
    ensures Keeps(d.tables, ForgetRows(d.tables, Connection(c))) && KeepsPaths(d.tables, ForgetRows(d.tables, Connection(c)))
  {
    hide UnsyncedIn, HeldIn, KeepOnly, ForgetRows, UnseenNotes, Keeps, KeepsPaths;
    var unsent := UnsyncedIn(d.tables, Connection(c), Unverified(d, c));
    var staying := UnseenNotes(d.tables, Connection(c), unsent, seen) + HeldIn(d.tables, Connection(c), holding);
    KeepOnlyKeepsSound(d.tables, Connection(c), Keeping(unsent, staying, unsent.files - seen.files, links));
  }

  lemma KeepsItself(t: Tables)
    ensures Keeps(t, t) && KeepsPaths(t, t)
  {}

  lemma DetachKeepsSound(d: Device, e: Event)
    requires e.Detaching?
    ensures Keeps(d.tables, Step(d, e).tables) && KeepsPaths(d.tables, Step(d, e).tables)
  {
    hide UnsyncedIn, HeldIn, KeepOnly, ForgetRows, Keeps, KeepsPaths;
    var c := Connection(e.connection);
    var unsent := UnsyncedIn(d.tables, c, Unverified(d, e.connection));
    var heldOnly := HeldIn(d.tables, c, e.holding) - Listed(unsent);
    KeepOnlyKeepsSound(d.tables, c, Keeping(unsent, Listed(unsent) + heldOnly, unsent.files, e.links));
    KeepsItself(d.tables);
  }

  lemma ReleaseKeepsSound(d: Device, e: Event)
    requires e.Releasing?
    ensures Keeps(d.tables, Step(d, e).tables) && KeepsPaths(d.tables, Step(d, e).tables)
  {
    hide UnsyncedIn, HeldIn, KeepOnly, ForgetRows, UnseenNotes, UnseenIn, KeepUnseen, Keeps, KeepsPaths;
    KeepsItself(d.tables);
    if e.connection in d.states {
      KeepUnseenKeepsSound(d.(bindings := d.bindings + 1), e.connection, e.seen, e.holding, e.links, e.now);
    }
  }

  lemma MovingKeepsSound(d: Device, e: Event)
    requires e.Moving? && IsEnabled(d, e)
    ensures Keeps(d.tables, Step(d, e).tables) && KeepsPaths(d.tables, Step(d, e).tables)
  {
    hide UnsyncedIn, QueueAll, MoveRowsTo, ValidPlan, WellFormed, MovingFolders, MovingFiles, UnseenIn, MovingNotes,
      HeldIn, OpsNotOf, Refusal, UnsentMove, KeepOnly, ForgetRows, ValidMove, Sound, AreWellFormed, OneNoteAPath;
    if Refusal(d, e.move).None? {
      MovingUnfolds(d, e);
      UnsentMoveGoes(d, e.move);
      var after := AfterMove(d, e.move, e.landing, e.owes);
      MoveKeepsSound(d.tables, UnsentMove(d, e.move), e.landing);
      MoveKeepsOneNote(d.tables, UnsentMove(d, e.move), e.landing);
      SameRows(MoveRowsTo(d.tables, UnsentMove(d, e.move), e.landing).tables, after.tables);
      KeepUnseenKeepsSound(after, e.move.from, e.move.seen, e.move.holding, e.move.links, e.move.now);
    }
  }

  lemma CutKeepsSound(d: Device, c: nat, found: bool, owes: seq<Owe>)
    requires c in d.states
    ensures var u := VerifyResume(d, c, found, owes).tables;
            Keeps(d.tables, u) && KeepsPaths(d.tables, u)
  {
    CutIsFewer(d.tables, Connection(c));
    hide IsFewer, OnlyUploads, CutRows, QueueAll, Sound, AreWellFormed, OneNoteAPath;
    FewerInOne(d.tables, CutLoose(d.tables, Connection(c)).tables, Connection(c));
    SameRows(CutLoose(d.tables, Connection(c)).tables, VerifyResume(d, c, false, owes).tables);
  }

  /**
    Every step leaves every source well formed, with one notebook a directory and one file
    a name if it was so before, and with one live note a path if it was, unless a conflict
    copy of a resume would be where a note is claimed.
   */
  lemma StepKeepsSound(d: Device, e: Event)
    requires IsEnabled(d, e)
    ensures Keeps(d.tables, Step(d, e).tables)
    ensures OneNoteAPath(d.tables) && StepIsClashFree(d, e) ==> OneNoteAPath(Step(d, e).tables)
  {
    hide ValidBind, Bind, VerifyResume, Detach, Release, MoveUnsyncedTo, ValidMove, Refusal, Sound, AreWellFormed,
      OneNoteAPath, ResumesAreClashFree;
    match e {
      case Binding(input, plan) =>
        if UnchangedSince(d, input.since) {
          BindKeepsSound(d, input, plan);
        } else {
          BindDoesNothing(d, input, plan);
        }
      case Verifying(c, asked, found, owes) =>
        if StillAsked(d, c, asked) {
          CutKeepsSound(d, c, found, owes);
        }
      case Detaching(_, _, _, _, _, _) => DetachKeepsSound(d, e);
      case Releasing(_, _, _, _, _) => ReleaseKeepsSound(d, e);
      case Moving(_, _, _) => MovingKeepsSound(d, e);
    }
  }

  ghost predicate RunIsClashFree(d: Device, events: seq<Event>)
    requires CanRun(d, events)
    decreases |events|
  {
    events == [] || (StepIsClashFree(d, events[0]) && RunIsClashFree(Step(d, events[0]), events[1..]))
  }

  /** So does every run. */
  lemma {:induction false} RunKeepsSound(d: Device, events: seq<Event>)
    requires CanRun(d, events)
    ensures Keeps(d.tables, Run(d, events).tables)
    ensures OneNoteAPath(d.tables) && RunIsClashFree(d, events) ==> OneNoteAPath(Run(d, events).tables)
    decreases |events|
  {
    hide Step, IsEnabled, StepIsClashFree, Sound, AreWellFormed, OneNoteAPath;
    if events != [] {
      StepKeepsSound(d, events[0]);
      RunKeepsSound(Step(d, events[0]), events[1..]);
    }
  }

  /** A live note that is kept keeps every notebook it is in. */
  lemma KeptNotesKeepNotebooks(t: Tables, source: Source, k: Keeping, id: Id, folder: string)
    requires WellFormed(RowsOf(t, source))
    requires id in k.staying && id in RowsOf(t, source).notes && IsLive(RowsOf(t, source).notes[id])
    requires folder in RowsOf(t, source).folders && IsWithin(RowsOf(t, source).notes[id].path, folder)
    requires folder != NormalizePath(RowsOf(t, source).notes[id].path)
    ensures var u := KeepOnly(t, source, k);
            id in RowsOf(u, source).notes && folder in RowsOf(u, source).folders
  {
    hide KeptFiles, OpsStaying, IsWithin, AncestorPaths, FoldPath, NamedNotes, NormalizePath;
    FolderIsNormal(RowsOf(t, source), folder);
    AncestorsAreEnclosing(RowsOf(t, source).notes[id].path, folder);
    assert FoldPath(folder) in NeededFolders(t, source, k);
  }

  lemma FolderIsNormal(rows: Rows, folder: string)
    requires WellFormed(rows) && folder in rows.folders
    ensures NormalizePath(folder) == folder && folder != ROOT
  {}

  // ----- Exactly what a source let go of keeps -----------------------------------------

  /** What the remote was never sent of a note: its text, its name, or that it is deleted. */
  predicate IsOwedAnything(t: Tables, source: Source, unverified: bool, id: Id)
    requires id in RowsOf(t, source).notes
  {
    var note := RowsOf(t, source).notes[id];
    if note.deleted then note.remoteId.Some?
    else
      unverified || note.dirty || note.remoteId.None?
      || id in NotesWith(t.ops, source, Write) || id in NotesWith(t.ops, source, MoveNote)
  }

  lemma ListedIsOwed(t: Tables, source: Source, unverified: bool)
    ensures forall id :: id in Listed(UnsyncedIn(t, source, unverified)) <==>
              id in RowsOf(t, source).notes && IsOwedAnything(t, source, unverified, id)
  {
    hide IsUnsentFolder;
  }

  lemma KeptNotes(t: Tables, source: Source, k: Keeping)
    ensures RowsOf(KeepOnly(t, source, k), source).notes.Keys == RowsOf(t, source).notes.Keys * k.staying
    ensures RowsOf(ForgetRows(t, source), source).notes.Keys == {}
  {
    hide KeptFiles, NeededFolders, OpsStaying, OpsNotOf;
  }

  /** A detach keeps exactly the notes the remote is owed something of, and those an editor holds. */
  lemma DetachKeepsExactly(d: Device, c: nat, reason: Reason, holding: set<Id>, since: Option<nat>, links: Links, now: int, id: Id)
    requires UnchangedSince(d, since) && c in d.states && id in RowsOf(d.tables, Connection(c)).notes
    ensures id in RowsOf(Detach(d, c, reason, holding, since, links, now).tables, Connection(c)).notes
            <==> IsOwedAnything(d.tables, Connection(c), Unverified(d, c), id) || id in holding
  {
    hide UnsyncedIn, KeepOnly, ForgetRows, RowsOf, IsOwedAnything;
    var source := Connection(c);
    ListedIsOwed(d.tables, source, Unverified(d, c));
    var unsent := UnsyncedIn(d.tables, source, Unverified(d, c));
    var heldOnly := HeldIn(d.tables, source, holding) - Listed(unsent);
    KeptNotes(d.tables, source, Keeping(unsent, Listed(unsent) + heldOnly, unsent.files, links));
    assert id in holding <==> id in HeldIn(d.tables, source, holding);
    assert heldOnly == {} ==> id !in heldOnly;
    assert IsEmpty(unsent) ==> Listed(unsent) == {};
  }

  /** A release keeps exactly what it was owed and not shown as it stands, and what an editor holds. */
  lemma ReleaseKeepsExactly(d: Device, c: nat, seen: Seen, holding: set<Id>, links: Links, now: int, id: Id)
    requires c in d.states && !IsLiveSource(d.states[c]) && id in RowsOf(d.tables, Connection(c)).notes
    ensures id in RowsOf(Release(d, c, seen, holding, links, now).device.tables, Connection(c)).notes
            <==> (IsOwedAnything(d.tables, Connection(c), Unverified(d, c), id)
                  && !WasSeen(seen, id, RowsOf(d.tables, Connection(c)).notes[id]))
                 || id in holding
  {
    hide UnsyncedIn, KeepOnly, ForgetRows, RowsOf, IsOwedAnything, Listed;
    var source := Connection(c);
    ListedIsOwed(d.tables, source, Unverified(d, c));
    var unsent := UnsyncedIn(d.tables, source, Unverified(d, c));
    var unseen, held := UnseenNotes(d.tables, source, unsent, seen), HeldIn(d.tables, source, holding);
    KeptNotes(d.tables, source, Keeping(unsent, unseen + held, unsent.files - seen.files, links));
    assert id in holding <==> id in held;
    assert id in unseen <==> id in Listed(unsent) && !WasSeen(seen, id, RowsOf(d.tables, source).notes[id]);
  }
}
