/**
  What a bind does to the sources of a device, said of their states and rows (`bindConnection`
  and `bindingMode` in apps/web/src/store/connection.ts): the detached sources of the very
  account named come home and are gone, every other source is as it was, and the source
  bound is to be checked against its remote where any row of it came from elsewhere.
 */
module Binds {
  import opened Options
  import opened Paths
  import opened Naming
  import opened Library
  import opened MoveNotes
  import opened MoveFiles
  import opened MoveSpellings
  import opened MoveRows
  import opened MoveKeeps
  import opened MoveQueue
  import opened Unsynced
  import opened Sources
  import opened SourceRuns
  import opened SourceClashes

  /** A detached source of the provider and the account a bind names; of none where it names none. */
  predicate IsOfAccount(state: State, input: BindInput) {
    && state.detached.Some?
    && state.provider.Some? && state.provider.value == input.provider
    && state.accountId.Some? && input.accountId.Some? && state.accountId.value == input.accountId.value
  }

  /** A source that is live, or anybody else's, or of an account the bind does not name, is left exactly where it is. */
  lemma BindLeavesOthers(d: Device, input: BindInput, p: BindPlan, c: nat)
    requires UnchangedSince(d, input.since) && ValidBind(d, input, p)
    requires c in d.states && c != input.connection && !IsOfAccount(d.states[c], input)
    ensures c in Bind(d, input, p).states && Bind(d, input, p).states[c] == d.states[c]
    ensures RowsOf(Bind(d, input, p).tables, Connection(c)) == RowsOf(d.tables, Connection(c))
    ensures OpsOf(Bind(d, input, p).tables.ops, Connection(c)) == OpsOf(d.tables.ops, Connection(c))
  {
    assert c !in Homes(d, input);
    hide ValidBind, Gathered, OpsOf, QueueAll, BoundState, PileIsHeld, IsFirstBinding;
    assert !IsNamed(d, Binding(input, p), Connection(c));
    BindTouches(d, input, p, Connection(c));
  }

  /** A detached source of that account is gone: its state, its rows and its queue. */
  lemma BindTakesHome(d: Device, input: BindInput, p: BindPlan, c: nat)
    requires UnchangedSince(d, input.since) && ValidBind(d, input, p)
    requires c in d.states && c != input.connection && IsOfAccount(d.states[c], input)
    ensures c !in Bind(d, input, p).states
    ensures RowsOf(Bind(d, input, p).tables, Connection(c)) == NO_ROWS
    ensures OpsOf(Bind(d, input, p).tables.ops, Connection(c)) == []
  {
    assert c in Homes(d, input);
    hide CanMove, MoveRowsTo, ValidResumes, ResumeAll, QueueAll, BoundState, PileIsHeld, OpsOf, Homes;
    ResumedIsEmpty(d.tables, input.connection, p.homes, p.resumes, c);
    var t := ResumeAll(d.tables, input.connection, p.homes, p.resumes).tables;
    if !PileIsHeld(d) {
      OthersAreUntouched(t, PileMove(d, input), p.copy, Connection(c));
    }
    QueueTouches(Gathered(d, input, p).tables.ops, Connection(input.connection), p.owes, Connection(c));
  }

  lemma MovedWholeIsEmpty(t: Tables, from: nat, target: nat, p: Plan)
    requires CanMove(t, Homeward(from, target), p)
    ensures var u := MoveRowsTo(t, Homeward(from, target), p).tables;
            RowsOf(u, Connection(from)) == NO_ROWS && OpsOf(u.ops, Connection(from)) == []
  {
    hide ValidPlan, WellFormed, MoveRowsTo, WhereOf, CarryOps, OpsOf, Arrived, Place;
    MoveUnfolds(t, Homeward(from, target), p);
    WhereIs(t, Homeward(from, target), p);
    NothingIsLeftQueued(WhereOf(t, Homeward(from, target), p), t.ops);
  }

  lemma WhereIs(t: Tables, m: Move, p: Plan)
    requires ValidPlan(t, m, p)
    ensures WhereOf(t, m, p).m == m
  {
    hide ValidPlan, Place, Carry, YieldedBy;
  }

  lemma {:induction false} ResumedIsEmpty(t: Tables, target: nat, homes: seq<nat>, plans: map<nat, Plan>, c: nat)
    requires ValidResumes(t, target, homes, plans) && c != target && target !in homes
    requires c in homes || (RowsOf(t, Connection(c)) == NO_ROWS && OpsOf(t.ops, Connection(c)) == [])
    ensures var u := ResumeAll(t, target, homes, plans).tables;
            RowsOf(u, Connection(c)) == NO_ROWS && OpsOf(u.ops, Connection(c)) == []
    decreases |homes|
  {
    hide ValidPlan, WellFormed, MoveRowsTo, OpsOf, RowsOf;
    if homes != [] {
      var m, p := Homeward(homes[0], target), plans[homes[0]];
      assert homes[0] in homes;
      if c == homes[0] {
        MovedWholeIsEmpty(t, c, target, p);
      } else {
        OthersAreUntouched(t, m, p, Connection(c));
      }
      ResumedIsEmpty(MoveRowsTo(t, m, p).tables, target, homes[1..], plans, c);
    }
  }

  // ----- The state of the source bound -------------------------------------------------

  /** New to this device: no state is kept of the connection, and nothing waits for its account. */
  ghost predicate IsNew(d: Device, input: BindInput) {
    input.connection !in d.states && forall c :: c in d.states ==> !IsOfAccount(d.states[c], input)
  }

  /**
    The source bound is live and in front, of the provider and the account named or, where
    none is, of the account it had; it imports exactly where it was new, holding the app and
    remembering what was in front, or was importing already; and the bind is counted.
   */
  lemma BindIsShown(d: Device, input: BindInput, p: BindPlan)
    requires UnchangedSince(d, input.since) && ValidBind(d, input, p)
    ensures var bound, c := Bind(d, input, p), input.connection;
            && bound.active == Some(Connection(c)) && bound.bindings == d.bindings + 1
            && c in bound.states && IsLiveSource(bound.states[c])
            && bound.states[c].provider == Some(input.provider) && bound.states[c].boundAt == Some(p.now)
            && (input.accountId.Some? ==> bound.states[c].accountId == input.accountId)
            && (input.accountId.None? && c in d.states ==> bound.states[c].accountId == d.states[c].accountId)
            && (input.accountId.None? && c !in d.states ==> bound.states[c].accountId == None)
            && bound.states[c].importing ==
                 (if IsNew(d, input) then Some(Importing(true, p.showing))
                  else if c in d.states then d.states[c].importing else None)
  {
    hide Gathered, QueueAll, CanMove, MoveRowsTo, ResumeAll, ValidResumes, OwesOf, PileIsHeld;
    if IsNew(d, input) {
      assert Homes(d, input) == {};
    } else if input.connection !in d.states {
      var c :| c in d.states && IsOfAccount(d.states[c], input);
      assert c in Homes(d, input);
    }
  }

  /** Some row names a file or a directory on the remote. */
  ghost predicate NamesRemote(rows: Rows) {
    IsLinked(NO_ROWS, rows)
  }

  /** A first move's linked rows are linked rows of the end of it all. */
  lemma LinkedThen(a: Rows, b: Rows, c: Rows)
    requires RowsStand(a, b) && RowsStand(b, c)
    ensures IsLinked(a, c) <==> IsLinked(a, b) || IsLinked(b, c)
  {
    if IsLinked(a, b) {
      if id :| id in b.notes && id !in a.notes && b.notes[id].remoteId.Some? {
        assert c.notes[id] == b.notes[id];
      } else if path :| path in b.folders && path !in a.folders && b.folders[path].remoteId.Some? {
        assert c.folders[path] == b.folders[path];
      } else {
        var id :| id in b.files && id !in a.files && b.files[id].remoteId.Some?;
        assert c.files[id] == b.files[id];
      }
    }
    if IsLinked(b, c) {
      if id :| id in c.notes && id !in b.notes && c.notes[id].remoteId.Some? {
        assert id !in a.notes;
      } else if path :| path in c.folders && path !in b.folders && c.folders[path].remoteId.Some? {
        assert path !in a.folders;
      } else {
        var id :| id in c.files && id !in b.files && c.files[id].remoteId.Some?;
        assert id !in a.files;
      }
    }
    if IsLinked(a, c) {
      if id :| id in c.notes && id !in a.notes && c.notes[id].remoteId.Some? {
        assert id in b.notes ==> b.notes[id] == c.notes[id];
      } else if path :| path in c.folders && path !in a.folders && c.folders[path].remoteId.Some? {
        assert path in b.folders ==> b.folders[path] == c.folders[path];
      } else {
        var id :| id in c.files && id !in a.files && c.files[id].remoteId.Some?;
        assert id in b.files ==> b.files[id] == c.files[id];
      }
    }
  }

  lemma MoveLinks(t: Tables, m: Move, p: Plan)
    requires CanMove(t, m, p)
    ensures var moved := MoveRowsTo(t, m, p);
            moved.owed.linked == IsLinked(RowsOf(t, m.target), RowsOf(moved.tables, m.target))
  {
    hide ValidPlan, WellFormed, Place, Shelve, Carry, CarryOps, IsLinked, WhereOf;
  }

  lemma {:induction false} ResumesLink(t: Tables, target: nat, homes: seq<nat>, plans: map<nat, Plan>)
    requires ValidResumes(t, target, homes, plans)
    ensures var moved := ResumeAll(t, target, homes, plans);
            moved.owed.linked == IsLinked(RowsOf(t, Connection(target)), RowsOf(moved.tables, Connection(target)))
    decreases |homes|
  {
    hide ValidPlan, WellFormed, MoveRowsTo, IsLinked, RowsOf, RowsStand;
    var rows := RowsOf(t, Connection(target));
    if homes == [] {
      NothingIsLinked(rows);
    } else {
      var m, p := Homeward(homes[0], target), plans[homes[0]];
      var first := MoveRowsTo(t, m, p);
      MoveLinks(t, m, p);
      MoveStands(t, m, p);
      ResumesLink(first.tables, target, homes[1..], plans);
      ResumesStand(first.tables, target, homes[1..], plans);
      LinkedThen(rows, RowsOf(first.tables, Connection(target)),
                 RowsOf(ResumeAll(t, target, homes, plans).tables, Connection(target)));
    }
  }

  lemma NothingIsLinked(rows: Rows)
    ensures !IsLinked(rows, rows)
  {}

  /** A copy brings no row that names anything. */
  lemma CopiesNameNothing(t: Tables, m: Move, p: Plan)
    requires CanMove(t, m, p) && m.mode == Copy
    ensures !IsLinked(RowsOf(t, m.target), RowsOf(MoveRowsTo(t, m, p).tables, m.target))
  {
    CopiedNotes(t, m, p);
    CopiedFolders(t, m, p);
    CopiedFiles(t, m, p);
    MoveUnfolds(t, m, p);
    hide ValidPlan, WellFormed, MoveRowsTo, Arrived;
  }

  lemma CopiedNotes(t: Tables, m: Move, p: Plan)
    requires CanMove(t, m, p) && m.mode == Copy
    ensures forall id :: id in Arrived(t, m, p).notes && id !in RowsOf(t, m.target).notes ==>
              Arrived(t, m, p).notes[id].remoteId.None?
  {
    NotesArePlaced(t, m, p);
    hide ValidPlan, Place, Shelve, Carry, PlacedInNotebooks, SpellingsGrow, WellFormed, ValidMoving, LandedSoFar, Faithful;
    LandedNamesNothing(MovingOf(t, m, p), Place(t, m, p));
  }

  lemma LandedNamesNothing(c: Moving, g: Landed)
    requires ValidMoving(c) && LandedSoFar(c, g, c.notes.Keys) && c.mode == Copy
    ensures forall k :: k in g.notes && k !in c.theirs ==> g.notes[k].remoteId.None?
  {
    hide Faithful, Goes, LandsRight, ValidMoving, OwedAt, FoldPath, ParentPath;
    forall k | k in g.notes && k !in c.theirs
      ensures g.notes[k].remoteId.None?
    {
      assert k in g.placed.Values;
      var id :| id in g.placed && g.placed[id] == k;
      assert PlacedRight(c, g, id);
      RowIsPinnedOrNew(c, id, g.notes[k].path);
    }
  }

  lemma CopiedFolders(t: Tables, m: Move, p: Plan)
    requires CanMove(t, m, p) && m.mode == Copy
    ensures forall path :: path in Arrived(t, m, p).folders && path !in RowsOf(t, m.target).folders ==>
              Arrived(t, m, p).folders[path].remoteId.None?
  {
    FoldersAreTaken(t, m, p);
    hide ValidPlan, WellFormed, SpellingsFrom, Place, Carry;
    PlacedFoldersNameNothing(Shelves(RowsOf(t, m.target).folders, SpellingsFrom(p.spelled), {}), RowsOf(t, m.from).folders, p.folders);
  }

  lemma {:induction false} PlacedFoldersNameNothing(g: Shelves, rows: map<string, Folder>, order: seq<string>)
    requires forall path :: path in order ==> path in rows
    ensures forall path :: path in PlaceFolders(Copy, g, rows, order).folders && path !in g.folders ==>
              PlaceFolders(Copy, g, rows, order).folders[path].remoteId.None?
    ensures forall path :: path in PlaceFolders(Copy, g, rows, order).folders && path in g.folders ==>
              PlaceFolders(Copy, g, rows, order).folders[path] == g.folders[path]
              || PlaceFolders(Copy, g, rows, order).folders[path].remoteId.None?
    decreases |order|
  {
    hide FoldPath, Respell;
    if order != [] {
      assert order[0] in order;
      PlacedFoldersNameNothing(PlaceFolder(Copy, g, order[0], rows[order[0]]), rows, order[1..]);
    }
  }

  lemma CopiedFiles(t: Tables, m: Move, p: Plan)
    requires CanMove(t, m, p) && m.mode == Copy
    ensures forall id :: id in Arrived(t, m, p).files && id !in RowsOf(t, m.target).files ==>
              Arrived(t, m, p).files[id].remoteId.None?
  {
    FilesArePlaced(t, m, p);
    CarryingIsTheirs(t, m, p);
    hide ValidPlan, Place, Shelve, Carry, WellFormed, FiledSoFar, ValidCarrying, DistinctFiles;
    FiledNamesNothing(CarryingOf(t, m, p), RowsOf(t, m.target).bytes, Carry(t, m, p));
  }

  lemma FiledNamesNothing(c: Carrying, theirBytes: map<Id, Held>, g: Filed)
    requires FiledSoFar(c, theirBytes, g, c.files.Keys) && c.mode == Copy
    ensures forall k :: k in g.files && k !in c.theirs ==> g.files[k].remoteId.None?
  {
    hide Faithful, AtTells, FileIsKept, FoldPath, ParentPath, IsSendable;
    forall k | k in g.files && k !in c.theirs
      ensures g.files[k].remoteId.None?
    {
      assert k in g.placed.Values;
      var id :| id in g.placed && g.placed[id] == k;
      assert FiledAs(c, g, id);
    }
  }

  /**
    Before its first sync the source is to be checked against its remote exactly when that
    was owed already, or a row the bind brought names something there, or the source was
    detached and a row of its own does.
   */
  lemma UnverifiedIff(d: Device, input: BindInput, p: BindPlan)
    requires UnchangedSince(d, input.since) && ValidBind(d, input, p)
    ensures var bound, c := Bind(d, input, p), input.connection;
            && c in bound.states
            && (bound.states[c].resumeUnverified <==>
                  || (c in d.states && d.states[c].resumeUnverified)
                  || IsLinked(RowsOf(d.tables, Connection(c)), RowsOf(bound.tables, Connection(c)))
                  || (c in d.states && d.states[c].detached.Some? && NamesRemote(RowsOf(d.tables, Connection(c)))))
  {
    hide CanMove, MoveRowsTo, QueueAll, OwesOf, PileIsHeld, IsLinked, RowsStand, ResumeAll, ValidResumes;
    var target, t := Connection(input.connection), ResumeAll(d.tables, input.connection, p.homes, p.resumes).tables;
    var u := Bind(d, input, p).tables;
    ResumesLink(d.tables, input.connection, p.homes, p.resumes);
    ResumesStand(d.tables, input.connection, p.homes, p.resumes);
    BoundStands(d, input, p);
    LinkedThen(RowsOf(d.tables, target), RowsOf(t, target), RowsOf(u, target));
    BoundLinks(d, input, p, t);
    WaitingLinks(d, input, t);
    NamesThen(RowsOf(d.tables, target), RowsOf(t, target));
  }

  /** What is copied after the resumes names nothing, and is marked so. */
  lemma BoundLinks(d: Device, input: BindInput, p: BindPlan, t: Tables)
    requires UnchangedSince(d, input.since) && ValidBind(d, input, p)
    requires t == ResumeAll(d.tables, input.connection, p.homes, p.resumes).tables
    ensures var target := Connection(input.connection);
            && !IsLinked(RowsOf(t, target), RowsOf(Bind(d, input, p).tables, target))
            && Gathered(d, input, p).owed.linked ==
                 (ResumeAll(d.tables, input.connection, p.homes, p.resumes).owed.linked || Waiting(d, input, t).linked)
  {
    hide CanMove, MoveRowsTo, QueueAll, OwesOf, PileIsHeld, IsLinked, ResumeAll, ValidResumes, Waiting;
    NothingIsLinked(RowsOf(t, Connection(input.connection)));
    if !PileIsHeld(d) {
      CopiesNameNothing(t, PileMove(d, input), p.copy);
      MoveLinks(t, PileMove(d, input), p.copy);
    }
  }

  lemma WaitingLinks(d: Device, input: BindInput, t: Tables)
    ensures Waiting(d, input, t).linked <==>
              input.connection in d.states && d.states[input.connection].detached.Some?
              && NamesRemote(RowsOf(t, Connection(input.connection)))
  {
    hide FilesWith;
  }

  /** Rows that stand name something on the remote if they did, and otherwise only through what came. */
  lemma NamesThen(before: Rows, after: Rows)
    requires RowsStand(before, after)
    ensures NamesRemote(after) <==> NamesRemote(before) || IsLinked(before, after)
  {
    NothingStands(before);
    LinkedThen(NO_ROWS, before, after);
  }

  lemma NothingStands(rows: Rows)
    ensures RowsStand(NO_ROWS, rows)
  {}

  // ----- What a source owes that comes back --------------------------------------------

  /** Something in the queue of a source is about a note, makes a notebook, or sends a file. */
  ghost predicate IsQueuedFor(ops: seq<Op>, source: Source, owe: Owe) {
    exists op :: op in ops && IsOwedBy(op, source, owe)
  }

  /**
    A connection bound again after a detach: every live note of it that names no file has
    its write queued, every notebook that names no directory is to be made, and every file
    never uploaded is to be sent.
   */
  lemma BoundAgainIsOwed(d: Device, input: BindInput, p: BindPlan)
    requires UnchangedSince(d, input.since) && ValidBind(d, input, p)
    requires input.connection in d.states && d.states[input.connection].detached.Some?
    ensures var source, ops := Connection(input.connection), Bind(d, input, p).tables.ops;
            var rows := RowsOf(d.tables, source);
            && (forall id :: id in rows.notes && IsLive(rows.notes[id]) && rows.notes[id].remoteId.None? ==>
                  IsQueuedFor(ops, source, WriteNote(id, rows.notes[id].path)))
            && (forall path :: path in rows.folders && rows.folders[path].remoteId.None? ==>
                  IsQueuedFor(ops, source, MakeNotebook(path)))
            && (forall id :: id in rows.files && rows.files[id].remoteId.None? ==>
                  IsQueuedFor(ops, source, SendFile(id, rows.files[id].path)))
  {
    hide CanMove, MoveRowsTo, PileIsHeld, IsLinked, ResumeAll, ValidResumes, QueueAll, RowsStand, IsOwedBy;
    var target, t := Connection(input.connection), ResumeAll(d.tables, input.connection, p.homes, p.resumes).tables;
    var gathered, u := Gathered(d, input, p), Bind(d, input, p).tables;
    ResumesStand(d.tables, input.connection, p.homes, p.resumes);
    BoundStands(d, input, p);
    QueueAllKeeps(gathered.tables.ops, target, p.owes);
    WaitingIsOwed(d, input, t);
    UploadsStay(d, input, p, t);
    OwedIsThere(RowsOf(d.tables, target), RowsOf(t, target), RowsOf(u, target));
    hide Waiting;
    var rows := RowsOf(d.tables, target);
    assert RowsOf(gathered.tables, target) == RowsOf(u, target);
    forall id | id in rows.notes && IsLive(rows.notes[id]) && rows.notes[id].remoteId.None?
      ensures IsQueuedFor(u.ops, target, WriteNote(id, rows.notes[id].path))
    {
      assert WriteNote(id, rows.notes[id].path) in p.owes;
    }
    forall path | path in rows.folders && rows.folders[path].remoteId.None?
      ensures IsQueuedFor(u.ops, target, MakeNotebook(path))
    {
      assert MakeNotebook(path) in p.owes;
    }
    forall id | id in rows.files && rows.files[id].remoteId.None?
      ensures IsQueuedFor(u.ops, target, SendFile(id, rows.files[id].path))
    {
      if id !in FilesWith(t.ops, target, Upload) {
        assert SendFile(id, rows.files[id].path) in p.owes;
      }
    }
  }

  /** Every row before is the same row at the end. */
  lemma OwedIsThere(a: Rows, b: Rows, c: Rows)
    requires RowsStand(a, b) && RowsStand(b, c)
    ensures forall id :: id in a.notes ==> id in b.notes && b.notes[id] == a.notes[id] && id in c.notes && c.notes[id] == a.notes[id]
    ensures forall path :: path in a.folders ==> path in b.folders && b.folders[path] == a.folders[path]
    ensures forall id :: id in a.files ==> id in b.files && b.files[id] == a.files[id] && id in c.files && c.files[id] == a.files[id]
  {}

  lemma WaitingIsOwed(d: Device, input: BindInput, t: Tables)
    requires input.connection in d.states && d.states[input.connection].detached.Some?
    ensures var source := Connection(input.connection);
            var rows, owed := RowsOf(t, source), Waiting(d, input, t);
            && (forall id :: id in rows.notes && IsLive(rows.notes[id]) && rows.notes[id].remoteId.None? ==> id in owed.notes)
            && (forall path :: path in rows.folders && rows.folders[path].remoteId.None? ==> path in owed.folders)
            && (forall id :: id in rows.files && rows.files[id].remoteId.None? ==>
                  id in owed.files || id in FilesWith(t.ops, source, Upload))
  {
    hide FilesWith;
  }

  /** An upload queued for the source before the copy is queued after it. */
  lemma UploadsStay(d: Device, input: BindInput, p: BindPlan, t: Tables)
    requires UnchangedSince(d, input.since) && ValidBind(d, input, p)
    requires t == ResumeAll(d.tables, input.connection, p.homes, p.resumes).tables
    ensures var source := Connection(input.connection);
            forall id, path :: id in FilesWith(t.ops, source, Upload) ==>
              IsQueuedFor(Bind(d, input, p).tables.ops, source, SendFile(id, path))
  {
    hide CanMove, MoveRowsTo, PileIsHeld, IsLinked, ResumeAll, ValidResumes, QueueAll, OwesOf, Waiting;
    var source, gathered := Connection(input.connection), Gathered(d, input, p);
    QueueAllKeeps(gathered.tables.ops, source, p.owes);
    forall id, path | id in FilesWith(t.ops, source, Upload)
      ensures IsQueuedFor(Bind(d, input, p).tables.ops, source, SendFile(id, path))
    {
      var i :| 0 <= i < |t.ops| && t.ops[i].source == source && t.ops[i].kind == Upload && t.ops[i].fileId == Some(id);
      if !PileIsHeld(d) {
        OpOfTargetStays(t, PileMove(d, input), p.copy, t.ops[i]);
      }
      assert t.ops[i] in gathered.tables.ops && IsOwedBy(t.ops[i], source, SendFile(id, path));
    }
  }

  /** What is queued for the target stays queued as it is. */
  lemma OpOfTargetStays(t: Tables, m: Move, p: Plan, op: Op)
    requires CanMove(t, m, p) && op in t.ops && op.source != m.from
    ensures op in MoveRowsTo(t, m, p).tables.ops
  {
    MoveUnfolds(t, m, p);
    WhereIs(t, m, p);
    hide ValidPlan, WellFormed, MoveRowsTo, CarryOps, WhereOf;
    CarriedInto(WhereOf(t, m, p), t.ops, op, op);
  }
}
