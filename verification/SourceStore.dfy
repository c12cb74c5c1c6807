/**
  The store of a device's sources, written to by one transaction after another
  (apps/web/src/store/connection.ts). Each method leaves the device as the operation
  of `Sources` says, for some choice of what the source leaves to chance.
 */
module SourceStore {
  import opened Options
  import opened Naming
  import opened Library
  import opened MoveNotes
  import opened MoveFiles
  import opened MoveRows
  import opened MoveKeeps
  import opened Unsynced
  import opened Sources
  import SourceRuns
  import opened SourcesKept
  import opened QueueOrder
  import opened Transactions

  class SourceStore {
    /** How the device's language compares names. */
    const collation: Collation
    var rows: map<Source, Rows>
    var ops: seq<Op>
    var states: map<nat, State>
    var active: Option<Source>
    var bindings: nat

    function Contents(): Device
      reads this
    {
      Device(Tables(rows, ops), states, active, bindings)
    }

    constructor (collation: Collation)
      ensures this.collation == collation
      ensures Contents() == Device(Tables(map[], []), map[], None, 0)
      ensures AreWellFormed(Contents().tables)
    {
      this.collation := collation;
      rows, ops, states, active, bindings := map[], [], map[], None, 0;
      new;
      NoRowsAreSound();
    }

    /** `moveRowsTo` */
    method MoveRows(m: Move, stamp: Stamp) returns (owed: Owed, ghost plan: Plan)
      requires m.from != m.target && AreWellFormed(Contents().tables)
      modifies this`rows, this`ops
      ensures CanMove(old(Contents()).tables, m, plan)
      ensures Moved(Contents().tables, owed) == MoveRowsTo(old(Contents()).tables, m, plan)
      ensures AreWellFormed(Contents().tables)
    {
      hide ValidPlan, WellFormed, MoveRowsTo;
      var t := Tables(rows, ops);
      assert WellFormed(RowsOf(t, m.from)) && WellFormed(RowsOf(t, m.target));
      var chosen := PlanMove(t, m, stamp);
      plan := chosen;
      var moved := CarryOut(t, m, chosen);
      MoveKeepsSound(t, m, plan);
      rows, ops, owed := moved.tables.rows, moved.tables.ops, moved.owed;
    }

    /** `activeConnectionId` */
    method Showing() returns (source: Source)
      ensures IsShowing(Contents(), source)
    {
      if active.Some? && (active.value.Pile? || active.value.id in states) { return active.value; }
      if states == map[] { return Pile; }
      var c :| c in states;
      return Connection(c);
    }

    /** Each detached source of the account, one after another. */
    method ResumeHomes(target: nat, homes: seq<nat>, stamp: Stamp) returns (owed: Owed, ghost plans: map<nat, Plan>)
      requires AreWellFormed(Contents().tables) && target !in homes
      requires forall i, j :: 0 <= i < j < |homes| ==> homes[i] != homes[j]
      modifies this`rows, this`ops
      ensures ValidResumes(old(Contents()).tables, target, homes, plans)
      ensures ResumeAll(old(Contents()).tables, target, homes, plans) == Moved(Contents().tables, owed)
      ensures AreWellFormed(Contents().tables)
    {
      hide CanMove, MoveRowsTo, AreWellFormed, Together;
      owed, plans := NOTHING_OWED, map[];
      for i := 0 to |homes|
        invariant AreWellFormed(Contents().tables)
        invariant ValidResumes(old(Contents()).tables, target, homes[..i], plans)
        invariant ResumeAll(old(Contents()).tables, target, homes[..i], plans) == Moved(Contents().tables, owed)
      {
        ghost var before := Contents().tables;
        var more, plan := MoveRows(Homeward(homes[i], target), stamp);
        ResumeOneMore(old(Contents()).tables, target, homes[..i], plans, homes[i], plan);
        assert homes[..i + 1] == homes[..i] + [homes[i]];
        owed := Together(owed, more);
        plans := plans[homes[i] := plan];
      }
      assert homes[..|homes|] == homes;
    }

    /** The rows a bind brings together, and everything they owe. */
    method Gather(input: BindInput, homes: seq<nat>, stamp: Stamp, ghost start: BindPlan) returns (owed: Owed, ghost plan: BindPlan)
      requires AreWellFormed(Contents().tables) && Enumerates(homes, Homes(Contents(), input)) && start.homes == homes
      modifies this`rows, this`ops
      ensures plan == start.(resumes := plan.resumes, copy := plan.copy)
      ensures IsGathered(old(Contents()), input, plan, Moved(Contents().tables, owed))
      ensures AreWellFormed(Contents().tables)
    {
      hide CanMove, MoveRowsTo, AreWellFormed, Together, ValidResumes, ResumeAll, Homes, Waiting, Enumerates;
      var d := Contents();
      HomesAreElsewhere(d, input, homes);
      ghost var resumes;
      owed, resumes := ResumeHomes(input.connection, homes, stamp);
      plan := start.(resumes := resumes);
      owed := Together(owed, Waiting(d, input, Contents().tables));
      if !PileIsHeld(d) {
        var copied, copy := MoveRows(PileMove(d, input), stamp);
        owed := Together(owed, copied);
        plan := plan.(copy := copy);
      } else {
        NothingTogether(owed);
      }
    }

    /** `bindConnection` */
    method BindConnection(input: BindInput, stamp: Stamp, now: int) returns (bound: bool, ghost plan: BindPlan)
      requires AreWellFormed(Contents().tables)
      modifies this
      ensures bound == UnchangedSince(old(Contents()), input.since)
      ensures bound ==> ValidBind(old(Contents()), input, plan)
      ensures InOrder(ByNotebook(collation), plan.owes)
      ensures Contents() == Bind(old(Contents()), input, plan)
      ensures AreWellFormed(Contents().tables)
    {
      hide AreWellFormed, QueueAll, OwesOf, IsShowing, IsGathered, Homes, Enumerates, UnchangedSince, Bind, ValidBind;
      var d := Contents();
      plan := BindPlan([], map[], Plan([], [], [], map[], map[], [], map[], map[], stamp), [], Pile, now);
      bound := UnchangedSince(d, input.since);
      if !bound {
        SourceRuns.BindDoesNothing(d, input, plan);
        return;
      }
      var homes := Enumerate(Homes(d, input));
      var showing := Showing();
      var owed, gathering := Gather(input, homes, stamp, plan.(homes := homes, showing := showing));
      ghost var gathered := Contents().tables;
      var queued, owes := QueueOwed(ops, Connection(input.connection), RowsOf(Contents().tables, Connection(input.connection)), owed,
                                    collation);
      plan := gathering.(owes := owes);
      ops := queued;
      SameRows(gathered, Contents().tables);
      states := (d.states - Homes(d, input))[input.connection := WrittenState(d, input, showing, now, owed.linked)];
      active := Some(Connection(input.connection));
      bindings := d.bindings + 1;
      GatheredIsBound(d, input, gathering, gathered, owed, owes, Contents());
    }

    /** What `verifyResume` writes once it has asked, if it is still to be written. */
    method VerifyResumed(c: nat, asked: nat, found: bool) returns (verdict: Verdict, ghost owes: seq<Owe>)
      requires AreWellFormed(Contents().tables)
      modifies this
      ensures (Contents(), verdict) == Verify(old(Contents()), c, asked, found, owes)
      ensures InOrder(ByNotebook(collation), owes)
      ensures verdict == Copied ==> var cut := CutLoose(old(Contents()).tables, Connection(c));
                         Enumerates(owes, OwesOf(RowsOf(cut.tables, Connection(c)), cut.owed))
      ensures AreWellFormed(Contents().tables)
    {
      hide QueueAll, OwesOf, CutRows, AreWellFormed, Enumerates;
      ghost var d := Contents();
      owes := [];
      if bindings != asked || c !in states {
        verdict := Superseded;
        return;
      }
      verdict := if found then Resumed else Copied;
      if !found {
        var cut := CutLoose(Contents().tables, Connection(c));
        bindings := bindings + 1;
        var queued, owing := QueueOwed(cut.tables.ops, Connection(c), RowsOf(cut.tables, Connection(c)), cut.owed, collation);
        owes := owing;
        rows, ops := cut.tables.rows, queued;
      }
      states := states[c := states[c].(resumeUnverified := false)];
      CutKeepsSound(d, c, found, owes);
    }

    /** `keepOnly` */
    method Keep(source: Source, k: Keeping)
      requires AreWellFormed(Contents().tables)
      modifies this`rows, this`ops
      ensures Contents().tables == KeepOnly(old(Contents()).tables, source, k) && AreWellFormed(Contents().tables)
    {
      KeepOnlyKeepsSound(Contents().tables, source, k);
      hide KeptFiles, NeededFolders, AreWellFormed, OpStays, UnsyncedIn;
      var t := Contents().tables;
      var before, kept, needed := RowsOf(t, source), KeptFiles(t, source, k), NeededFolders(t, source, k);
      rows := rows[source := Rows(
        map id | id in before.notes && id in k.staying :: before.notes[id],
        map path | path in before.folders && FoldPath(path) in needed :: before.folders[path],
        map id | id in before.files && id in kept :: before.files[id],
        before.bytes - (before.files.Keys - kept))];
      ops := OpsStaying(t, source, k, t.ops);
    }

    /** `forgetRows` and `forgetSource` */
    method Forget(c: nat)
      requires AreWellFormed(Contents().tables)
      modifies this
      ensures Contents() == ForgetSource(old(Contents()).(tables := ForgetRows(old(Contents()).tables, Connection(c))), c)
      ensures AreWellFormed(Contents().tables)
    {
      KeepOnlyKeepsSound(Contents().tables, Connection(c), Keeping(UnsyncedIn(Contents().tables, Pile, false), {}, {}, (body, path) => {}));
      hide AreWellFormed, OpsNotOf, UnsyncedIn, KeepOnly;
      rows, ops := rows - {Connection(c)}, OpsNotOf(ops, Connection(c));
      states := states - {c};
      if active == Some(Connection(c)) {
        active := None;
      }
    }

    /** `detachConnection`: what is kept is kept first, and forgotten where nothing of it is unsent. */
    method DetachConnection(c: nat, reason: Reason, holding: set<Id>, since: Option<nat>, links: Links, now: int) returns (applied: bool)
      requires AreWellFormed(Contents().tables)
      modifies this
      ensures applied == UnchangedSince(old(Contents()), since)
      ensures Contents() == Detach(old(Contents()), c, reason, holding, since, links, now)
      ensures AreWellFormed(Contents().tables)
    {
      hide AreWellFormed, OpsNotOf, UnsyncedIn, KeepOnly, HeldIn, ForgetRows;
      applied := UnchangedSince(Contents(), since);
      if !applied || c !in states { return; }
      ghost var d := Contents();
      bindings := bindings + 1;
      var unsent := UnsyncedIn(Contents().tables, Connection(c), states[c].resumeUnverified);
      var heldOnly := HeldIn(Contents().tables, Connection(c), holding) - Listed(unsent);
      ghost var k := Keeping(unsent, Listed(unsent) + heldOnly, unsent.files, links);
      Keep(Connection(c), Keeping(unsent, Listed(unsent) + heldOnly, unsent.files, links));
      if IsEmpty(unsent) && heldOnly == {} {
        ForgottenAnyway(d.tables, Connection(c), k);
        Forget(c);
      } else {
        states := states[c := DetachedFrom(states[c], reason, now)];
      }
    }

    /** The source kept around what nobody was shown, or an editor holds. */
    method KeepAround(c: nat, seen: Seen, holding: set<Id>, links: Links, now: int) returns (held: set<Id>)
      requires c in states && AreWellFormed(Contents().tables)
      modifies this
      ensures Contents() == KeepUnseen(old(Contents()), c, seen, holding, links, now).device
      ensures held == HeldIn(old(Contents()).tables, Connection(c), holding) && AreWellFormed(Contents().tables)
    {
      hide AreWellFormed, UnsyncedIn, KeepOnly, HeldIn, UnseenNotes;
      var t := Contents().tables;
      var unsent := UnsyncedIn(t, Connection(c), states[c].resumeUnverified);
      held := HeldIn(t, Connection(c), holding);
      Keep(Connection(c), Keeping(unsent, UnseenNotes(t, Connection(c), unsent, seen) + held, unsent.files - seen.files, links));
      states := states[c := DetachedFrom(states[c], Disconnected, now)];
    }

    /** `releaseConnection` */
    method ReleaseConnection(c: nat, seen: Seen, holding: set<Id>, links: Links, now: int) returns (outcome: Outcome)
      requires AreWellFormed(Contents().tables)
      modifies this
      ensures Answer(Contents(), outcome) == Release(old(Contents()), c, seen, holding, links, now)
      ensures AreWellFormed(Contents().tables)
    {
      hide AreWellFormed, UnsyncedIn, KeepOnly, HeldIn, UnseenNotes, UnseenIn, ForgetRows;
      if c !in states { return Released; }
      if IsLiveSource(states[c]) { return Reconnected; }
      bindings := bindings + 1;
      var t := Contents().tables;
      var unsent := UnsyncedIn(t, Connection(c), states[c].resumeUnverified);
      if UnseenIn(t, Connection(c), unsent, seen) || HeldIn(t, Connection(c), holding) != {} {
        var held := KeepAround(c, seen, holding, links, now);
        return if held != {} then Holding else StaysDetached;
      }
      Forget(c);
      return Released;
    }

    /** A move, and what it owes queued. */
    method MoveAndQueue(m: Move, stamp: Stamp) returns (ghost plan: Plan, ghost owes: seq<Owe>)
      requires m.from != m.target && AreWellFormed(Contents().tables)
      modifies this`rows, this`ops
      ensures CanMove(old(Contents()).tables, m, plan) && InOrder(ByNotebook(collation), owes)
      ensures var moved := MoveRowsTo(old(Contents()).tables, m, plan);
              && Enumerates(owes, OwesOf(RowsOf(moved.tables, m.target), moved.owed))
              && Contents() == old(Contents()).(tables := moved.tables.(ops := QueueAll(moved.tables.ops, m.target, owes)))
      ensures AreWellFormed(Contents().tables)
    {
      hide AreWellFormed, CanMove, MoveRowsTo, OwesOf, QueueAll, Enumerates;
      var owed, landing := MoveRows(m, stamp);
      var queued, owing := QueueOwed(ops, m.target, RowsOf(Contents().tables, m.target), owed, collation);
      plan, owes := landing, owing;
      ghost var moved := Contents().tables;
      ops := queued;
      SameRows(moved, Contents().tables);
    }

    /** `moveUnsyncedTo` */
    method MoveUnsynced(input: MoveInput, stamp: Stamp) returns (outcome: Outcome, ghost plan: Plan, ghost owes: seq<Owe>)
      requires AreWellFormed(Contents().tables)
      modifies this
      ensures Refusal(old(Contents()), input).None? ==> ValidMove(old(Contents()), input, plan, owes)
      ensures InOrder(ByNotebook(collation), owes)
      ensures Answer(Contents(), outcome) == MoveUnsyncedTo(old(Contents()), input, plan, owes)
      ensures AreWellFormed(Contents().tables)
    {
      hide AreWellFormed, UnsyncedIn, HeldIn, UnseenIn, ForgetRows, UnsentMove, Refusal, CanMove, MoveRowsTo, OwesOf, QueueAll,
        Enumerates, KeepUnseen;
      var d := Contents();
      var source := Connection(input.from);
      plan, owes := Plan([], [], [], map[], map[], [], map[], map[], stamp), [];
      var refusal := Refusal(d, input);
      if refusal.Some? { return refusal.value, plan, owes; }
      SourceRuns.NotRefused(d, input);
      SourceRuns.UnsentMoveGoes(d, input);
      var unseen := UnseenIn(d.tables, source, MovingUnsent(d, input), input.seen);
      var held := HeldIn(d.tables, source, input.holding);
      bindings := bindings + 1;
      plan, owes := MoveAndQueue(UnsentMove(d, input), stamp);
      if !unseen && held == {} {
        Forget(input.from);
        outcome := Released;
      } else {
        var after := KeepAround(input.from, input.seen, input.holding, input.links, input.now);
        outcome := if held != {} then Holding else StaysDetached;
      }
    }

    /** `finishImport` */
    method Finish(c: nat, links: Links, stamp: Stamp) returns (ghost plan: Plan, ghost owes: seq<Owe>)
      requires AreWellFormed(Contents().tables)
      modifies this
      ensures CanFinish(old(Contents()), c) ==> ValidFinish(old(Contents()), c, links, plan, owes)
      ensures InOrder(ByNotebook(collation), owes)
      ensures Contents() == FinishImport(old(Contents()), c, links, plan, owes)
      ensures AreWellFormed(Contents().tables)
    {
      hide AreWellFormed, CanMove, MoveRowsTo, OwesOf, QueueAll, LinkedRows, LateNotes, OpsNotOf;
      plan, owes := Plan([], [], [], map[], map[], [], map[], map[], stamp), [];
      var d := Contents();
      if !CanFinish(d, c) { return; }
      if LateNotes(d, c) != {} {
        plan, owes := MoveAndQueue(LateMove(d, c, links), stamp);
      }
      KeepOnlyKeepsSound(Contents().tables, Pile, Keeping(UnsyncedIn(Contents().tables, Pile, false), {}, {}, links));
      rows, ops := rows - {Pile}, OpsNotOf(ops, Pile);
      states := states[c := states[c].(importing := None)];
    }

    /** `abandonImport` */
    method Abandon(c: nat) returns (outcome: Abandoned)
      requires AreWellFormed(Contents().tables)
      modifies this
      ensures (Contents(), outcome) == AbandonImport(old(Contents()), c)
      ensures AreWellFormed(Contents().tables)
    {
      hide AreWellFormed, WrittenSince, ForgetRows;
      if c !in states || states[c].importing.None? { return Imported; }
      var importing := states[c].importing.value;
      if !importing.lock && WrittenSince(Contents().tables, Connection(c)) { return Written; }
      bindings := bindings + 1;
      Forget(c);
      active := Some(importing.returnTo);
      return Abandoned;
    }
  }

  /** What would have been kept is forgotten just the same. */
  lemma {:induction false} ForgottenOpsAnyway(t: Tables, source: Source, k: Keeping, ops: seq<Op>)
    ensures OpsNotOf(OpsStaying(t, source, k, ops), source) == OpsNotOf(ops, source)
  {
    hide OpStays;
    if ops != [] {
      ForgottenOpsAnyway(t, source, k, ops[1..]);
      SourceRuns.OtherOpStays(t, source, k, ops[0]);
      var rest := OpsStaying(t, source, k, ops[1..]);
      if OpStays(t, source, k, ops[0]) {
        assert OpsStaying(t, source, k, ops) == [ops[0]] + rest;
        assert ([ops[0]] + rest)[0] == ops[0] && ([ops[0]] + rest)[1..] == rest;
      } else {
        assert OpsStaying(t, source, k, ops) == [] + rest == rest;
      }
    }
  }

  lemma ForgottenAnyway(t: Tables, source: Source, k: Keeping)
    ensures ForgetRows(KeepOnly(t, source, k), source) == ForgetRows(t, source)
  {
    hide OpsStaying, OpsNotOf, KeptFiles, NeededFolders;
    ForgottenOpsAnyway(t, source, k, t.ops);
    assert KeepOnly(t, source, k).rows - {source} == t.rows - {source};
  }

  /** What a plan gathers, before anything is queued. */
  ghost predicate IsGathered(d: Device, input: BindInput, p: BindPlan, gathered: Moved) {
    && ValidResumes(d.tables, input.connection, p.homes, p.resumes)
    && (!PileIsHeld(d) ==> CanMove(ResumeAll(d.tables, input.connection, p.homes, p.resumes).tables, PileMove(d, input), p.copy))
    && Gathered(d, input, p) == gathered
  }

  /** Gathered, queued and written down, it is bound. */
  lemma GatheredIsBound(d: Device, input: BindInput, gathering: BindPlan, t: Tables, owed: Owed, owes: seq<Owe>, after: Device)
    requires UnchangedSince(d, input.since) && Enumerates(gathering.homes, Homes(d, input)) && IsShowing(d, gathering.showing)
    requires IsGathered(d, input, gathering, Moved(t, owed))
    requires Enumerates(owes, OwesOf(RowsOf(t, Connection(input.connection)), owed))
    requires after.tables == t.(ops := QueueAll(t.ops, Connection(input.connection), owes))
    requires after.states
             == (d.states - Homes(d, input))[
                  input.connection := WrittenState(d, input, gathering.showing, gathering.now, owed.linked)]
    requires after.active == Some(Connection(input.connection)) && after.bindings == d.bindings + 1
    ensures ValidBind(d, input, gathering.(owes := owes)) && after == Bind(d, input, gathering.(owes := owes))
  {
    hide CanMove, MoveRowsTo, ResumeAll, ValidResumes, QueueAll, OwesOf, Enumerates, IsShowing, Homes, PileIsHeld;
    var p := gathering.(owes := owes);
    assert Gathered(d, input, p) == Gathered(d, input, gathering);
  }

  lemma HomesAreElsewhere(d: Device, input: BindInput, homes: seq<nat>)
    requires Enumerates(homes, Homes(d, input))
    ensures input.connection !in homes && forall i, j :: 0 <= i < j < |homes| ==> homes[i] != homes[j]
  {
    assert input.connection !in Homes(d, input);
  }

  lemma NothingTogether(owed: Owed)
    ensures Together(owed, NOTHING_OWED) == owed && Together(NOTHING_OWED, owed) == owed
  {}

  lemma TogetherAssociates(a: Owed, b: Owed, c: Owed)
    ensures Together(Together(a, b), c) == Together(a, Together(b, c))
  {}

  /** The source's row as a bind writes it: `BoundState`, of a plan that says only what was shown and when. */
  function WrittenState(d: Device, input: BindInput, showing: Source, now: int, linked: bool): State {
    BoundState(d, input, BindPlan([], map[], Plan([], [], [], map[], map[], [], map[], map[], ""), [], showing, now), linked)
  }

  /** One more source resumed, behind the others. */
  lemma {:induction false} ResumeOneMore(t: Tables, target: nat, homes: seq<nat>, plans: map<nat, Plan>, h: nat, p: Plan)
    requires ValidResumes(t, target, homes, plans) && h !in homes
    requires CanMove(ResumeAll(t, target, homes, plans).tables, Homeward(h, target), p)
    ensures ValidResumes(t, target, homes + [h], plans[h := p])
    ensures var done := ResumeAll(t, target, homes, plans);
            var next := MoveRowsTo(done.tables, Homeward(h, target), p);
            ResumeAll(t, target, homes + [h], plans[h := p]) == Moved(next.tables, Together(done.owed, next.owed))
    decreases |homes|
  {
    hide ValidPlan, WellFormed, MoveRowsTo, Together;
    var more := plans[h := p];
    if homes == [] {
      assert [] + [h] == [h] && [h][1..] == [];
      NothingTogether(MoveRowsTo(t, Homeward(h, target), p).owed);
    } else {
      var first := MoveRowsTo(t, Homeward(homes[0], target), plans[homes[0]]);
      assert (homes + [h])[0] == homes[0] && (homes + [h])[1..] == homes[1..] + [h];
      ResumeOneMore(first.tables, target, homes[1..], plans, h, p);
      var rest := ResumeAll(first.tables, target, homes[1..], plans);
      TogetherAssociates(first.owed, rest.owed, MoveRowsTo(rest.tables, Homeward(h, target), p).owed);
    }
  }

  /** Everything a move leaves to chance, chosen. */
  method PlanMove(t: Tables, m: Move, stamp: Stamp) returns (plan: Plan)
    requires m.from != m.target && WellFormed(RowsOf(t, m.from)) && WellFormed(RowsOf(t, m.target))
    ensures CanMove(t, m, plan)
  {
    hide WellFormed, ValidMoving, ValidCarrying, AtTells, Enumerates, FoldersTaken, Paths.PathDepth;
    var leaving, theirs := RowsOf(t, m.from), RowsOf(t, m.target);
    var spelled := Enumerate(theirs.folders.Keys);
    var folders := OutermostFirst(FoldersTaken(m, leaving));
    var notes := Enumerate(leaving.notes.Keys);
    var files := Enumerate(FilesTaken(m, leaving));
    var twins := FindTwins(theirs.notes);
    var at := FilesByPath(theirs.files);
    plan := Plan(spelled, folders, notes, twins, map[], files, at, map[], stamp);
    var noteIds := ChooseNoteIds(MovingOf(t, m, plan));
    var fileIds := ChooseFileIds(CarryingOf(t, m, plan));
    plan := plan.(noteIds := noteIds, fileIds := fileIds);
    PlanHolds(t, m, plan, MovingOf(t, m, plan), CarryingOf(t, m, plan));
  }

  /** The move itself: notebooks, then notes, then files, then the queue. */
  method CarryOut(t: Tables, m: Move, p: Plan) returns (moved: Moved)
    requires CanMove(t, m, p)
    ensures moved == MoveRowsTo(t, m, p)
  {
    hide ValidPlan, WellFormed, MoveRowsTo, Shelve, Place, Carry, CarryOps, IsLinked, YieldedBy, SpellingsFrom,
      MovingOf, CarryingOf;
    var leaving, theirs := RowsOf(t, m.from), RowsOf(t, m.target);
    var table := new SpellingTable(SpellingsFrom(p.spelled));
    var folders, foldersOwed := ShelvePart(t, m, p, table);
    var notes, placed, notesOwed := PlacePart(t, m, p, table);
    var files, bytes, filed, filesOwed := CarryPart(t, m, p, table);
    var asTheyWere := map id | id in filed && filed[id] !in filesOwed :: filed[id];
    var arrived := Rows(notes, folders, files, bytes);
    var carried := CarryQueue(Whereto(m, p.noteIds, notesOwed, YieldedBy(MovingOf(t, m, p)), asTheyWere), t.ops);
    moved := Moved(Tables(t.rows[m.from := Left(m, leaving)][m.target := arrived], carried),
                   Owed(notesOwed, foldersOwed, filesOwed, IsLinked(theirs, arrived)));
    PartsMakeTheMove(t, m, p, folders, foldersOwed, notes, placed, notesOwed, files, bytes, filed, filesOwed);
  }

  method ShelvePart(t: Tables, m: Move, p: Plan, table: SpellingTable)
    returns (folders: map<string, Folder>, owed: set<string>)
    requires CanMove(t, m, p) && table.table == SpellingsFrom(p.spelled)
    modifies table
    ensures forall path :: path in p.folders ==> path in RowsOf(t, m.from).folders
    ensures Shelve(t, m, p) == Shelves(folders, table.table, owed)
  {
    ShelvedIsFaithful(t, m, p);
    hide ValidPlan, WellFormed, PlaceFolders, SpellingsFrom;
    folders, owed := ShelveFolders(m.mode, table, RowsOf(t, m.target).folders, RowsOf(t, m.from).folders, p.folders);
  }

  method PlacePart(t: Tables, m: Move, p: Plan, table: SpellingTable)
    returns (notes: map<Id, Note>, placed: map<Id, Id>, owed: set<Id>)
    requires CanMove(t, m, p)
    requires forall path :: path in p.folders ==> path in RowsOf(t, m.from).folders
    requires table.table == Shelve(t, m, p).spellings
    modifies table
    ensures Place(t, m, p) == Landed(notes, table.table, placed, owed)
  {
    ShelvedIsFaithful(t, m, p);
    PlanIsValid(t, m, p);
    hide ValidMoving, ValidCarrying, AtTells, Enumerates, WellFormed, Shelve, PlaceNotes, ValidPlan, Faithful;
    notes, placed, owed := PlaceAll(MovingOf(t, m, p), table, p.notes);
  }

  method CarryPart(t: Tables, m: Move, p: Plan, table: SpellingTable)
    returns (files: map<Id, File>, bytes: map<Id, Held>, filed: map<Id, Id>, owed: set<Id>)
    requires CanMove(t, m, p) && table.table == Place(t, m, p).spellings
    modifies table
    ensures var g := Carry(t, m, p); g.files == files && g.bytes == bytes && g.placed == filed && g.owed == owed
  {
    PlanIsValid(t, m, p);
    CarriedAreThere(CarryingOf(t, m, p), p.files);
    hide ValidMoving, ValidCarrying, AtTells, Enumerates, WellFormed, Place, PlaceFiles, ValidPlan;
    files, bytes, filed, owed := FileAll(CarryingOf(t, m, p), table, RowsOf(t, m.target).bytes, p.at, p.files);
  }

  lemma PlanHolds(t: Tables, m: Move, p: Plan, c: Moving, f: Carrying)
    requires m.from != m.target && WellFormed(RowsOf(t, m.from)) && WellFormed(RowsOf(t, m.target))
    requires c == MovingOf(t, m, p) && ValidMoving(c) && f == CarryingOf(t, m, p) && ValidCarrying(f)
    requires Enumerates(p.spelled, RowsOf(t, m.target).folders.Keys)
    requires Enumerates(p.folders, FoldersTaken(m, RowsOf(t, m.from)))
    requires forall i, j :: 0 <= i < j < |p.folders| ==> Paths.PathDepth(p.folders[i]) <= Paths.PathDepth(p.folders[j])
    requires Enumerates(p.notes, RowsOf(t, m.from).notes.Keys)
    requires Enumerates(p.files, FilesTaken(m, RowsOf(t, m.from)))
    requires AtTells(RowsOf(t, m.target).files, p.at)
    ensures CanMove(t, m, p)
  {
    hide ValidMoving, ValidCarrying, AtTells, Enumerates, WellFormed, MovingOf, CarryingOf;
  }

  lemma ShelvedIsFaithful(t: Tables, m: Move, p: Plan)
    requires CanMove(t, m, p)
    ensures forall path :: path in p.folders ==> path in RowsOf(t, m.from).folders
    ensures Faithful(Shelve(t, m, p).spellings)
  {
    hide ValidPlan, WellFormed, Faithful;
    FoldersAreShelved(t, m, p);
  }

  lemma CarriedAreThere(f: Carrying, order: seq<Id>)
    requires ValidCarrying(f) && Enumerates(order, f.files.Keys)
    ensures forall id :: id in order ==> id in f.files && id in f.landing
  {
    assert forall id :: id in order ==> id in f.files.Keys;
  }

  /** The parts of a move, each as it should be, are the move. */
  lemma PartsMakeTheMove(
      t: Tables, m: Move, p: Plan, folders: map<string, Folder>, foldersOwed: set<string>,
      notes: map<Id, Note>, placed: map<Id, Id>, notesOwed: set<Id>,
      files: map<Id, File>, bytes: map<Id, Held>, filed: map<Id, Id>, filesOwed: set<Id>)
    requires CanMove(t, m, p)
    requires forall path :: path in p.folders ==> path in RowsOf(t, m.from).folders
    requires Shelve(t, m, p).folders == folders && Shelve(t, m, p).owed == foldersOwed
    requires Place(t, m, p).notes == notes && Place(t, m, p).placed == placed && Place(t, m, p).owed == notesOwed
    requires var g := Carry(t, m, p); g.files == files && g.bytes == bytes && g.placed == filed && g.owed == filesOwed
    ensures var arrived := Rows(notes, folders, files, bytes);
            MoveRowsTo(t, m, p) == Moved(
              Tables(t.rows[m.from := Left(m, RowsOf(t, m.from))][m.target := arrived],
                     CarryOps(Whereto(m, p.noteIds, notesOwed, YieldedBy(MovingOf(t, m, p)),
                                      map id | id in filed && filed[id] !in filesOwed :: filed[id]), t.ops)),
              Owed(notesOwed, foldersOwed, filesOwed, IsLinked(RowsOf(t, m.target), arrived)))
  {
    hide ValidPlan, WellFormed, Shelve, Place, Carry, CarryOps, IsLinked, YieldedBy;
  }
}
