/**
  The first import of a source: a bind that copies the device's own pile and keeps it,
  a cancel that puts everything back, and a finish that lets the pile go
  (`bindConnection`, `abandonImport` and `finishImport` in apps/web/src/store/connection.ts).
 */
module Imports {
  import opened Options
  import opened Paths
  import opened Naming
  import opened Library
  import opened MoveNotes
  import opened MoveSpellings
  import opened MoveFiles
  import opened MoveRows
  import opened MoveKeeps
  import opened MoveQueue
  import opened Unsynced
  import opened Sources
  import opened SourceRuns

  // ----- Cancelling --------------------------------------------------------------------

  /** Two devices that differ in nothing but what one source holds and has learnt. */
  ghost predicate DiffersOnlyIn(d: Device, e: Device, c: nat) {
    && (forall source :: source != Connection(c) ==> IsUntouched(d.tables, e.tables, source))
    && d.states - {c} == e.states - {c}
  }

  lemma {:induction false} ForgottenOps(ops: seq<Op>, source: Source)
    ensures OpsOf(OpsNotOf(ops, source), source) == []
  {
    OpsOfNothing(source);
    if ops != [] {
      ForgottenOps(ops[1..], source);
      var head := if ops[0].source == source then [] else [ops[0]];
      OpsOfConcat(head, OpsNotOf(ops[1..], source), source);
      OpsOfOne(ops[0], source);
    }
  }

  lemma ForgottenRows(t: Tables, source: Source)
    ensures RowsOf(ForgetRows(t, source), source) == NO_ROWS && OpsOf(ForgetRows(t, source).ops, source) == []
    ensures forall other :: other != source ==> IsUntouched(t, ForgetRows(t, source), other)
  {
    hide OpsOf, OpsNotOf;
    ForgottenOps(t.ops, source);
    forall other | other != source
      ensures IsUntouched(t, ForgetRows(t, source), other)
    {
      ForgettingTouches(t.ops, source, other);
    }
  }

  lemma FirstBindUnfolds(d: Device, input: BindInput, plan: BindPlan)
    requires UnchangedSince(d, input.since) && ValidBind(d, input, plan) && IsFirstBinding(d, input)
    ensures plan.homes == []
    ensures var bound := Bind(d, input, plan);
            && bound.states == d.states[input.connection := bound.states[input.connection]]
            && bound.states[input.connection].importing == Some(Importing(true, plan.showing))
            && bound.states[input.connection].boundAt == Some(plan.now)
            && IsLiveSource(bound.states[input.connection])
            && (forall source :: source != Connection(input.connection) ==> IsUntouched(d.tables, bound.tables, source))
  {
    hide CanMove, MoveRowsTo, ResumeAll, QueueAll, PileIsHeld, OpsOf, IsUntouched;
    NothingEnumerated(plan.homes, Homes(d, input));
    assert d.states - {} == d.states;
    forall source | source != Connection(input.connection)
      ensures IsUntouched(d.tables, Bind(d, input, plan).tables, source)
    {
      BindTouches(d, input, plan, source);
    }
  }

  /**
    A first bind cancelled: whatever the import brought into the source meanwhile, every
    other source, the device's own pile and its queue among them, is as it was before
    the bind, the source is gone, and what was in front is in front.
   */
  lemma AbandonUndoesBind(d: Device, input: BindInput, plan: BindPlan, e: Device)
    requires UnchangedSince(d, input.since) && ValidBind(d, input, plan) && IsFirstBinding(d, input)
    requires DiffersOnlyIn(Bind(d, input, plan), e, input.connection)
    requires input.connection in e.states
    requires e.states[input.connection].importing == Bind(d, input, plan).states[input.connection].importing
    ensures var (after, outcome) := AbandonImport(e, input.connection);
            && outcome == Abandoned
            && after.states == d.states
            && after.active == Some(plan.showing)
            && RowsOf(after.tables, Connection(input.connection)) == NO_ROWS
            && OpsOf(after.tables.ops, Connection(input.connection)) == []
            && forall source :: source != Connection(input.connection) ==> IsUntouched(d.tables, after.tables, source)
  {
    hide ValidBind, Bind, OpsOf, OpsNotOf, WrittenSince, ForgetRows, RowsOf;
    FirstBindUnfolds(d, input, plan);
    ForgottenRows(e.tables, Connection(input.connection));
    assert d.states - {input.connection} == d.states;
    assert Bind(d, input, plan).states - {input.connection} == d.states;
    var after := AbandonImport(e, input.connection).0;
    assert after.tables == ForgetRows(e.tables, Connection(input.connection));
    forall source | source != Connection(input.connection)
      ensures IsUntouched(d.tables, after.tables, source)
    {
      assert IsUntouched(d.tables, Bind(d, input, plan).tables, source);
      assert IsUntouched(Bind(d, input, plan).tables, e.tables, source);
      assert IsUntouched(e.tables, after.tables, source);
    }
  }

  // ----- Finishing ---------------------------------------------------------------------

  /** A source has this text in a note that is there. */
  ghost predicate HasText(t: Tables, source: Source, body: string) {
    exists id :: id in RowsOf(t, source).notes && IsLive(RowsOf(t, source).notes[id]) && RowsOf(t, source).notes[id].body == body
  }

  /** A first bind has copied every note of the pile that is there, as itself, owed a write. */
  lemma BindCopiesPile(d: Device, input: BindInput, plan: BindPlan, id: Id)
    requires UnchangedSince(d, input.since) && ValidBind(d, input, plan) && IsFirstBinding(d, input) && !PileIsHeld(d)
    requires id in RowsOf(d.tables, Pile).notes && IsLive(RowsOf(d.tables, Pile).notes[id])
    ensures var bound := RowsOf(Bind(d, input, plan).tables, Connection(input.connection));
            && id in plan.copy.noteIds
            && IsCarried(RowsOf(d.tables, Connection(input.connection)), bound, RowsOf(d.tables, Pile).notes[id], plan.copy.noteIds[id])
            && bound.notes[plan.copy.noteIds[id]].dirty
    ensures HasText(Bind(d, input, plan).tables, Connection(input.connection), RowsOf(d.tables, Pile).notes[id].body)
  {
    hide ValidPlan, WellFormed, MoveRowsTo, QueueAll, OpsOf, PileIsHeld, IsUntouched, Arrived, BoundState;
    FirstBindUnfolds(d, input, plan);
    var m := PileMove(d, input);
    assert ResumeAll(d.tables, input.connection, plan.homes, plan.resumes).tables == d.tables;
    assert Goes(MovingOf(d.tables, m, plan.copy), id);
    MoveUnfolds(d.tables, m, plan.copy);
    NoteArrives(d.tables, m, plan.copy, id);
  }

  /** Every row of the target a move added came from a note it was about. */
  lemma ArrivedFrom(t: Tables, m: Move, p: Plan, k: Id) returns (id: Id)
    requires CanMove(t, m, p) && k in Arrived(t, m, p).notes && k !in RowsOf(t, m.target).notes
    ensures id in NotesTaken(m, RowsOf(t, m.from)) && id in RowsOf(t, m.from).notes
    ensures Arrived(t, m, p).notes[k].body == RowsOf(t, m.from).notes[id].body
    ensures Arrived(t, m, p).notes[k].deleted == RowsOf(t, m.from).notes[id].deleted
  {
    NotesArePlaced(t, m, p);
    hide ValidPlan, Place, Shelve, Carry, PlacedInNotebooks, SpellingsGrow, Faithful, WellFormed, LandsRight, FoldPath,
      ParentPath, ValidMoving, OwedAt;
    var c, g := MovingOf(t, m, p), Place(t, m, p);
    assert k in g.notes.Keys;
    assert k in g.placed.Values;
    id :| id in g.placed && g.placed[id] == k;
    assert PlacedRight(c, g, id);
  }

  /** The late notes' text, in the pile as it stands. */
  ghost predicate IsLateText(e: Device, c: nat, body: string)
    requires c in e.states
  {
    exists id :: id in LateNotes(e, c) && id in RowsOf(e.tables, Pile).notes && RowsOf(e.tables, Pile).notes[id].body == body
  }

  /** The tables as the late notes have gone in, the pile still there. */
  function LateTables(e: Device, c: nat, links: Links, p: Plan, owes: seq<Owe>): Tables
    requires CanFinish(e, c) && ValidFinish(e, c, links, p, owes)
  {
    if LateNotes(e, c) == {} then e.tables
    else
      var moved := MoveRowsTo(e.tables, LateMove(e, c, links), p);
      moved.tables.(ops := QueueAll(moved.tables.ops, Connection(c), owes))
  }

  lemma FinishUnfolds(e: Device, c: nat, links: Links, p: Plan, owes: seq<Owe>)
    requires CanFinish(e, c) && ValidFinish(e, c, links, p, owes)
    ensures var after := FinishImport(e, c, links, p, owes);
            && after.tables == ForgetRows(LateTables(e, c, links, p, owes), Pile)
            && after.states == e.states[c := e.states[c].(importing := None)]
            && after.active == e.active && after.bindings == e.bindings
  {
    hide CanMove, MoveRowsTo, QueueAll, ForgetRows;
  }

  /** A text of the source is one it had, or a late one. */
  lemma LateTextsOnly(e: Device, c: nat, links: Links, p: Plan, owes: seq<Owe>, body: string)
    requires CanFinish(e, c) && ValidFinish(e, c, links, p, owes)
    ensures HasText(LateTables(e, c, links, p, owes), Connection(c), body)
            <==> HasText(e.tables, Connection(c), body) || IsLateText(e, c, body)
  {
    hide ValidPlan, WellFormed, MoveRowsTo, QueueAll, LinkedRows, Arrived, Goes;
    if LateNotes(e, c) != {} {
      var m, t := LateMove(e, c, links), e.tables;
      var u := LateTables(e, c, links, p, owes);
      MoveUnfolds(t, m, p);
      TargetStands(t, m, p);
      assert RowsOf(u, Connection(c)) == Arrived(t, m, p);
      if HasText(u, Connection(c), body) {
        var k :| k in Arrived(t, m, p).notes && IsLive(Arrived(t, m, p).notes[k]) && Arrived(t, m, p).notes[k].body == body;
        if k !in RowsOf(t, Connection(c)).notes {
          var id := ArrivedFrom(t, m, p, k);
          assert id in LateNotes(e, c);
        }
      }
      if IsLateText(e, c, body) {
        var id :| id in LateNotes(e, c) && id in RowsOf(t, Pile).notes && RowsOf(t, Pile).notes[id].body == body;
        LateGoes(e, c, links, p, id);
        NoteArrives(t, m, p, id);
      }
      if HasText(t, Connection(c), body) {
        var rows := RowsOf(t, Connection(c));
        var id :| id in rows.notes && IsLive(rows.notes[id]) && rows.notes[id].body == body;
        assert Arrived(t, m, p).notes[id] == RowsOf(t, Connection(c)).notes[id];
      }
    }
  }

  lemma LateGoes(e: Device, c: nat, links: Links, p: Plan, id: Id)
    requires c in e.states && id in LateNotes(e, c)
    ensures Goes(MovingOf(e.tables, LateMove(e, c, links), p), id)
  {
    hide LinkedRows;
  }

  /**
    An import finished: the pile is empty, nothing is queued for it, and the source holds
    exactly the text it held and that of the late notes. So a note of the pile is not
    lost exactly when it was written in since the bind, or its text was in the source.
   */
  lemma FinishKeepsTextIff(e: Device, c: nat, links: Links, p: Plan, owes: seq<Owe>)
    requires CanFinish(e, c) && ValidFinish(e, c, links, p, owes)
    ensures var after := FinishImport(e, c, links, p, owes);
            && RowsOf(after.tables, Pile) == NO_ROWS && OpsOf(after.tables.ops, Pile) == []
            && c in after.states && after.states[c].importing.None?
            && forall body :: HasText(after.tables, Connection(c), body)
                              <==> HasText(e.tables, Connection(c), body) || IsLateText(e, c, body)
  {
    hide CanMove, ValidFinish, MoveRowsTo, QueueAll, ForgetRows, OpsOf, LateTables, IsLateText;
    FinishUnfolds(e, c, links, p, owes);
    var late := LateTables(e, c, links, p, owes);
    ForgottenRows(late, Pile);
    forall body
      ensures HasText(ForgetRows(late, Pile), Connection(c), body)
              <==> HasText(e.tables, Connection(c), body) || IsLateText(e, c, body)
    {
      assert IsUntouched(late, ForgetRows(late, Pile), Connection(c));
      SameText(late, ForgetRows(late, Pile), Connection(c), body);
      LateTextsOnly(e, c, links, p, owes, body);
    }
  }

  lemma SameText(t: Tables, u: Tables, source: Source, body: string)
    requires RowsOf(u, source) == RowsOf(t, source)
    ensures HasText(u, source, body) <==> HasText(t, source, body)
  {}

  /** The pile as it is written in while an import holds it: every note as it was, or stamped since. */
  ghost predicate WrittenOnlySince(was: map<Id, Note>, now: map<Id, Note>, since: int) {
    forall id :: id in now && IsLive(now[id]) ==>
      now[id].updatedAt > since || (id in was && IsLive(was[id]) && was[id].body == now[id].body)
  }

  /** Whatever text the pile had at the bind and the bind left in the source, the import has left there too. */
  ghost predicate ImportKeepsPile(d: Device, bound: Device, e: Device, c: nat) {
    forall id :: id in RowsOf(d.tables, Pile).notes && IsLive(RowsOf(d.tables, Pile).notes[id]) ==>
      (HasText(bound.tables, Connection(c), RowsOf(d.tables, Pile).notes[id].body) ==>
         HasText(e.tables, Connection(c), RowsOf(d.tables, Pile).notes[id].body))
  }

  /**
    A first bind, an import that fills the source while the pile is written in, and a
    finish: the pile is empty and every text that was there is in the source.
   */
  lemma BindThenFinish(d: Device, input: BindInput, plan: BindPlan, e: Device, links: Links, p: Plan, owes: seq<Owe>, id: Id)
    requires UnchangedSince(d, input.since) && ValidBind(d, input, plan) && IsFirstBinding(d, input) && !PileIsHeld(d)
    requires e.states == Bind(d, input, plan).states
    requires ImportKeepsPile(d, Bind(d, input, plan), e, input.connection)
    requires WrittenOnlySince(RowsOf(d.tables, Pile).notes, RowsOf(e.tables, Pile).notes, plan.now)
    requires CanFinish(e, input.connection) ==> ValidFinish(e, input.connection, links, p, owes)
    requires id in RowsOf(e.tables, Pile).notes && IsLive(RowsOf(e.tables, Pile).notes[id])
    ensures var after := FinishImport(e, input.connection, links, p, owes);
            && RowsOf(after.tables, Pile) == NO_ROWS
            && HasText(after.tables, Connection(input.connection), RowsOf(e.tables, Pile).notes[id].body)
  {
    hide ValidBind, Bind, ValidFinish, FinishImport, IsFirstBinding, PileIsHeld, IsUntouched;
    var c := input.connection;
    FirstBindUnfolds(d, input, plan);
    assert CanFinish(e, c);
    FinishKeepsTextIff(e, c, links, p, owes);
    var note := RowsOf(e.tables, Pile).notes[id];
    if note.updatedAt > plan.now {
      assert id in LateNotes(e, c);
      assert IsLateText(e, c, note.body);
    } else {
      BindCopiesPile(d, input, plan, id);
    }
  }

  /** A device with nothing on it. */
  const NEW_DEVICE := Device(Tables(map[], []), map[], None, 0)

  /** Its first source, bound at the moment 5. */
  const FIRST := BindInput(1, "drive", None, None)

  function NothingPlanned(stamp: Stamp): Plan {
    Plan([], [], [], map[], map[], [], map[], map[], stamp)
  }

  function FirstPlan(stamp: Stamp): BindPlan {
    BindPlan([], map[], NothingPlanned(stamp), [], Pile, 5)
  }

  lemma FirstIsValid(stamp: Stamp)
    ensures ValidBind(NEW_DEVICE, FIRST, FirstPlan(stamp)) && UnchangedSince(NEW_DEVICE, FIRST.since)
    ensures var bound := Bind(NEW_DEVICE, FIRST, FirstPlan(stamp));
            && bound.tables.ops == [] && (forall source :: RowsOf(bound.tables, source) == NO_ROWS)
            && bound.states == map[1 := State(Some("drive"), None, false, None, Some(5), Some(Importing(true, Pile)))]
            && bound.active == Some(Connection(1))
  {
    var d, t := NEW_DEVICE, NEW_DEVICE.tables;
    var m := PileMove(d, FIRST);
    assert Homes(d, FIRST) == {} && !PileIsHeld(d);
    NothingIsPlanned(t, m, stamp);
    NothingMoves(t, m, NothingPlanned(stamp));
    hide CanMove, MoveRowsTo, RowsOf;
    assert ResumeAll(t, 1, [], map[]) == Moved(t, NOTHING_OWED);
    assert Gathered(d, FIRST, FirstPlan(stamp)).owed == NOTHING_OWED;
    assert OwesOf(RowsOf(Gathered(d, FIRST, FirstPlan(stamp)).tables, Connection(1)), NOTHING_OWED) == {};
  }

  lemma NothingIsPlanned(t: Tables, m: Move, stamp: Stamp)
    requires m.from != m.target && RowsOf(t, m.from) == NO_ROWS && RowsOf(t, m.target) == NO_ROWS
    ensures CanMove(t, m, NothingPlanned(stamp))
  {
    assert FoldersTaken(m, NO_ROWS) == {} && NotesTaken(m, NO_ROWS) == {} && FilesTaken(m, NO_ROWS) == {};
  }

  /** That device, with a note written in the pile at some moment. */
  function WrittenIn(stamp: Stamp, at: int): Device {
    FirstIsValid(stamp);
    var bound := Bind(NEW_DEVICE, FIRST, FirstPlan(stamp));
    var note := Note("n.md", "text", None, None, None, true, false, at, at);
    bound.(tables := bound.tables.(rows := bound.tables.rows[Pile := NO_ROWS.(notes := map[0 := note])]))
  }

  /**
    Written in the very millisecond of the bind, it is not late, was not there to be
    copied, and goes with the pile: its text is nowhere.
   */
  lemma SameMomentIsLost(stamp: Stamp, links: Links, p: Plan)
    ensures CanFinish(WrittenIn(stamp, 5), 1) && ValidFinish(WrittenIn(stamp, 5), 1, links, p, [])
    ensures HasText(WrittenIn(stamp, 5).tables, Pile, "text")
    ensures forall source :: !HasText(FinishImport(WrittenIn(stamp, 5), 1, links, p, []).tables, source, "text")
  {
    hide Bind;
    WrittenInIs(stamp, 5);
    LetGoWithThePile(WrittenIn(stamp, 5), links, p);
  }

  /** The pile has one note and every other source nothing. */
  ghost predicate HasOnly(d: Device, at: int) {
    && RowsOf(d.tables, Pile).notes == map[0 := Note("n.md", "text", None, None, None, true, false, at, at)]
    && forall source :: source != Pile ==> RowsOf(d.tables, source) == NO_ROWS
  }

  lemma WrittenInIs(stamp: Stamp, at: int)
    ensures WrittenIn(stamp, at).states
            == map[1 := State(Some("drive"), None, false, None, Some(5), Some(Importing(true, Pile)))]
    ensures HasOnly(WrittenIn(stamp, at), at) && HasText(WrittenIn(stamp, at).tables, Pile, "text")
    ensures WrittenIn(stamp, at).tables.ops == [] && WrittenIn(stamp, at).active == Some(Connection(1))
  {
    hide Bind;
    FirstIsValid(stamp);
    var bound, d := Bind(NEW_DEVICE, FIRST, FirstPlan(stamp)), WrittenIn(stamp, at);
    forall source | source != Pile
      ensures RowsOf(d.tables, source) == NO_ROWS
    {
      assert RowsOf(bound.tables, source) == NO_ROWS;
    }
    assert RowsOf(d.tables, Pile).notes[0].body == "text";
  }

  lemma LetGoWithThePile(d: Device, links: Links, p: Plan)
    requires CanFinish(d, 1) && LateNotes(d, 1) == {} && forall source :: source != Pile ==> RowsOf(d.tables, source) == NO_ROWS
    ensures ValidFinish(d, 1, links, p, [])
    ensures forall source :: !HasText(FinishImport(d, 1, links, p, []).tables, source, "text")
  {
    hide LateNotes;
    var after := FinishImport(d, 1, links, p, []);
    forall source
      ensures RowsOf(after.tables, source) == NO_ROWS
    {
      assert source != Pile ==> RowsOf(d.tables, source) == NO_ROWS;
    }
  }

  // ----- Binding again -----------------------------------------------------------------

  lemma {:induction false} NoOpsToCarry(w: Whereto, ops: seq<Op>)
    requires forall op :: op in ops ==> op.source != w.m.from
    ensures CarryOps(w, ops) == ops
    decreases |ops|
  {
    if ops != [] {
      var front, op := ops[..|ops| - 1], ops[|ops| - 1];
      assert ops == front + [op];
      assert op in ops && forall each :: each in front ==> each in ops;
      NoOpsToCarry(w, front);
    }
  }

  /** A move of nothing places nothing and owes nothing. */
  lemma NothingMoves(t: Tables, m: Move, p: Plan)
    requires CanMove(t, m, p) && RowsOf(t, m.from) == NO_ROWS && forall op :: op in t.ops ==> op.source != m.from
    ensures MoveRowsTo(t, m, p).tables.ops == t.ops && MoveRowsTo(t, m, p).owed == NOTHING_OWED
    ensures forall source :: RowsOf(MoveRowsTo(t, m, p).tables, source) == RowsOf(t, source)
  {
    NothingShelved(t, m, p);
    MoveUnfolds(t, m, p);
    NoOpsToCarry(WhereOf(t, m, p), t.ops);
    hide Place, Shelve, Carry, CarryOps, ValidPlan, WellFormed, WhereOf;
  }

  lemma NothingEnumerated<T(!new)>(order: seq<T>, rows: set<T>)
    requires Enumerates(order, rows) && rows == {}
    ensures order == []
  {
    SomethingIsThere(order);
  }

  lemma SomethingIsThere<T(!new)>(order: seq<T>)
    ensures order == [] || exists x :: x in order
  {
    if order != [] {
      assert order[0] in order;
    }
  }

  lemma NothingShelved(t: Tables, m: Move, p: Plan)
    requires CanMove(t, m, p) && RowsOf(t, m.from) == NO_ROWS
    ensures Arrived(t, m, p) == RowsOf(t, m.target)
    ensures Place(t, m, p).owed == {} && Shelve(t, m, p).owed == {} && Carry(t, m, p).owed == {}
  {
    hide ValidMoving, ValidCarrying, AtTells, WellFormed, SpellingsFrom, Enumerates;
    NothingEnumerated(p.folders, FoldersTaken(m, RowsOf(t, m.from)));
    NothingEnumerated(p.notes, RowsOf(t, m.from).notes.Keys);
    NothingEnumerated(p.files, FilesTaken(m, RowsOf(t, m.from)));
  }

  lemma NothingQueued(ops: seq<Op>, source: Source, rows: Rows, owed: Owed, owes: seq<Owe>)
    requires owed.notes == {} && owed.folders == {} && owed.files == {} && Enumerates(owes, OwesOf(rows, owed))
    ensures QueueAll(ops, source, owes) == ops
  {
    assert OwesOf(rows, owed) == {};
    NothingEnumerated(owes, OwesOf(rows, owed));
  }

  /**
    Binding a connection that is live here already, with nothing of its account detached
    and the pile held by an import or empty: no row moves and nothing is queued.
   */
  lemma RebindMovesNothing(d: Device, input: BindInput, plan: BindPlan)
    requires UnchangedSince(d, input.since) && ValidBind(d, input, plan)
    requires input.connection in d.states && IsLiveSource(d.states[input.connection]) && Homes(d, input) == {}
    requires PileIsHeld(d) || (RowsOf(d.tables, Pile) == NO_ROWS && forall op :: op in d.tables.ops ==> op.source != Pile)
    ensures Bind(d, input, plan).tables.ops == d.tables.ops
    ensures forall source :: RowsOf(Bind(d, input, plan).tables, source) == RowsOf(d.tables, source)
    ensures Bind(d, input, plan).states[input.connection].importing == d.states[input.connection].importing
  {
    hide CanMove, MoveRowsTo, QueueAll, PileIsHeld, OwesOf, Enumerates;
    NothingEnumerated(plan.homes, Homes(d, input));
    assert ResumeAll(d.tables, input.connection, plan.homes, plan.resumes) == Moved(d.tables, NOTHING_OWED);
    if !PileIsHeld(d) {
      NothingMoves(d.tables, PileMove(d, input), plan.copy);
    }
    var gathered := Gathered(d, input, plan);
    NothingQueued(gathered.tables.ops, Connection(input.connection), RowsOf(gathered.tables, Connection(input.connection)),
                  gathered.owed, plan.owes);
  }

  /** The pile has this text in a note written after some moment. */
  ghost predicate IsTextSince(d: Device, since: int, body: string) {
    exists id :: id in RowsOf(d.tables, Pile).notes && IsLive(RowsOf(d.tables, Pile).notes[id])
                 && RowsOf(d.tables, Pile).notes[id].updatedAt > since && RowsOf(d.tables, Pile).notes[id].body == body
  }

  /**
    The importing source bound again and, whatever the import and the user have done since,
    its import finished: what was written in the pile before the second bind is late no
    more. The source has exactly what it has come to hold, and what was written in the pile
    after the second bind.
   */
  lemma RebindThenFinishIff(
      d: Device, input: BindInput, plan: BindPlan, e: Device, links: Links, p: Plan, owes: seq<Owe>, body: string)
    requires UnchangedSince(d, input.since) && ValidBind(d, input, plan)
    requires input.connection in d.states && HoldsPile(d.states[input.connection])
    requires e.states == Bind(d, input, plan).states
    requires CanFinish(e, input.connection) ==> ValidFinish(e, input.connection, links, p, owes)
    ensures var after := FinishImport(e, input.connection, links, p, owes);
            RowsOf(after.tables, Pile) == NO_ROWS
            && (HasText(after.tables, Connection(input.connection), body)
                <==> HasText(e.tables, Connection(input.connection), body) || IsTextSince(e, plan.now, body))
  {
    hide ValidBind, Bind, ValidFinish, FinishImport, OpsOf;
    BoundAgain(d, input, plan);
    FinishKeepsTextIff(e, input.connection, links, p, owes);
    LateSince(e, input.connection, plan.now, body);
  }

  lemma BoundAgain(d: Device, input: BindInput, plan: BindPlan)
    requires UnchangedSince(d, input.since) && ValidBind(d, input, plan)
    requires input.connection in d.states && HoldsPile(d.states[input.connection])
    ensures CanFinish(Bind(d, input, plan), input.connection)
    ensures Bind(d, input, plan).states[input.connection].boundAt == Some(plan.now)
  {
    hide Gathered, QueueAll, ValidBind, Homes;
    assert !IsFirstBinding(d, input);
  }

  lemma LateSince(d: Device, c: nat, since: int, body: string)
    requires c in d.states && d.states[c].boundAt == Some(since)
    ensures IsLateText(d, c, body) <==> IsTextSince(d, since, body)
  {
    hide RowsOf;
    if IsTextSince(d, since, body) {
      var id :| id in RowsOf(d.tables, Pile).notes && IsLive(RowsOf(d.tables, Pile).notes[id])
                && RowsOf(d.tables, Pile).notes[id].updatedAt > since && RowsOf(d.tables, Pile).notes[id].body == body;
      assert id in LateNotes(d, c);
    }
  }

  function AgainPlan(stamp: Stamp): BindPlan {
    BindPlan([], map[], NothingPlanned(stamp), [], Connection(1), 7)
  }

  /** A note written at 6 in the pile of an import begun at 5, the same connection bound again at 7, and a finish. */
  lemma RebindLosesLate(stamp: Stamp, links: Links, p: Plan)
    ensures ValidBind(WrittenIn(stamp, 6), FIRST, AgainPlan(stamp)) && UnchangedSince(WrittenIn(stamp, 6), FIRST.since)
    ensures IsLateText(WrittenIn(stamp, 6), 1, "text")
    ensures var bound := Bind(WrittenIn(stamp, 6), FIRST, AgainPlan(stamp));
            && CanFinish(bound, 1) && ValidFinish(bound, 1, links, p, [])
            && forall source :: !HasText(FinishImport(bound, 1, links, p, []).tables, source, "text")
  {
    hide Bind, ValidBind, FinishImport, OpsOf;
    var d := WrittenIn(stamp, 6);
    WrittenInIs(stamp, 6);
    AgainIsValid(stamp);
    assert 0 in LateNotes(d, 1);
    RebindMovesNothing(d, FIRST, AgainPlan(stamp));
    BoundAgain(d, FIRST, AgainPlan(stamp));
    var bound := Bind(d, FIRST, AgainPlan(stamp));
    assert RowsOf(bound.tables, Pile) == RowsOf(d.tables, Pile);
    assert LateNotes(bound, 1) == {};
    LetGoWithThePile(bound, links, p);
  }

  lemma AgainIsValid(stamp: Stamp)
    ensures ValidBind(WrittenIn(stamp, 6), FIRST, AgainPlan(stamp)) && PileIsHeld(WrittenIn(stamp, 6))
    ensures Homes(WrittenIn(stamp, 6), FIRST) == {}
  {
    hide Bind;
    var d := WrittenIn(stamp, 6);
    WrittenInIs(stamp, 6);
    assert 1 in d.states && HoldsPile(d.states[1]);
    assert Homes(d, FIRST) == {};
    assert ResumeAll(d.tables, 1, [], map[]) == Moved(d.tables, NOTHING_OWED);
    assert Gathered(d, FIRST, AgainPlan(stamp)).owed == NOTHING_OWED;
    assert OwesOf(RowsOf(d.tables, Connection(1)), NOTHING_OWED) == {};
    assert d.active == Some(Connection(1));
  }

  // ----- Two imports at a time ---------------------------------------------------------

  /**
    With two sources importing, finishing the one that never had the pile lets it go, and
    cancelling the one that has it throws the copy away: the pile's text is nowhere.
   */
  lemma TwoImportsLoseThePile(
      d: Device, first: BindInput, one: BindPlan, second: BindInput, two: BindPlan, links: Links, p: Plan)
    requires first.connection != second.connection && first.since == None && second.since == None
    requires ValidBind(d, first, one) && IsFirstBinding(d, first) && !PileIsHeld(d)
    requires ValidBind(Bind(d, first, one), second, two) && IsFirstBinding(Bind(d, first, one), second)
    requires forall id :: id in RowsOf(d.tables, Pile).notes ==> RowsOf(d.tables, Pile).notes[id].updatedAt <= two.now
    ensures var bound := Bind(Bind(d, first, one), second, two);
            && CanFinish(bound, second.connection) && ValidFinish(bound, second.connection, links, p, [])
            && var (after, outcome) := AbandonImport(FinishImport(bound, second.connection, links, p, []), first.connection);
               && outcome == Abandoned
               && RowsOf(after.tables, Pile) == NO_ROWS && RowsOf(after.tables, Connection(first.connection)) == NO_ROWS
               && forall source :: source != Pile && source != Connection(first.connection) ==>
                    RowsOf(after.tables, source) == RowsOf(d.tables, source)
  {
    hide ValidBind, Bind, IsFirstBinding, OpsOf, ForgetRows, WrittenSince;
    var once := Bind(d, first, one);
    FirstBindUnfolds(d, first, one);
    FirstBindUnfolds(once, second, two);
    SecondBindBringsNothing(once, second, two, first.connection);
    var bound := Bind(once, second, two);
    assert RowsOf(bound.tables, Pile) == RowsOf(once.tables, Pile) == RowsOf(d.tables, Pile) by {
      assert IsUntouched(d.tables, once.tables, Pile);
    }
    FinishedThenAbandoned(bound, first.connection, second.connection, links, p);
    var after := AbandonImport(FinishImport(bound, second.connection, links, p, []), first.connection).0;
    forall source | source != Pile && source != Connection(first.connection)
      ensures RowsOf(after.tables, source) == RowsOf(d.tables, source)
    {
      assert IsUntouched(d.tables, once.tables, source);
      assert IsUntouched(bound.tables, after.tables, source);
    }
  }

  /** One import finished with no late notes, another cancelled: the pile and the second source are gone. */
  lemma FinishedThenAbandoned(e: Device, holder: nat, other: nat, links: Links, p: Plan)
    requires holder != other && CanFinish(e, other) && LateNotes(e, other) == {}
    requires holder in e.states && e.states[holder].importing.Some? && e.states[holder].importing.value.lock
    ensures ValidFinish(e, other, links, p, [])
    ensures var (after, outcome) := AbandonImport(FinishImport(e, other, links, p, []), holder);
            && outcome == Abandoned
            && RowsOf(after.tables, Pile) == NO_ROWS && RowsOf(after.tables, Connection(holder)) == NO_ROWS
            && forall source :: source != Pile && source != Connection(holder) ==> IsUntouched(e.tables, after.tables, source)
  {
    hide OpsOf, ForgetRows, WrittenSince, RowsOf, LateNotes;
    FinishUnfolds(e, other, links, p, []);
    var finished := FinishImport(e, other, links, p, []);
    assert finished.tables == ForgetRows(e.tables, Pile);
    ForgottenRows(e.tables, Pile);
    ForgottenRows(finished.tables, Connection(holder));
    var after := AbandonImport(finished, holder).0;
    assert after.tables == ForgetRows(finished.tables, Connection(holder));
    forall source | source != Pile && source != Connection(holder)
      ensures IsUntouched(e.tables, after.tables, source)
    {
      assert IsUntouched(e.tables, finished.tables, source);
      assert IsUntouched(finished.tables, after.tables, source);
    }
    assert IsUntouched(finished.tables, after.tables, Pile);
  }

  /** A bind while another source's import holds the pile brings the new source nothing. */
  lemma SecondBindBringsNothing(d: Device, input: BindInput, plan: BindPlan, holder: nat)
    requires UnchangedSince(d, input.since) && ValidBind(d, input, plan) && IsFirstBinding(d, input)
    requires holder in d.states && HoldsPile(d.states[holder])
    ensures forall source :: RowsOf(Bind(d, input, plan).tables, source) == RowsOf(d.tables, source)
  {
    hide CanMove, MoveRowsTo, QueueAll, OwesOf;
    FirstBindUnfolds(d, input, plan);
  }
}
