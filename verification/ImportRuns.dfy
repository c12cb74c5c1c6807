/**
  Runs of a device that imports: every event of a device, and besides them a source filled
  from its remote and sent to it, a user who goes on writing, and an import finished or
  cancelled, in any order, with one source importing at a time. Every text the remote was
  never sent stays unsent on the device, or is sent from the source that has it, but for
  what the user lets go of, writes over, or cancels.
 */
module ImportRuns {
  import opened Options
  import opened Library
  import opened MoveRows
  import opened MoveKeeps
  import opened MoveQueue
  import opened Unsynced
  import opened Sources
  import opened SourceRuns
  import opened SourceClashes
  import opened Imports

  /** The text of a note, with its times. */
  datatype Text = Text(body: string, createdAt: int, updatedAt: int)

  function TextOf(note: Note): Text {
    Text(note.body, note.createdAt, note.updatedAt)
  }

  /** A device, and every text a source's remote has been sent in full. */
  datatype World = World(device: Device, sent: set<(nat, Text)>)

  /** The queue after an import, a save or a send is whatever each leaves. */
  datatype Act =
    | Doing(event: Event)
    | Bringing(connection: nat, rows: Rows, queue: seq<Op>)
    | Sending(connection: nat, id: Id, content: FileText, remoteId: Id, version: string, queue: seq<Op>)
    | Writing(source: Source, id: Id, note: Note, queue: seq<Op>)
    | Finishing(connection: nat, links: Links, landing: Plan, owes: seq<Owe>)
    | Cancelling(connection: nat)

  predicate IsHolding(d: Device, c: nat) {
    c in d.states && HoldsPile(d.states[c])
  }

  /** Since when what is written in the pile is late, for an import. */
  function HeldSince(state: State): int {
    if state.boundAt.Some? then state.boundAt.value else 0
  }

  /** A live note has this text. */
  ghost predicate LivesAt(t: Tables, key: Key, text: Text) {
    key.id in RowsOf(t, key.source).notes && IsLive(NoteAt(t, key)) && TextOf(NoteAt(t, key)) == text
  }

  ghost predicate IsPileText(t: Tables, text: Text) {
    exists id :: LivesAt(t, Key(Pile, id), text)
  }

  // ----- What may happen ---------------------------------------------------------------

  /**
    What a bind may not be for every text to be kept: a second import beside one, or the
    importing source bound again after the pile was written in.
   */
  predicate BindsSafely(d: Device, input: BindInput, plan: BindPlan) {
    && (IsFirstBinding(d, input) ==> !PileIsHeld(d))
    && (IsHolding(d, input.connection) ==>
          forall id :: id in LateNotes(d, input.connection) ==> RowsOf(d.tables, Pile).notes[id].updatedAt > plan.now)
  }

  /** A note is written in the pile after any bind that holds it; in an importing source, not over a copy of the pile. */
  ghost predicate WritesSafely(d: Device, source: Source, id: Id, note: Note) {
    match source
    case Pile => forall c :: c in d.states && HoldsPile(d.states[c]) ==> note.updatedAt > HeldSince(d.states[c])
    case Connection(c) =>
      IsHolding(d, c) && id in RowsOf(d.tables, source).notes ==>
        !IsPileText(d.tables, TextOf(RowsOf(d.tables, source).notes[id]))
  }

  /** A row whose text stays, whatever comes from a remote: unsent, or in an importing source a copy of the pile. */
  ghost predicate IsLeftAlone(d: Device, c: nat, id: Id)
    requires id in RowsOf(d.tables, Connection(c)).notes
  {
    var note := RowsOf(d.tables, Connection(c)).notes[id];
    IsUnsent(note) || (IsLive(note) && IsHolding(d, c) && IsPileText(d.tables, TextOf(note)))
  }

  /** Live with the text it had, unsent if it was; it may have been moved, or linked. */
  predicate HasItsText(before: Note, after: Note) {
    IsLive(after) && TextOf(after) == TextOf(before) && (IsUnsent(before) ==> IsUnsent(after))
  }

  ghost predicate BringsSafely(d: Device, c: nat, rows: Rows) {
    var before := RowsOf(d.tables, Connection(c)).notes;
    forall id :: id in before && IsLeftAlone(d, c, id) ==> id in rows.notes && HasItsText(before[id], rows.notes[id])
  }

  /** A note on its way has no file yet, or has one and is dirty: one without a file is dirty as well. */
  predicate SendsSafely(d: Device, c: nat, id: Id, content: FileText) {
    var notes := RowsOf(d.tables, Connection(c)).notes;
    c in d.states && id in notes && IsLive(notes[id]) && (notes[id].dirty || NoteFile(id, notes[id]) == content)
  }

  ghost predicate CanAct(d: Device, act: Act) {
    match act
    case Doing(e) => IsEnabled(d, e) && (e.Binding? && UnchangedSince(d, e.input.since) ==> BindsSafely(d, e.input, e.plan))
    case Bringing(c, rows, _) => c in d.states && BringsSafely(d, c, rows)
    case Sending(c, id, content, _, _, _) => SendsSafely(d, c, id, content)
    case Writing(source, id, note, _) => WritesSafely(d, source, id, note)
    case Finishing(c, links, landing, owes) => CanFinish(d, c) ==> ValidFinish(d, c, links, landing, owes)
    case Cancelling(c) => true
  }

  // ----- What it does ------------------------------------------------------------------

  function WithRows(d: Device, source: Source, rows: Rows, queue: seq<Op>): Device {
    d.(tables := Tables(d.tables.rows[source := rows], queue))
  }

  function WithNote(d: Device, source: Source, id: Id, note: Note, queue: seq<Op>): Device {
    var rows := RowsOf(d.tables, source);
    WithRows(d, source, rows.(notes := rows.notes[id := note]), queue)
  }

  /** A write settled: the row names its file, and is clean if what went up is what it still is. */
  function Settled(id: Id, note: Note, content: FileText, remoteId: Id, version: string): Note {
    var linked := note.(remoteId := Some(remoteId), remoteVersion := Some(version));
    if NoteFile(id, note) == content then linked.(dirty := false, source := Some(content)) else linked
  }

  ghost function DeviceAfter(d: Device, act: Act): Device
    requires CanAct(d, act)
  {
    match act
    case Doing(e) => Step(d, e)
    case Bringing(c, rows, queue) => WithRows(d, Connection(c), rows, queue)
    case Sending(c, id, content, remoteId, version, queue) =>
      WithNote(d, Connection(c), id, Settled(id, RowsOf(d.tables, Connection(c)).notes[id], content, remoteId, version), queue)
    case Writing(source, id, note, queue) => WithNote(d, source, id, note, queue)
    case Finishing(c, links, landing, owes) => FinishImport(d, c, links, landing, owes)
    case Cancelling(c) => AbandonImport(d, c).0
  }

  /** Whether an act sends a note whole, as it stands. */
  predicate IsSent(d: Device, act: Act, key: Key) {
    && act.Sending? && key == Key(Connection(act.connection), act.id)
    && key.id in RowsOf(d.tables, key.source).notes
    && NoteFile(key.id, RowsOf(d.tables, key.source).notes[key.id]) == act.content
  }

  ghost function After(w: World, act: Act): World
    requires CanAct(w.device, act)
  {
    World(
      DeviceAfter(w.device, act),
      if act.Sending? && IsSent(w.device, act, Key(Connection(act.connection), act.id))
      then w.sent + {(act.connection, TextOf(RowsOf(w.device.tables, Connection(act.connection)).notes[act.id]))}
      else w.sent)
  }

  // ----- What an import promises while it runs -----------------------------------------

  /** A note of the source has the text, and is unsent still or was sent. */
  ghost predicate HasCopy(w: World, c: nat, k: Id, text: Text) {
    var key := Key(Connection(c), k);
    LivesAt(w.device.tables, key, text) && (IsUnsentAt(w.device.tables, key) || (c, text) in w.sent)
  }

  /** Late, or in the importing source as well. */
  ghost predicate IsSafe(w: World, c: nat, text: Text)
    requires c in w.device.states
  {
    text.updatedAt > HeldSince(w.device.states[c]) || exists k :: HasCopy(w, c, k, text)
  }

  ghost predicate PileIsCopied(w: World, c: nat)
    requires c in w.device.states
  {
    forall id, text :: LivesAt(w.device.tables, Key(Pile, id), text) ==> IsSafe(w, c, text)
  }

  /** One import at a time, of a live source, with the pile copied into it. */
  ghost predicate OneImport(w: World) {
    var d := w.device;
    && (forall c :: c in d.states && d.states[c].importing.Some? ==> IsLiveSource(d.states[c]))
    && (forall b, c :: IsHolding(d, b) && IsHolding(d, c) ==> b == c)
    && (forall c :: c in d.states && HoldsPile(d.states[c]) ==> PileIsCopied(w, c))
  }

  // ----- Which sources hold the pile ---------------------------------------------------

  /** How a source that is there after an act was before it: there, with no import begun. */
  ghost predicate StateStands(d: Device, after: Device, c: nat) {
    && c in after.states && c in d.states
    && (after.states[c].importing.Some? ==> after.states[c].importing == d.states[c].importing && IsHoldingStill(d, after, c))
  }

  ghost predicate IsHoldingStill(d: Device, after: Device, c: nat)
    requires c in after.states && c in d.states
  {
    (IsLiveSource(d.states[c]) ==> IsLiveSource(after.states[c])) && after.states[c].boundAt == d.states[c].boundAt
  }

  /** No step but a bind of it begins an import, moves when it began, or makes a source live. */
  lemma StatesStand(d: Device, e: Event, c: nat)
    requires IsEnabled(d, e) && c in Step(d, e).states
    requires e.Binding? && UnchangedSince(d, e.input.since) ==> c != e.input.connection
    ensures StateStands(d, Step(d, e), c)
  {
    hide ValidBind, ValidMove, Refusal, UnsentMove, KeepOnly, ForgetRows, UnseenIn, HeldIn, UnsyncedIn, UnseenNotes, QueueAll,
      MoveRowsTo, CutLoose, Gathered, MovingUnsent, CanMove, Homes, BoundState, IsFirstBinding;
    match e {
      case Binding(input, plan) =>
        assert Step(d, e).states == if UnchangedSince(d, input.since)
          then (d.states - Homes(d, input))[input.connection := Step(d, e).states[input.connection]] else d.states;
      case Verifying(_, _, _, _) =>
      case Detaching(_, _, _, _, _, _) =>
      case Releasing(_, _, _, _, _) =>
      case Moving(move, _, _) => NotRefused(d, move);
    }
  }

  // ----- One event ---------------------------------------------------------------------

  /** The pile stays as it is, but for a bind that takes it for good. */
  lemma PileStands(d: Device, e: Event)
    requires IsEnabled(d, e) && (e.Binding? ==> PileIsHeld(d) || IsFirstBinding(d, e.input))
    ensures RowsOf(Step(d, e).tables, Pile) == RowsOf(d.tables, Pile)
  {
    hide Step, IsEnabled, OpsOf, PileIsHeld, IsFirstBinding, Homes;
    UnnamedIsUntouched(d, e, Pile);
  }

  lemma TextIs(t: Tables, key: Key, note: Note)
    ensures TextIsAt(t, key, note) <==> IsUnsentAt(t, key) && LivesAt(t, key, TextOf(note))
  {}

  /** An unsent note of a source stays in it, unsent, while it imports. */
  lemma UnsentStands(d: Device, e: Event, c: nat, k: Id, text: Text) returns (now: Id)
    requires IsEnabled(d, e) && IsHolding(d, c)
    requires IsUnsentAt(d.tables, Key(Connection(c), k)) && LivesAt(d.tables, Key(Connection(c), k), text)
    ensures IsUnsentAt(Step(d, e).tables, Key(Connection(c), now)) && LivesAt(Step(d, e).tables, Key(Connection(c), now), text)
  {
    hide Step, IsEnabled, KeyNow, IsUnsent, Refusal, LivesAt, TextIsAt;
    var key := Key(Connection(c), k);
    StepKeepsText(d, e, key);
    KeyStaysHome(d, e, key);
    StaysInSource(d, e, c, key);
    TextIs(d.tables, key, NoteAt(d.tables, key));
    TextIs(Step(d, e).tables, KeyNow(d, e, key), NoteAt(d.tables, key));
    LivesOnce(d.tables, key, text);
    now := KeyNow(d, e, key).id;
  }

  lemma LivesOnce(t: Tables, key: Key, text: Text)
    requires LivesAt(t, key, text)
    ensures key.id in RowsOf(t, key.source).notes && TextOf(NoteAt(t, key)) == text
  {}

  lemma StaysInSource(d: Device, e: Event, c: nat, key: Key)
    requires IsEnabled(d, e) && IsHolding(d, c) && key.source == Connection(c)
    requires MayBeIn(d, e, key.source, KeyNow(d, e, key).source)
    ensures KeyNow(d, e, key).source == key.source
  {
    hide IsEnabled, KeyBound, KeyAfter, Refusal, UnsentMove, ValidBind;
    if e.Moving? {
      NotRefused(d, e.move);
    }
  }

  /** And any live note of it stays where it is with its text, while the source goes on importing. */
  lemma LiveStands(d: Device, e: Event, c: nat, k: Id, text: Text)
    requires IsEnabled(d, e) && IsHolding(d, c) && IsHolding(Step(d, e), c)
    requires LivesAt(d.tables, Key(Connection(c), k), text)
    ensures LivesAt(Step(d, e).tables, Key(Connection(c), k), text)
  {
    hide LivesAt, ValidBind, Bind, Detach, Release, MoveUnsyncedTo, ValidMove, Refusal, VerifyResume, UnchangedSince, Homes,
      PileIsHeld, IsFirstBinding, OpsOf;
    if !IsNamed(d, e, Connection(c)) {
      UnnamedIsUntouched(d, e, Connection(c));
      SameRowsLive(d.tables, Step(d, e).tables, Key(Connection(c), k), text);
    } else {
      match e {
        case Binding(input, plan) => BoundLives(d, input, plan, c, k, text);
        case Verifying(_, _, found, owes) => CutLives(d, e, c, k, text);
        case Detaching(_, _, _, _, _, _) => DetachedLives(d, e, c, k, text);
        case Releasing(_, _, _, _, _) => ReleaseRefused(d, e, c);
        case Moving(_, _, _) => MovedLives(d, e, c, k, text);
      }
    }
  }

  lemma SameRowsLive(t: Tables, u: Tables, key: Key, text: Text)
    requires RowsOf(u, key.source) == RowsOf(t, key.source)
    ensures LivesAt(u, key, text) <==> LivesAt(t, key, text)
  {}

  lemma StandingLives(t: Tables, u: Tables, key: Key, text: Text)
    requires RowsStand(RowsOf(t, key.source), RowsOf(u, key.source)) && LivesAt(t, key, text)
    ensures LivesAt(u, key, text)
  {}

  lemma BoundLives(d: Device, input: BindInput, plan: BindPlan, c: nat, k: Id, text: Text)
    requires IsEnabled(d, Binding(input, plan)) && IsHolding(d, c) && IsNamed(d, Binding(input, plan), Connection(c))
    requires LivesAt(d.tables, Key(Connection(c), k), text)
    ensures LivesAt(Step(d, Binding(input, plan)).tables, Key(Connection(c), k), text)
  {
    hide LivesAt, ValidBind, Bind, RowsStand, RowsOf;
    assert c == input.connection;
    if UnchangedSince(d, input.since) {
      var t := ResumedTables(d, input, plan);
      StandThen(RowsOf(d.tables, Connection(c)), RowsOf(t, Connection(c)), RowsOf(Bind(d, input, plan).tables, Connection(c)));
      StandingLives(d.tables, Bind(d, input, plan).tables, Key(Connection(c), k), text);
    } else {
      BindDoesNothing(d, input, plan);
    }
  }

  lemma ResumedTables(d: Device, input: BindInput, plan: BindPlan) returns (t: Tables)
    requires UnchangedSince(d, input.since) && ValidBind(d, input, plan)
    ensures var target := Connection(input.connection);
            RowsStand(RowsOf(d.tables, target), RowsOf(t, target))
            && RowsStand(RowsOf(t, target), RowsOf(Bind(d, input, plan).tables, target))
  {
    hide Bind, RowsStand, ValidResumes, ResumeAll, CanMove, Gathered;
    t := ResumeAll(d.tables, input.connection, plan.homes, plan.resumes).tables;
    ResumesStand(d.tables, input.connection, plan.homes, plan.resumes);
    BoundStands(d, input, plan);
  }

  lemma CutLives(d: Device, e: Event, c: nat, k: Id, text: Text)
    requires e.Verifying? && IsEnabled(d, e) && e.connection == c && LivesAt(d.tables, Key(Connection(c), k), text)
    ensures LivesAt(Step(d, e).tables, Key(Connection(c), k), text)
  {
    hide QueueAll, OnlyUploads, FileStays;
  }

  lemma DetachedLives(d: Device, e: Event, c: nat, k: Id, text: Text)
    requires e.Detaching? && e.connection == c && IsHolding(d, c) && IsHolding(Step(d, e), c)
    ensures Step(d, e) == d
  {
    hide UnsyncedIn, HeldIn, KeepOnly, ForgetRows;
  }

  lemma ReleaseRefused(d: Device, e: Event, c: nat)
    requires e.Releasing? && e.connection == c && IsHolding(d, c)
    ensures Step(d, e) == d
  {}

  lemma MovedLives(d: Device, e: Event, c: nat, k: Id, text: Text)
    requires e.Moving? && IsEnabled(d, e) && IsHolding(d, c) && LivesAt(d.tables, Key(Connection(c), k), text)
    requires IsNamed(d, e, Connection(c))
    ensures LivesAt(Step(d, e).tables, Key(Connection(c), k), text)
  {
    hide UnsyncedIn, QueueAll, MoveRowsTo, ValidPlan, WellFormed, MovingFolders, MovingFiles, UnseenIn, MovingNotes,
      HeldIn, OpsNotOf, Refusal, UnsentMove, KeepOnly, ForgetRows, ValidMove, LivesAt, RowsStand, OpsOf, RowsOf, KeepUnseen;
    NotRefused(d, e.move);
    if Refusal(d, e.move).None? {
      MovingUnfolds(d, e);
      UnsentMoveGoes(d, e.move);
      var after := AfterMove(d, e.move, e.landing, e.owes);
      MoveStands(d.tables, UnsentMove(d, e.move), e.landing);
      QueuedRows(MoveRowsTo(d.tables, UnsentMove(d, e.move), e.landing).tables, after.tables, Connection(c));
      KeepUnseenTouches(after, e.move.from, e.move.seen, e.move.holding, e.move.links, e.move.now, Connection(c));
      StandingLives(d.tables, after.tables, Key(Connection(c), k), text);
      SameRowsLive(after.tables, Step(d, e).tables, Key(Connection(c), k), text);
    }
  }

  lemma QueuedRows(t: Tables, u: Tables, source: Source)
    requires u.rows == t.rows
    ensures RowsOf(u, source) == RowsOf(t, source)
  {}

  /** A copy is a copy still. */
  lemma CopyStands(w: World, e: Event, c: nat, k: Id, text: Text) returns (now: Id)
    requires IsEnabled(w.device, e) && IsHolding(w.device, c) && IsHolding(Step(w.device, e), c) && HasCopy(w, c, k, text)
    ensures HasCopy(World(Step(w.device, e), w.sent), c, now, text)
  {
    hide Step, IsEnabled, LivesAt, IsUnsentAt, IsHolding;
    if IsUnsentAt(w.device.tables, Key(Connection(c), k)) {
      now := UnsentStands(w.device, e, c, k, text);
    } else {
      LiveStands(w.device, e, c, k, text);
      now := k;
    }
  }

  /** The importing source after an event that did not begin its import. */
  lemma HeldStaysCopied(w: World, e: Event, c: nat)
    requires IsEnabled(w.device, e) && IsHolding(w.device, c) && PileIsCopied(w, c) && IsHolding(Step(w.device, e), c)
    requires var was, now := w.device.states[c], Step(w.device, e).states[c];
             now.boundAt == was.boundAt ||
             forall id :: id in LateNotes(w.device, c) ==> RowsOf(w.device.tables, Pile).notes[id].updatedAt > HeldSince(now)
    ensures PileIsCopied(World(Step(w.device, e), w.sent), c)
  {
    hide Step, IsEnabled, HasCopy, RowsOf, HoldsPile;
    var d, after := w.device, World(Step(w.device, e), w.sent);
    assert PileIsHeld(d);
    PileStands(d, e);
    forall id, text | LivesAt(after.device.tables, Key(Pile, id), text)
      ensures IsSafe(after, c, text)
    {
      SameRowsLive(d.tables, after.device.tables, Key(Pile, id), text);
      assert IsSafe(w, c, text);
      if text.updatedAt > HeldSince(d.states[c]) {
        assert id in LateNotes(d, c);
      } else {
        var k :| HasCopy(w, c, k, text);
        var now := CopyStands(w, e, c, k, text);
      }
    }
  }

  /** A first bind copies the whole pile. */
  lemma FirstBindCopies(w: World, input: BindInput, plan: BindPlan)
    requires UnchangedSince(w.device, input.since) && ValidBind(w.device, input, plan)
    requires IsFirstBinding(w.device, input) && !PileIsHeld(w.device)
    ensures input.connection in Bind(w.device, input, plan).states
    ensures PileIsCopied(World(Bind(w.device, input, plan), w.sent), input.connection)
  {
    hide ValidBind, Bind, IsFirstBinding, PileIsHeld, IsUntouched;
    var d := w.device;
    FirstBindUnfolds(d, input, plan);
    var bound, c := World(Bind(d, input, plan), w.sent), input.connection;
    assert IsUntouched(d.tables, bound.device.tables, Pile);
    SameRowsThere(d.tables, bound.device.tables, Pile);
    forall id, text | LivesAt(bound.device.tables, Key(Pile, id), text)
      ensures IsSafe(bound, c, text)
    {
      BindCopiesPile(d, input, plan, id);
      CarriedIsCopy(d.tables, bound.device.tables, Connection(c), RowsOf(d.tables, Pile).notes[id], plan.copy.noteIds[id]);
      assert HasCopy(bound, c, plan.copy.noteIds[id], text);
    }
  }

  lemma SameRowsThere(t: Tables, u: Tables, source: Source)
    requires IsUntouched(t, u, source)
    ensures RowsOf(u, source) == RowsOf(t, source)
  {}

  lemma CarriedIsCopy(t: Tables, u: Tables, source: Source, note: Note, to: Id)
    requires IsCarried(RowsOf(t, source), RowsOf(u, source), note, to) && IsLive(note)
    requires RowsOf(u, source).notes[to].dirty
    ensures IsUnsentAt(u, Key(source, to)) && LivesAt(u, Key(source, to), TextOf(note))
  {}

  /** The source a bind is of holds the pile afterwards only where it begins an import, or was importing. */
  lemma BoundHolds(d: Device, input: BindInput, plan: BindPlan)
    requires UnchangedSince(d, input.since) && ValidBind(d, input, plan)
    ensures var bound := Bind(d, input, plan);
            && input.connection in bound.states && IsLiveSource(bound.states[input.connection])
            && HeldSince(bound.states[input.connection]) == plan.now
            && (bound.states[input.connection].importing.Some? ==>
                  IsFirstBinding(d, input) || (input.connection in d.states && d.states[input.connection].importing.Some?))
  {
    hide Gathered, ValidBind, QueueAll, Homes, IsFirstBinding;
  }

  lemma DoingKeeps(w: World, e: Event)
    requires CanAct(w.device, Doing(e)) && OneImport(w)
    ensures OneImport(World(Step(w.device, e), w.sent))
  {
    hide Step, IsEnabled, PileIsCopied, LateNotes, BindsSafely, UnchangedSince, IsLiveSource, OneImport;
    var after := Step(w.device, e);
    forall c | c in after.states && after.states[c].importing.Some?
      ensures DoneRightly(w, e, c)
    {
      if e.Binding? && UnchangedSince(w.device, e.input.since) && c == e.input.connection {
        BindingKeeps(w, e);
      } else {
        ElseKeeps(w, e, c);
      }
    }
    AllDoneRightly(w, e);
  }

  /** A source importing after an event is live, has the pile, and was importing or is the only one to be. */
  ghost predicate DoneRightly(w: World, e: Event, c: nat)
    requires IsEnabled(w.device, e) && c in Step(w.device, e).states
  {
    && IsLiveSource(Step(w.device, e).states[c]) && PileIsCopied(World(Step(w.device, e), w.sent), c)
    && (IsHolding(w.device, c) || (e.Binding? && c == e.input.connection && forall b :: !IsHolding(w.device, b)))
  }

  lemma AllDoneRightly(w: World, e: Event)
    requires IsEnabled(w.device, e) && OneImport(w)
    requires var after := Step(w.device, e);
             forall c :: c in after.states && after.states[c].importing.Some? ==> DoneRightly(w, e, c)
    ensures OneImport(World(Step(w.device, e), w.sent))
  {
    hide Step, IsEnabled, PileIsCopied;
  }

  lemma ElseKeeps(w: World, e: Event, c: nat)
    requires IsEnabled(w.device, e) && OneImport(w)
    requires c in Step(w.device, e).states && Step(w.device, e).states[c].importing.Some?
    requires e.Binding? && UnchangedSince(w.device, e.input.since) ==> c != e.input.connection
    ensures DoneRightly(w, e, c)
  {
    hide Step, IsEnabled, PileIsCopied, LateNotes, UnchangedSince;
    StatesStand(w.device, e, c);
    assert IsHolding(w.device, c) && IsHolding(Step(w.device, e), c);
    HeldStaysCopied(w, e, c);
  }

  lemma BindingKeeps(w: World, e: Event)
    requires CanAct(w.device, Doing(e)) && OneImport(w) && e.Binding? && UnchangedSince(w.device, e.input.since)
    requires e.input.connection in Step(w.device, e).states && Step(w.device, e).states[e.input.connection].importing.Some?
    ensures DoneRightly(w, e, e.input.connection)
  {
    hide ValidBind, Bind, PileIsCopied, LateNotes, IsFirstBinding;
    var input, plan := e.input, e.plan;
    BoundHolds(w.device, input, plan);
    if IsFirstBinding(w.device, input) {
      FirstBindCopies(w, input, plan);
      assert forall b :: !IsHolding(w.device, b);
    } else {
      HeldStaysCopied(w, e, input.connection);
    }
  }

  // ----- Every act ---------------------------------------------------------------------

  /** Rows of one source replaced: what is elsewhere is as it was, and what keeps its text keeps it. */
  lemma WithRowsElsewhere(d: Device, source: Source, rows: Rows, queue: seq<Op>, key: Key, text: Text)
    requires key.source != source
    ensures LivesAt(WithRows(d, source, rows, queue).tables, key, text) <==> LivesAt(d.tables, key, text)
    ensures IsUnsentAt(WithRows(d, source, rows, queue).tables, key) <==> IsUnsentAt(d.tables, key)
  {}

  lemma WithRowsLives(d: Device, source: Source, rows: Rows, queue: seq<Op>, key: Key, text: Text)
    requires LivesAt(d.tables, key, text)
    requires key.source == source ==>
               key.id in rows.notes && HasItsText(RowsOf(d.tables, source).notes[key.id], rows.notes[key.id])
    ensures LivesAt(WithRows(d, source, rows, queue).tables, key, text)
    ensures IsUnsentAt(d.tables, key) ==> IsUnsentAt(WithRows(d, source, rows, queue).tables, key)
  {}

  /** An act that changes the rows of one source and no state keeps the pile copied if it keeps every copy. */
  ghost predicate CopiesStay(w: World, v: World) {
    && v.device.states == w.device.states && w.sent <= v.sent
    && forall c, id, text :: IsHolding(w.device, c) && LivesAt(v.device.tables, Key(Pile, id), text) ==> IsSafe(v, c, text)
  }

  lemma StayingKeeps(w: World, v: World)
    requires OneImport(w) && CopiesStay(w, v)
    ensures OneImport(v)
  {
    hide IsSafe, LivesAt;
    assert forall c :: IsHolding(v.device, c) == IsHolding(w.device, c);
    forall c | c in v.device.states && HoldsPile(v.device.states[c])
      ensures PileIsCopied(v, c)
    {
      assert IsHolding(w.device, c);
    }
  }

  lemma WasSafe(w: World, c: nat, id: Id, text: Text)
    requires OneImport(w) && IsHolding(w.device, c) && LivesAt(w.device.tables, Key(Pile, id), text)
    ensures IsSafe(w, c, text)
  {
    hide IsSafe, LivesAt;
    assert PileIsCopied(w, c);
  }

  lemma BringingKeeps(w: World, act: Act)
    requires CanAct(w.device, act) && OneImport(w) && act.Bringing?
    ensures OneImport(After(w, act))
  {
    hide OneImport, IsUnsent, LivesAt;
    var v, source := After(w, act), Connection(act.connection);
    forall c, id, text | IsHolding(w.device, c) && LivesAt(v.device.tables, Key(Pile, id), text)
      ensures IsSafe(v, c, text)
    {
      WithRowsElsewhere(w.device, source, act.rows, act.queue, Key(Pile, id), text);
      WasSafe(w, c, id, text);
      if text.updatedAt <= HeldSince(w.device.states[c]) {
        var k :| HasCopy(w, c, k, text);
        CopyIsLeftAlone(w, act, c, k, id, text);
      }
    }
    StayingKeeps(w, v);
  }

  lemma CopyIsLeftAlone(w: World, act: Act, c: nat, k: Id, id: Id, text: Text)
    requires CanAct(w.device, act) && act.Bringing? && IsHolding(w.device, c)
    requires LivesAt(w.device.tables, Key(Pile, id), text) && HasCopy(w, c, k, text)
    ensures HasCopy(After(w, act), c, k, text)
  {
    hide IsUnsent;
    var source, key := Connection(act.connection), Key(Connection(c), k);
    if c == act.connection {
      assert IsPileText(w.device.tables, text);
      assert IsLeftAlone(w.device, c, k);
    }
    WithRowsLives(w.device, source, act.rows, act.queue, key, text);
  }

  lemma SendingKeeps(w: World, act: Act)
    requires CanAct(w.device, act) && OneImport(w) && act.Sending?
    ensures OneImport(After(w, act))
  {
    hide OneImport, HasCopy;
    var v := After(w, act);
    forall c, id, text | IsHolding(w.device, c) && LivesAt(v.device.tables, Key(Pile, id), text)
      ensures IsSafe(v, c, text)
    {
      assert LivesAt(w.device.tables, Key(Pile, id), text);
      WasSafe(w, c, id, text);
      if text.updatedAt <= HeldSince(w.device.states[c]) {
        var k :| HasCopy(w, c, k, text);
        SentIsCopy(w, act, c, k, text);
      }
    }
    StayingKeeps(w, v);
  }

  /** A note sent whole is there, and sent; one sent as it was before is there, and unsent. */
  lemma SentIsCopy(w: World, act: Act, c: nat, k: Id, text: Text)
    requires CanAct(w.device, act) && act.Sending? && HasCopy(w, c, k, text)
    ensures HasCopy(After(w, act), c, k, text)
  {
    hide NoteFile;
  }

  lemma WritingKeeps(w: World, act: Act)
    requires CanAct(w.device, act) && OneImport(w) && act.Writing?
    ensures OneImport(After(w, act))
  {
    hide OneImport, HasCopy;
    var v := After(w, act);
    forall c, id, text | IsHolding(w.device, c) && LivesAt(v.device.tables, Key(Pile, id), text)
      ensures IsSafe(v, c, text)
    {
      if act.source != Pile || act.id != id {
        assert LivesAt(w.device.tables, Key(Pile, id), text);
        WasSafe(w, c, id, text);
        if text.updatedAt <= HeldSince(w.device.states[c]) {
          var k :| HasCopy(w, c, k, text);
          WrittenElsewhere(w, act, c, k, id, text);
        }
      }
    }
    StayingKeeps(w, v);
  }

  lemma WrittenElsewhere(w: World, act: Act, c: nat, k: Id, id: Id, text: Text)
    requires CanAct(w.device, act) && act.Writing? && IsHolding(w.device, c)
    requires LivesAt(w.device.tables, Key(Pile, id), text) && HasCopy(w, c, k, text)
    ensures HasCopy(After(w, act), c, k, text)
  {
    hide IsUnsent;
    assert IsPileText(w.device.tables, text);
    var rows := RowsOf(w.device.tables, act.source);
    assert act.source == Connection(c) ==> act.id != k;
    WithRowsLives(w.device, act.source, rows.(notes := rows.notes[act.id := act.note]), act.queue, Key(Connection(c), k), text);
  }

  /** An import that ends, or is cancelled, leaves none. */
  lemma EndingKeeps(w: World, act: Act)
    requires CanAct(w.device, act) && OneImport(w) && (act.Finishing? || act.Cancelling?)
    ensures OneImport(After(w, act))
  {
    hide PileIsCopied, ValidFinish, ForgetRows, WrittenSince;
    var d, after, c := w.device, After(w, act), act.connection;
    if act.Finishing? && CanFinish(d, c) {
      FinishUnfolds(d, c, act.links, act.landing, act.owes);
      NoneElse(w, after, c);
    } else if act.Finishing? {
      FinishRefused(d, act);
    } else if after.device != d {
      NoneElse(w, after, c);
    }
  }

  lemma NoneElse(w: World, v: World, c: nat)
    requires OneImport(w) && IsHolding(w.device, c)
    requires forall b :: b in v.device.states && b != c ==> b in w.device.states && v.device.states[b] == w.device.states[b]
    requires c in v.device.states ==> v.device.states[c].importing.None?
    ensures OneImport(v)
  {
    hide PileIsCopied;
    forall b | b in v.device.states
      ensures !HoldsPile(v.device.states[b])
      ensures v.device.states[b].importing.Some? ==> IsLiveSource(v.device.states[b])
    {
      assert b != c && HoldsPile(v.device.states[b]) ==> IsHolding(w.device, b);
    }
  }

  lemma FinishRefused(d: Device, act: Act)
    requires CanAct(d, act) && act.Finishing? && !CanFinish(d, act.connection)
    ensures DeviceAfter(d, act) == d
  {}

  /** While acts go on, the pile of an import is always copied. */
  lemma ActKeepsImporting(w: World, act: Act)
    requires CanAct(w.device, act) && OneImport(w)
    ensures OneImport(After(w, act)) && w.sent <= After(w, act).sent
  {
    hide OneImport, IsEnabled, Step, ValidFinish, WritesSafely, BindsSafely, BringsSafely, SendsSafely;
    match act {
      case Doing(e) => DoingKeeps(w, e);
      case Bringing(_, _, _) => BringingKeeps(w, act);
      case Sending(_, _, _, _, _, _) => SendingKeeps(w, act);
      case Writing(_, _, _, _) => WritingKeeps(w, act);
      case Finishing(_, _, _, _) => EndingKeeps(w, act);
      case Cancelling(_) => EndingKeeps(w, act);
    }
  }

  // ----- What becomes of a text --------------------------------------------------------

  /** Where an unsent text is: unsent still, or sent from a source; or the user has let it go. */
  datatype Fate = StillUnsent(key: Key) | Sent(connection: nat) | LetGo

  ghost predicate Holds(w: World, fate: Fate, text: Text) {
    match fate
    case StillUnsent(key) => IsUnsentAt(w.device.tables, key) && LivesAt(w.device.tables, key, text)
    case Sent(c) => (c, text) in w.sent
    case LetGo => true
  }

  ghost predicate IsUnsentCopy(t: Tables, key: Key, text: Text) {
    IsUnsentAt(t, key) && LivesAt(t, key, text)
  }

  /** An unsent note of a source with this text, where there is one. */
  ghost function UnsentIn(t: Tables, source: Source, text: Text, otherwise: Fate): Fate {
    if exists k :: IsUnsentCopy(t, Key(source, k), text) then
      var k :| IsUnsentCopy(t, Key(source, k), text);
      StillUnsent(Key(source, k))
    else otherwise
  }

  ghost function FateThen(d: Device, act: Act, key: Key): Fate
    requires CanAct(d, act) && IsUnsentAt(d.tables, key)
  {
    match act
    case Doing(e) => if IsLetGo(d, e, key) then LetGo else StillUnsent(KeyNow(d, e, key))
    case Bringing(_, _, _) => StillUnsent(key)
    case Sending(c, _, _, _, _, _) => if IsSent(d, act, key) then Sent(c) else StillUnsent(key)
    case Writing(source, id, _, _) => if key == Key(source, id) then LetGo else StillUnsent(key)
    case Finishing(c, links, landing, _) =>
      if !CanFinish(d, c) || key.source != Pile then StillUnsent(key)
      else if key.id in LateNotes(d, c) then StillUnsent(KeyAfter(d.tables, LateMove(d, c, links), landing, key))
      else UnsentIn(d.tables, Connection(c), TextOf(NoteAt(d.tables, key)), Sent(c))
    case Cancelling(c) =>
      if AbandonImport(d, c).1 != Abandoned || key.source != Connection(c) then StillUnsent(key)
      else UnsentIn(d.tables, Pile, TextOf(NoteAt(d.tables, key)), LetGo)
  }

  lemma PileForgotten(t: Tables, key: Key, text: Text)
    requires key.source != Pile
    ensures LivesAt(ForgetRows(t, Pile), key, text) <==> LivesAt(t, key, text)
    ensures IsUnsentAt(ForgetRows(t, Pile), key) <==> IsUnsentAt(t, key)
  {}

  /** The late notes going in leave every note of a source where it is. */
  lemma LateStands(d: Device, c: nat, links: Links, p: Plan, owes: seq<Owe>, key: Key, text: Text)
    requires CanFinish(d, c) && ValidFinish(d, c, links, p, owes) && key.source != Pile
    requires LivesAt(d.tables, key, text)
    ensures LivesAt(LateTables(d, c, links, p, owes), key, text)
    ensures IsUnsentAt(d.tables, key) ==> IsUnsentAt(LateTables(d, c, links, p, owes), key)
  {
    hide MoveRowsTo, ValidPlan, WellFormed, QueueAll, LinkedRows, IsUnsent, LateNotes, RowsStand, Left, Arrived;
    if LateNotes(d, c) != {} {
      var m := LateMove(d, c, links);
      var u := MoveRowsTo(d.tables, m, p).tables;
      if key.source == m.target {
        MoveStands(d.tables, m, p);
        RowStands(RowsOf(d.tables, key.source), RowsOf(u, key.source), key.id);
      } else {
        OthersAreUntouched(d.tables, m, p, key.source);
      }
    }
  }

  lemma RowStands(before: Rows, after: Rows, id: Id)
    requires RowsStand(before, after) && id in before.notes
    ensures id in after.notes && after.notes[id] == before.notes[id]
  {}

  lemma LateArrives(d: Device, c: nat, links: Links, p: Plan, owes: seq<Owe>, key: Key)
    requires CanFinish(d, c) && ValidFinish(d, c, links, p, owes) && IsUnsentAt(d.tables, key)
    requires key.source == Pile && key.id in LateNotes(d, c)
    ensures var to, t := KeyAfter(d.tables, LateMove(d, c, links), p, key), LateTables(d, c, links, p, owes);
            to.source == Connection(c) && IsUnsentAt(t, to) && LivesAt(t, to, TextOf(NoteAt(d.tables, key)))
  {
    hide MoveRowsTo, ValidPlan, WellFormed, QueueAll, LinkedRows, IsUnsent, LateNotes;
    var m := LateMove(d, c, links);
    MoveKeepsText(d.tables, m, p, key);
    LateGoes(d, c, links, p, key.id);
    NoteArrives(d.tables, m, p, key.id);
    TextIs(LateTables(d, c, links, p, owes), KeyAfter(d.tables, m, p, key), NoteAt(d.tables, key));
  }

  /**
    A finish loses the text of no note of the pile: late, it goes into the source unsent;
    otherwise a note of the source has it, unsent or sent.
   */
  lemma FinishKeepsPile(w: World, act: Act, key: Key)
    requires CanAct(w.device, act) && OneImport(w) && act.Finishing? && CanFinish(w.device, act.connection)
    requires IsUnsentAt(w.device.tables, key) && key.source == Pile
    ensures var text := TextOf(NoteAt(w.device.tables, key));
            && (exists k :: LivesAt(After(w, act).device.tables, Key(Connection(act.connection), k), text))
            && FateThen(w.device, act, key) != LetGo && Holds(After(w, act), FateThen(w.device, act, key), text)
  {
    var d, c, text := w.device, act.connection, TextOf(NoteAt(w.device.tables, key));
    UnsentLives(d.tables, key);
    WasSafe(w, c, key.id, text);
    LateIs(d, c, key);
    hide ValidFinish, OneImport, FinishImport, LateNotes, LivesAt, IsUnsentAt, LateTables, ForgetRows;
    if key.id in LateNotes(d, c) {
      LateIsKept(w, act, key);
    } else {
      var k :| HasCopy(w, c, k, text);
      CopyIsKept(w, act, key, k);
    }
  }

  lemma LateIsKept(w: World, act: Act, key: Key)
    requires CanAct(w.device, act) && act.Finishing? && CanFinish(w.device, act.connection)
    requires IsUnsentAt(w.device.tables, key) && key.source == Pile && key.id in LateNotes(w.device, act.connection)
    ensures var fate, text := FateThen(w.device, act, key), TextOf(NoteAt(w.device.tables, key));
            && fate.StillUnsent? && fate.key.source == Connection(act.connection) && Holds(After(w, act), fate, text)
            && LivesAt(After(w, act).device.tables, Key(Connection(act.connection), fate.key.id), text)
  {
    var d, c, links, landing, owes := w.device, act.connection, act.links, act.landing, act.owes;
    FinishUnfolds(d, c, links, landing, owes);
    LateArrives(d, c, links, landing, owes, key);
    PileForgotten(LateTables(d, c, links, landing, owes), FateThen(d, act, key).key, TextOf(NoteAt(d.tables, key)));
    hide ValidFinish, FinishImport, LateNotes, LivesAt, IsUnsentAt, LateTables, ForgetRows;
  }

  lemma CopyIsKept(w: World, act: Act, key: Key, k: Id)
    requires CanAct(w.device, act) && act.Finishing? && CanFinish(w.device, act.connection)
    requires IsUnsentAt(w.device.tables, key) && key.source == Pile && key.id !in LateNotes(w.device, act.connection)
    requires HasCopy(w, act.connection, k, TextOf(NoteAt(w.device.tables, key)))
    ensures var fate, text := FateThen(w.device, act, key), TextOf(NoteAt(w.device.tables, key));
            && fate != LetGo && Holds(After(w, act), fate, text)
            && LivesAt(After(w, act).device.tables, Key(Connection(act.connection), k), text)
  {
    var d, c, links, landing, owes := w.device, act.connection, act.links, act.landing, act.owes;
    var text, late := TextOf(NoteAt(d.tables, key)), LateTables(d, c, links, landing, owes);
    FinishUnfolds(d, c, links, landing, owes);
    hide ValidFinish, FinishImport, LateNotes, LivesAt, IsUnsentAt, LateTables, ForgetRows;
    LateStands(d, c, links, landing, owes, Key(Connection(c), k), text);
    PileForgotten(late, Key(Connection(c), k), text);
    var fate := FateThen(d, act, key);
    if fate.StillUnsent? {
      LateStands(d, c, links, landing, owes, fate.key, text);
      PileForgotten(late, fate.key, text);
    } else {
      assert !IsUnsentCopy(d.tables, Key(Connection(c), k), text);
    }
  }

  lemma UnsentLives(t: Tables, key: Key)
    requires IsUnsentAt(t, key)
    ensures LivesAt(t, key, TextOf(NoteAt(t, key)))
  {}

  lemma LateIs(d: Device, c: nat, key: Key)
    requires c in d.states && IsUnsentAt(d.tables, key) && key.source == Pile
    ensures key.id in LateNotes(d, c) <==> TextOf(NoteAt(d.tables, key)).updatedAt > HeldSince(d.states[c])
  {}

  lemma FinishKeepsRest(w: World, act: Act, key: Key)
    requires CanAct(w.device, act) && act.Finishing? && CanFinish(w.device, act.connection)
    requires IsUnsentAt(w.device.tables, key) && key.source != Pile
    ensures Holds(After(w, act), StillUnsent(key), TextOf(NoteAt(w.device.tables, key)))
  {
    var d, c, links, landing, owes := w.device, act.connection, act.links, act.landing, act.owes;
    var text := TextOf(NoteAt(d.tables, key));
    FinishUnfolds(d, c, links, landing, owes);
    UnsentLives(d.tables, key);
    hide ValidFinish, FinishImport, LivesAt, IsUnsentAt, LateTables, ForgetRows;
    LateStands(d, c, links, landing, owes, key, text);
    PileForgotten(LateTables(d, c, links, landing, owes), key, text);
  }

  lemma CancelKeepsText(w: World, act: Act, key: Key)
    requires CanAct(w.device, act) && IsUnsentAt(w.device.tables, key) && act.Cancelling?
    ensures Holds(After(w, act), FateThen(w.device, act, key), TextOf(NoteAt(w.device.tables, key)))
  {
    hide WrittenSince, OpsNotOf;
    var d, c := w.device, act.connection;
    if AbandonImport(d, c).1 == Abandoned {
      assert DeviceAfter(d, act).tables == ForgetRows(d.tables, Connection(c));
    }
  }

  lemma DoingKeepsText(w: World, e: Event, key: Key)
    requires CanAct(w.device, Doing(e)) && IsUnsentAt(w.device.tables, key)
    ensures Holds(After(w, Doing(e)), FateThen(w.device, Doing(e), key), TextOf(NoteAt(w.device.tables, key)))
  {
    hide IsEnabled, Step, KeyNow, IsLetGo, LivesAt, IsUnsent, TextIsAt;
    if !IsLetGo(w.device, e, key) {
      StepKeepsText(w.device, e, key);
      TextIs(Step(w.device, e).tables, KeyNow(w.device, e, key), NoteAt(w.device.tables, key));
    }
  }

  lemma BringingKeepsText(w: World, act: Act, key: Key)
    requires CanAct(w.device, act) && IsUnsentAt(w.device.tables, key) && act.Bringing?
    ensures Holds(After(w, act), FateThen(w.device, act, key), TextOf(NoteAt(w.device.tables, key)))
  {
    UnsentLives(w.device.tables, key);
    if key.source == Connection(act.connection) {
      assert IsLeftAlone(w.device, act.connection, key.id);
    }
    WithRowsLives(w.device, Connection(act.connection), act.rows, act.queue, key, TextOf(NoteAt(w.device.tables, key)));
    hide LivesAt, IsUnsent;
  }

  lemma SendingKeepsText(w: World, act: Act, key: Key)
    requires CanAct(w.device, act) && IsUnsentAt(w.device.tables, key) && act.Sending?
    ensures Holds(After(w, act), FateThen(w.device, act, key), TextOf(NoteAt(w.device.tables, key)))
  {
    hide NoteFile;
  }

  lemma WritingKeepsText(w: World, act: Act, key: Key)
    requires CanAct(w.device, act) && IsUnsentAt(w.device.tables, key) && act.Writing?
    ensures Holds(After(w, act), FateThen(w.device, act, key), TextOf(NoteAt(w.device.tables, key)))
  {
    hide WritesSafely;
  }

  /**
    After any act of a device with one import at a time, the text of every note the remote
    was never sent is unsent in a note there, or has been sent from the source that has it
    — unless the user let it go, wrote over it, or cancelled a source that alone had it.
   */
  lemma ActKeepsText(w: World, act: Act, key: Key)
    requires CanAct(w.device, act) && OneImport(w) && IsUnsentAt(w.device.tables, key)
    ensures Holds(After(w, act), FateThen(w.device, act, key), TextOf(NoteAt(w.device.tables, key)))
  {
    if act.Doing? {
      DoingKeepsText(w, act.event, key);
    } else if act.Cancelling? {
      CancelKeepsText(w, act, key);
    } else if act.Bringing? {
      BringingKeepsText(w, act, key);
    } else if act.Sending? {
      SendingKeepsText(w, act, key);
    } else if act.Writing? {
      WritingKeepsText(w, act, key);
    } else if !CanFinish(w.device, act.connection) {
      FinishRefused(w.device, act);
      UnsentLives(w.device.tables, key);
      hide CanAct, DeviceAfter, LivesAt, IsUnsentAt;
    } else if key.source == Pile {
      FinishKeepsPile(w, act, key);
    } else {
      FinishKeepsRest(w, act, key);
    }
  }

  // ----- Every run ---------------------------------------------------------------------

  ghost predicate CanActAll(w: World, acts: seq<Act>)
    decreases |acts|
  {
    acts == [] || (CanAct(w.device, acts[0]) && CanActAll(After(w, acts[0]), acts[1..]))
  }

  ghost function AfterAll(w: World, acts: seq<Act>): World
    requires CanActAll(w, acts)
    decreases |acts|
  {
    if acts == [] then w else AfterAll(After(w, acts[0]), acts[1..])
  }

  /** What becomes of an unsent note over a run. */
  ghost function FateAtLast(w: World, acts: seq<Act>, key: Key): Fate
    requires CanActAll(w, acts)
    decreases |acts|
  {
    if acts == [] then StillUnsent(key)
    else if !IsUnsentAt(w.device.tables, key) then LetGo
    else
      var next := FateThen(w.device, acts[0], key);
      if next.StillUnsent? then FateAtLast(After(w, acts[0]), acts[1..], next.key) else next
  }

  /**
    Over any run with one import at a time, the pile of an import is always copied, and the
    text of every unsent note is unsent there still, or has been sent from the source that
    had it — unless the user let it go, wrote over it, or cancelled a source that alone had it.
   */
  lemma {:induction false} ImportsKeepText(w: World, acts: seq<Act>, key: Key)
    requires CanActAll(w, acts) && OneImport(w) && IsUnsentAt(w.device.tables, key)
    ensures OneImport(AfterAll(w, acts)) && w.sent <= AfterAll(w, acts).sent
    ensures Holds(AfterAll(w, acts), FateAtLast(w, acts, key), TextOf(NoteAt(w.device.tables, key)))
    decreases |acts|
  {
    hide CanAct, After, FateThen, OneImport, IsUnsentAt, LivesAt;
    UnsentLives(w.device.tables, key);
    if acts != [] {
      var next, v := FateThen(w.device, acts[0], key), After(w, acts[0]);
      ActKeepsImporting(w, acts[0]);
      ActKeepsText(w, acts[0], key);
      if next.StillUnsent? {
        LivesOnce(v.device.tables, next.key, TextOf(NoteAt(w.device.tables, key)));
        ImportsKeepText(v, acts[1..], next.key);
      } else {
        RunStaysImporting(v, acts[1..]);
      }
    }
  }

  lemma {:induction false} RunStaysImporting(w: World, acts: seq<Act>)
    requires CanActAll(w, acts) && OneImport(w)
    ensures OneImport(AfterAll(w, acts)) && w.sent <= AfterAll(w, acts).sent
    decreases |acts|
  {
    hide CanAct, After, OneImport;
    if acts != [] {
      ActKeepsImporting(w, acts[0]);
      RunStaysImporting(After(w, acts[0]), acts[1..]);
    }
  }
}
