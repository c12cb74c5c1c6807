/**
  The life of a storage source on a device: bound, resumed, imported, cancelled,
  detached, released, and its unsent work moved to another
  (apps/web/src/store/connection.ts). Each operation is one transaction.
 */
module Sources {
  import opened Options
  import opened Paths
  import opened Naming
  import opened Library
  import opened MoveNotes
  import opened MoveRows
  import opened MoveKeeps
  import opened Unsynced

  datatype Reason = Disconnected | Revoked | Interrupted
  datatype Detached = Detached(at: int, reason: Reason)

  /** A first import in progress: whether the app is held, and what was in front before. */
  datatype Importing = Importing(lock: bool, returnTo: Source)

  datatype State = State(
    provider: Option<string>, accountId: Option<string>, resumeUnverified: bool,
    detached: Option<Detached>, boundAt: Option<int>, importing: Option<Importing>)

  datatype Device = Device(tables: Tables, states: map<nat, State>, active: Option<Source>, bindings: nat)

  predicate IsLiveSource(state: State) {
    state.detached.None?
  }

  /** Importing and not detached: while some source is, no bind copies the pile. */
  predicate HoldsPile(state: State) {
    state.importing.Some? && IsLiveSource(state)
  }

  /** `activeConnectionId`: the source chosen while it is there, and otherwise any there is. */
  ghost predicate IsShowing(d: Device, source: Source) {
    if d.active.Some? && (d.active.value.Pile? || d.active.value.id in d.states) then source == d.active.value
    else if d.states == map[] then source == Pile
    else source.Connection? && source.id in d.states
  }

  predicate UnchangedSince(d: Device, since: Option<nat>) {
    since.None? || since.value == d.bindings
  }

  /** Every row a source holds, and every op queued for it. */
  function ForgetRows(t: Tables, source: Source): Tables {
    Tables(t.rows - {source}, OpsNotOf(t.ops, source))
  }

  function OpsNotOf(ops: seq<Op>, source: Source): (kept: seq<Op>)
    ensures forall op :: op in kept <==> op in ops && op.source != source
  {
    if ops == [] then []
    else (if ops[0].source == source then [] else [ops[0]]) + OpsNotOf(ops[1..], source)
  }

  /** The device without a state for the source, which is no longer the one chosen. */
  function ForgetSource(d: Device, c: nat): Device {
    d.(states := d.states - {c}, active := if d.active == Some(Connection(c)) then None else d.active)
  }

  // ----- Binding -----------------------------------------------------------------------

  datatype BindInput = BindInput(connection: nat, provider: string, accountId: Option<string>, since: Option<nat>)

  /** What a bind leaves to chance: the order of what goes home, how rows land, what is shown, the time. */
  datatype BindPlan = BindPlan(
    homes: seq<nat>, resumes: map<nat, Plan>, copy: Plan, owes: seq<Owe>, showing: Source, now: int)

  /** The detached sources that were the same account, under whatever id. */
  function Homes(d: Device, input: BindInput): set<nat> {
    set c | c in d.states && !IsLiveSource(d.states[c]) && c != input.connection
            && d.states[c].provider == Some(input.provider)
            && input.accountId.Some? && d.states[c].accountId == input.accountId
  }

  function Together(a: Owed, b: Owed): Owed {
    Owed(a.notes + b.notes, a.folders + b.folders, a.files + b.files, a.linked || b.linked)
  }

  function Homeward(from: nat, target: nat): Move {
    Move(Connection(target), Resume, Connection(from), Everything, false)
  }

  ghost predicate ValidResumes(t: Tables, target: nat, homes: seq<nat>, plans: map<nat, Plan>)
    decreases |homes|
  {
    homes == [] ||
    (&& homes[0] in plans
     && CanMove(t, Homeward(homes[0], target), plans[homes[0]])
     && ValidResumes(MoveRowsTo(t, Homeward(homes[0], target), plans[homes[0]]).tables, target, homes[1..], plans))
  }

  /** The account's own rows first, one source after another. */
  function ResumeAll(t: Tables, target: nat, homes: seq<nat>, plans: map<nat, Plan>): Moved
    requires ValidResumes(t, target, homes, plans)
    decreases |homes|
  {
    if homes == [] then Moved(t, NOTHING_OWED)
    else
      var first := MoveRowsTo(t, Homeward(homes[0], target), plans[homes[0]]);
      var rest := ResumeAll(first.tables, target, homes[1..], plans);
      Moved(rest.tables, Together(first.owed, rest.owed))
  }

  /** The rows of a source that name nothing on the remote, but for files an upload is queued for. */
  function OwedInPlace(t: Tables, source: Source): Owed {
    var rows := RowsOf(t, source);
    Owed(
      (set id | id in rows.notes && IsLive(rows.notes[id]) && rows.notes[id].remoteId.None?),
      (set path | path in rows.folders && rows.folders[path].remoteId.None?),
      (set id | id in rows.files && rows.files[id].remoteId.None? && id !in FilesWith(t.ops, source, Upload)),
      || (exists id :: id in rows.notes && rows.notes[id].remoteId.Some?)
      || (exists path :: path in rows.folders && rows.folders[path].remoteId.Some?)
      || (exists id :: id in rows.files && rows.files[id].remoteId.Some?))
  }

  /** No state is kept for the connection, and no detached source of its account is there. */
  predicate IsFirstBinding(d: Device, input: BindInput) {
    Homes(d, input) == {} && input.connection !in d.states
  }

  predicate PileIsHeld(d: Device) {
    exists c :: c in d.states && HoldsPile(d.states[c])
  }

  /** The device's own rows, kept as they are while a first import could still be cancelled. */
  function PileMove(d: Device, input: BindInput): Move {
    Move(Connection(input.connection), Copy, Pile, Everything, IsFirstBinding(d, input))
  }

  function Waiting(d: Device, input: BindInput, t: Tables): Owed {
    if input.connection in d.states && !IsLiveSource(d.states[input.connection]) then OwedInPlace(t, Connection(input.connection))
    else NOTHING_OWED
  }

  /** The rows as a bind leaves them, and everything owed, before it is queued. */
  function Gathered(d: Device, input: BindInput, p: BindPlan): Moved
    requires ValidResumes(d.tables, input.connection, p.homes, p.resumes)
    requires !PileIsHeld(d) ==>
               CanMove(ResumeAll(d.tables, input.connection, p.homes, p.resumes).tables, PileMove(d, input), p.copy)
  {
    var resumed := ResumeAll(d.tables, input.connection, p.homes, p.resumes);
    var waiting := Waiting(d, input, resumed.tables);
    var copied := if PileIsHeld(d) then Moved(resumed.tables, NOTHING_OWED) else MoveRowsTo(resumed.tables, PileMove(d, input), p.copy);
    Moved(copied.tables, Together(Together(resumed.owed, waiting), copied.owed))
  }

  ghost predicate ValidBind(d: Device, input: BindInput, p: BindPlan) {
    && Enumerates(p.homes, Homes(d, input))
    && ValidResumes(d.tables, input.connection, p.homes, p.resumes)
    && (!PileIsHeld(d) ==>
          CanMove(ResumeAll(d.tables, input.connection, p.homes, p.resumes).tables, PileMove(d, input), p.copy))
    && Enumerates(p.owes, OwesOf(RowsOf(Gathered(d, input, p).tables, Connection(input.connection)), Gathered(d, input, p).owed))
    && IsShowing(d, p.showing)
  }

  /** The source's row as a bind writes it. */
  function BoundState(d: Device, input: BindInput, p: BindPlan, linked: bool): State {
    var current := if input.connection in d.states then Some(d.states[input.connection]) else None;
    State(
      Some(input.provider),
      if input.accountId.Some? || current.None? then input.accountId else current.value.accountId,
      linked || (current.Some? && current.value.resumeUnverified),
      None,
      Some(p.now),
      if IsFirstBinding(d, input) then Some(Importing(true, p.showing))
      else if current.Some? then current.value.importing else None)
  }

  function Bind(d: Device, input: BindInput, p: BindPlan): Device
    requires UnchangedSince(d, input.since) ==> ValidBind(d, input, p)
  {
    if !UnchangedSince(d, input.since) then d
    else
      hide CanMove, ValidResumes, ResumeAll, MoveRowsTo, QueueAll;
      var gathered := Gathered(d, input, p);
      Device(
        gathered.tables.(ops := QueueAll(gathered.tables.ops, Connection(input.connection), p.owes)),
        (d.states - Homes(d, input))[input.connection := BoundState(d, input, p, gathered.owed.linked)],
        Some(Connection(input.connection)),
        d.bindings + 1)
  }

  // ----- A resume turned into a copy ---------------------------------------------------

  function CutNote(id: Id, note: Note): Note {
    WithoutRemote(Pinned(id, note)).(dirty := true)
  }

  predicate FileStays(rows: Rows, id: Id)
    requires id in rows.files
  {
    rows.files[id].remoteId.None? || (id in rows.bytes && HeldIsCurrent(rows.files[id], rows.bytes[id]))
  }

  function CutRows(rows: Rows): Rows {
    var files := map id | id in rows.files && FileStays(rows, id) ::
      if rows.files[id].remoteId.None? then rows.files[id] else File(rows.files[id].path, None, None, rows.files[id].size);
    Rows(
      map id | id in rows.notes && IsLive(rows.notes[id]) :: CutNote(id, rows.notes[id]),
      map path | path in rows.folders :: rows.folders[path].(remoteId := None),
      files,
      map id | id in rows.bytes && (id !in rows.files || id in files) ::
        if id !in rows.files || rows.files[id].remoteId.None? then rows.bytes[id] else Held(rows.bytes[id].bytes, None, true))
  }

  function OnlyUploads(ops: seq<Op>, source: Source): (kept: seq<Op>)
    ensures forall op :: op in kept <==> op in ops && (op.source != source || op.kind == Upload)
  {
    if ops == [] then []
    else (if ops[0].source == source && ops[0].kind != Upload then [] else [ops[0]]) + OnlyUploads(ops[1..], source)
  }

  /** `cutLoose`: in place, every row of a source cut from the file it names. */
  function CutLoose(t: Tables, source: Source): Moved {
    var rows := CutRows(RowsOf(t, source));
    Moved(Tables(t.rows[source := rows], OnlyUploads(t.ops, source)),
          Owed(rows.notes.Keys, rows.folders.Keys, rows.files.Keys, false))
  }

  /** What `verifyResume` writes once it has asked: the rows stand, or are cut loose and owed. */
  function VerifyResume(d: Device, c: nat, found: bool, owes: seq<Owe>): Device
    requires c in d.states
  {
    var verified := d.states[c := d.states[c].(resumeUnverified := false)];
    if found then d.(states := verified)
    else
      var cut := CutLoose(d.tables, Connection(c));
      Device(cut.tables.(ops := QueueAll(cut.tables.ops, Connection(c), owes)), verified, d.active, d.bindings + 1)
  }

  datatype Verdict = Resumed | Copied | Superseded

  /** Whether an answer is still about the source it was asked for: no bind, move or cancel has come between. */
  predicate StillAsked(d: Device, c: nat, since: nat) {
    since == d.bindings && c in d.states
  }

  /** `verifyResume`: an answer come too late changes nothing, and says so. */
  function Verify(d: Device, c: nat, since: nat, found: bool, owes: seq<Owe>): (Device, Verdict) {
    if !StillAsked(d, c, since) then (d, Superseded)
    else (VerifyResume(d, c, found, owes), if found then Resumed else Copied)
  }

  // ----- Letting a source go -----------------------------------------------------------

  /** What `keepOnly` keeps: the notes named, and the files and notebooks they need. */
  datatype Keeping = Keeping(unsent: Unsent, staying: set<Id>, listed: set<Id>, links: Links)

  function KeptFiles(t: Tables, source: Source, k: Keeping): set<Id> {
    var rows := RowsOf(t, source);
    var live := set id | id in k.staying && id in rows.notes && IsLive(rows.notes[id]);
    var linked := LinkedPaths(rows.notes, live, k.links);
    set id | id in rows.files
             && (id in k.listed || id in FilesWith(t.ops, source, MoveFile) || FoldPath(rows.files[id].path) in linked)
  }

  /** Every folded path of a notebook something kept is in, or is. */
  function NeededFolders(t: Tables, source: Source, k: Keeping): set<string> {
    var rows := RowsOf(t, source);
    var above := (set path, each | path in k.unsent.folders && each in AncestorPaths(path) + [path] :: FoldPath(each));
    var notes := (set id, each | id in k.staying && id in rows.notes && IsLive(rows.notes[id])
                                 && each in AncestorPaths(rows.notes[id].path) :: FoldPath(each));
    var files := (set id, each | id in KeptFiles(t, source, k) && id in rows.files
                                 && each in AncestorPaths(rows.files[id].path) :: FoldPath(each));
    above + notes + files
  }

  predicate OpStays(t: Tables, source: Source, k: Keeping, op: Op) {
    || op.source != source
    || op.kind == Rmdir || op.kind == DeleteFile
    || (if op.fileId.Some? then op.fileId.value in KeptFiles(t, source, k)
        else if op.kind == Mkdir then FoldPath(op.path) in (set path | path in k.unsent.folders :: FoldPath(path))
        else op.noteId.Some? && op.noteId.value in k.staying)
  }

  function OpsStaying(t: Tables, source: Source, k: Keeping, ops: seq<Op>): (kept: seq<Op>)
    ensures forall op :: op in kept <==> op in ops && OpStays(t, source, k, op)
  {
    if ops == [] then []
    else (if OpStays(t, source, k, ops[0]) then [ops[0]] else []) + OpsStaying(t, source, k, ops[1..])
  }

  function KeepOnly(t: Tables, source: Source, k: Keeping): Tables {
    var rows := RowsOf(t, source);
    var kept := KeptFiles(t, source, k);
    var needed := NeededFolders(t, source, k);
    Tables(
      t.rows[source := Rows(
        map id | id in rows.notes && id in k.staying :: rows.notes[id],
        map path | path in rows.folders && FoldPath(path) in needed :: rows.folders[path],
        map id | id in rows.files && id in kept :: rows.files[id],
        rows.bytes - (rows.files.Keys - kept))],
      OpsStaying(t, source, k, t.ops))
  }

  /** A source's row, detached: whose it was is kept, what reached the remote goes. */
  function DetachedFrom(state: State, reason: Reason, now: int): State {
    State(state.provider, state.accountId, state.resumeUnverified,
          if state.detached.Some? then state.detached else Some(Detached(now, reason)), None, None)
  }

  function Unverified(d: Device, c: nat): bool {
    c in d.states && d.states[c].resumeUnverified
  }

  function HeldIn(t: Tables, source: Source, holding: set<Id>): set<Id> {
    RowsOf(t, source).notes.Keys * holding
  }

  /** `detachConnection`: what the remote was never sent stays, under a source marked as detached. */
  function Detach(d: Device, c: nat, reason: Reason, holding: set<Id>, since: Option<nat>, links: Links, now: int): Device {
    var source := Connection(c);
    if !UnchangedSince(d, since) || c !in d.states then d
    else
      var unsent := UnsyncedIn(d.tables, source, Unverified(d, c));
      var heldOnly := HeldIn(d.tables, source, holding) - Listed(unsent);
      if IsEmpty(unsent) && heldOnly == {} then
        ForgetSource(d.(tables := ForgetRows(d.tables, source), bindings := d.bindings + 1), c)
      else
        Device(
          KeepOnly(d.tables, source, Keeping(unsent, Listed(unsent) + heldOnly, unsent.files, links)),
          d.states[c := DetachedFrom(d.states[c], reason, now)], d.active, d.bindings + 1)
  }

  datatype Outcome = Released | StaysDetached | Holding | Reconnected | NoTarget | IsUnverified | NothingToMove

  datatype Answer = Answer(device: Device, outcome: Outcome)

  /** A release or a move that keeps the source: the unsent notes not shown as they stand stay, and those editors hold. */
  function KeepUnseen(d: Device, c: nat, seen: Seen, holding: set<Id>, links: Links, now: int): Answer
    requires c in d.states
  {
    var source := Connection(c);
    var unsent := UnsyncedIn(d.tables, source, Unverified(d, c));
    var held := HeldIn(d.tables, source, holding);
    var staying := UnseenNotes(d.tables, source, unsent, seen) + held;
    Answer(
      d.(tables := KeepOnly(d.tables, source, Keeping(unsent, staying, unsent.files - seen.files, links)),
         states := d.states[c := DetachedFrom(d.states[c], Disconnected, now)]),
      if held != {} then Holding else StaysDetached)
  }

  /** `releaseConnection`: only what was shown, as it was shown, is discarded. */
  function Release(d: Device, c: nat, seen: Seen, holding: set<Id>, links: Links, now: int): Answer {
    var source := Connection(c);
    if c !in d.states then Answer(d, Released)
    else if IsLiveSource(d.states[c]) then Answer(d, Reconnected)
    else
      var unsent := UnsyncedIn(d.tables, source, Unverified(d, c));
      var counted := d.(bindings := d.bindings + 1);
      if UnseenIn(d.tables, source, unsent, seen) || HeldIn(d.tables, source, holding) != {} then
        KeepUnseen(counted, c, seen, holding, links, now)
      else
        Answer(ForgetSource(counted.(tables := ForgetRows(d.tables, source)), c), Released)
  }

  // ----- Moving unsent work ------------------------------------------------------------

  /** The notes a move takes: the unsent ones shown, as they were shown, and held by no editor. */
  function MovingNotes(t: Tables, source: Source, u: Unsent, seen: Seen, holding: set<Id>): set<Id> {
    set id | id in u.notes && id in RowsOf(t, source).notes && WasSeen(seen, id, RowsOf(t, source).notes[id]) && id !in holding
  }

  /** The files that go with them: the ones shown and the ones they link, where their bytes are here. */
  function MovingFiles(t: Tables, source: Source, shown: set<Id>, notes: set<Id>, links: Links): set<Id> {
    var rows := RowsOf(t, source);
    set id | id in shown + LinkedRows(t, source, notes, links) && id in rows.files && id in rows.bytes
             && HeldIsCurrent(rows.files[id], rows.bytes[id])
  }

  /** Every notebook above what goes, and the ones shown. */
  function MovingFolders(t: Tables, source: Source, notes: set<Id>, shown: set<string>, files: set<Id>): set<string> {
    var rows := RowsOf(t, source);
    (set id, each | id in notes && id in rows.notes && each in AncestorPaths(rows.notes[id].path) :: each)
    + (set path, each | path in shown && each in AncestorPaths(path) + [path] :: each)
    + (set id, each | id in files && id in rows.files && each in AncestorPaths(rows.files[id].path) :: each)
  }

  datatype MoveInput = MoveInput(from: nat, target: nat, seen: Seen, holding: set<Id>, links: Links, now: int)

  function MovingUnsent(d: Device, input: MoveInput): Unsent {
    UnsyncedIn(d.tables, Connection(input.from), Unverified(d, input.from))
  }

  /** The move a move of unsent work makes. */
  function UnsentMove(d: Device, input: MoveInput): Move {
    var source := Connection(input.from);
    var unsent := MovingUnsent(d, input);
    var notes := MovingNotes(d.tables, source, unsent, input.seen, input.holding);
    var folders := unsent.folders * input.seen.folders;
    var files := MovingFiles(d.tables, source, unsent.portable * input.seen.files, notes, input.links);
    Move(Connection(input.target), Copy, source,
         Named(notes, MovingFolders(d.tables, source, notes, folders, files), files), false)
  }

  /** Why a move of unsent work is refused, having changed nothing. */
  function Refusal(d: Device, input: MoveInput): Option<Outcome> {
    var source := Connection(input.from);
    if input.from !in d.states then Some(Released)
    else if IsLiveSource(d.states[input.from]) then Some(Reconnected)
    else if input.target == input.from || input.target !in d.states || !IsLiveSource(d.states[input.target]) then Some(NoTarget)
    else
      var unsent := MovingUnsent(d, input);
      if unsent.unverified then Some(IsUnverified)
      else if MovingNotes(d.tables, source, unsent, input.seen, input.holding) == {}
              && unsent.folders * input.seen.folders == {} && unsent.portable * input.seen.files == {} then
        Some(if UnseenIn(d.tables, source, unsent, input.seen) then StaysDetached else NothingToMove)
      else None
  }

  ghost predicate ValidMove(d: Device, input: MoveInput, p: Plan, owes: seq<Owe>) {
    && CanMove(d.tables, UnsentMove(d, input), p)
    && var moved := MoveRowsTo(d.tables, UnsentMove(d, input), p);
       Enumerates(owes, OwesOf(RowsOf(moved.tables, Connection(input.target)), moved.owed))
  }

  /** `moveUnsyncedTo`: what the user was shown is copied into the target named; the rest is kept or let go. */
  function MoveUnsyncedTo(d: Device, input: MoveInput, p: Plan, owes: seq<Owe>): Answer
    requires Refusal(d, input).None? ==> ValidMove(d, input, p, owes)
  {
    var refusal := Refusal(d, input);
    if refusal.Some? then Answer(d, refusal.value)
    else
      var source := Connection(input.from);
      var unsent := MovingUnsent(d, input);
      var moved := MoveRowsTo(d.tables, UnsentMove(d, input), p);
      var after := d.(tables := moved.tables.(ops := QueueAll(moved.tables.ops, Connection(input.target), owes)),
                      bindings := d.bindings + 1);
      if !UnseenIn(d.tables, source, unsent, input.seen) && HeldIn(d.tables, source, input.holding) == {} then
        Answer(ForgetSource(after.(tables := ForgetRows(after.tables, source)), input.from), Released)
      else
        var kept := KeepUnseen(after, input.from, input.seen, input.holding, input.links, input.now);
        Answer(kept.device, if HeldIn(d.tables, source, input.holding) != {} then Holding else StaysDetached)
  }

  // ----- Importing ---------------------------------------------------------------------

  /** The pile notes written since the bind. */
  function LateNotes(d: Device, c: nat): set<Id>
    requires c in d.states
  {
    var since := if d.states[c].boundAt.Some? then d.states[c].boundAt.value else 0;
    set id | id in RowsOf(d.tables, Pile).notes && IsLive(RowsOf(d.tables, Pile).notes[id])
             && RowsOf(d.tables, Pile).notes[id].updatedAt > since
  }

  function LateMove(d: Device, c: nat, links: Links): Move
    requires c in d.states
  {
    Move(Connection(c), Copy, Pile, Named(LateNotes(d, c), {}, LinkedRows(d.tables, Pile, LateNotes(d, c), links)), false)
  }

  predicate CanFinish(d: Device, c: nat) {
    c in d.states && HoldsPile(d.states[c])
  }

  ghost predicate ValidFinish(d: Device, c: nat, links: Links, p: Plan, owes: seq<Owe>)
    requires CanFinish(d, c)
  {
    LateNotes(d, c) != {} ==>
      && CanMove(d.tables, LateMove(d, c, links), p)
      && var moved := MoveRowsTo(d.tables, LateMove(d, c, links), p);
         Enumerates(owes, OwesOf(RowsOf(moved.tables, Connection(c)), moved.owed))
  }

  /** `finishImport`: pile notes written in since go in as notes of their own, and the pile is let go. */
  function FinishImport(d: Device, c: nat, links: Links, p: Plan, owes: seq<Owe>): Device
    requires CanFinish(d, c) ==> ValidFinish(d, c, links, p, owes)
  {
    if !CanFinish(d, c) then d
    else
      var tables :=
        if LateNotes(d, c) == {} then d.tables
        else
          var moved := MoveRowsTo(d.tables, LateMove(d, c, links), p);
          moved.tables.(ops := QueueAll(moved.tables.ops, Connection(c), owes));
      d.(tables := ForgetRows(tables, Pile), states := d.states[c := d.states[c].(importing := None)])
  }

  /** Some note or op of an importing source is not one the copy of the pile accounts for. */
  predicate WrittenSince(t: Tables, source: Source) {
    var pile, rows := RowsOf(t, Pile), RowsOf(t, source);
    || (exists id :: id in rows.notes && NoteChanged(pile.notes, id, rows.notes[id]))
    || (exists i :: 0 <= i < |t.ops| && t.ops[i].source == source
                    && (if t.ops[i].noteId.None? then t.ops[i].path !in pile.folders else t.ops[i].noteId.value !in pile.notes))
  }

  predicate NoteChanged(pile: map<Id, Note>, id: Id, note: Note) {
    note.deleted || (if id in pile then pile[id].body != note.body || pile[id].path != note.path else note.dirty)
  }

  datatype Abandoned = Abandoned | Imported | Written

  /** `abandonImport`: the source and everything it brought, thrown away. */
  function AbandonImport(d: Device, c: nat): (Device, Abandoned) {
    if c !in d.states || d.states[c].importing.None? then (d, Imported)
    else
      var importing := d.states[c].importing.value;
      if !importing.lock && WrittenSince(d.tables, Connection(c)) then (d, Written)
      else
        var gone := ForgetSource(d.(tables := ForgetRows(d.tables, Connection(c)), bindings := d.bindings + 1), c);
        (gone.(active := Some(importing.returnTo)), Abandoned)
  }
}
