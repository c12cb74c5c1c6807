/**
  Any number of callbacks, revokes and disconnects, interleaved
  (`commitConnection`, `attempt`, `store` in apps/api/src/db/connections.ts). A
  callback reads the account's row, reads the hash's row, and runs one batch; anything
  but a stored connection is tried once more from the start. Other requests run
  between any two of its steps.
 */
module GrantRuns {
  import opened Grants
  import opened Options

  datatype Stage =
    | ReadingAccount
    | ReadingHash(chosen: ConnectionId)
    | Committing(chosen: ConnectionId, held: Option<GrantId>)
    | Done(answer: Option<Stored>)

  datatype Callback = Callback(input: Commit, retried: bool, stage: Stage)

  /** `owner` records, of every connection id ever made, the account it was made for. */
  datatype World = World(tables: Tables, callbacks: map<nat, Callback>, owner: map<ConnectionId, Account>)

  datatype Event =
    | Arrives(pid: nat, input: Commit)
    | ReadsAccount(pid: nat, unused: ConnectionId)
    | ReadsHash(pid: nat)
    | Commits(pid: nat, newId: GrantId)
    | Throws(pid: nat)
    | Revokes(grant: GrantId, connection: ConnectionId, now: int)
    | Disconnects(connection: ConnectionId)
    | Touches(grant: GrantId, now: int)

  ghost predicate Enabled(w: World, e: Event) {
    match e
    case Arrives(pid, _) => pid !in w.callbacks
    case ReadsAccount(pid, unused) =>
      pid in w.callbacks && w.callbacks[pid].stage.ReadingAccount? && unused !in w.owner
    case ReadsHash(pid) => pid in w.callbacks && w.callbacks[pid].stage.ReadingHash?
    case Commits(pid, newId) =>
      pid in w.callbacks && w.callbacks[pid].stage.Committing? && newId !in w.tables.grants
    case Throws(pid) => pid in w.callbacks && !w.callbacks[pid].stage.Done?
    case Revokes(_, _, _) => true
    case Disconnects(_) => true
    case Touches(_, _) => true
  }

  /** Everything that is not a stored connection is retried, once. */
  function Retry(cb: Callback): Callback {
    if cb.retried then cb.(stage := Done(None)) else cb.(retried := true, stage := ReadingAccount)
  }

  ghost function Pick(rows: set<nat>): (row: nat)
    requires rows != {}
    ensures row in rows
  {
    var row :| row in rows;
    row
  }

  /** The id of the account's row, or an unused one. */
  ghost function Chosen(t: Tables, input: Commit, unused: ConnectionId): ConnectionId {
    if AccountRows(t, input.account) == {} then unused else Pick(AccountRows(t, input.account))
  }

  /** A hash that is bound anywhere but here is `claimed`. */
  ghost function AfterHash(t: Tables, cb: Callback, chosen: ConnectionId): Callback {
    var rows := HashRows(t, cb.input.hash);
    if rows == {} then cb.(stage := Committing(chosen, None))
    else if t.grants[Pick(rows)].connection != Some(chosen) then Retry(cb)
    else cb.(stage := Committing(chosen, Some(Pick(rows))))
  }

  ghost function Step(w: World, e: Event): World
    requires Enabled(w, e)
  {
    match e
    case Arrives(pid, input) => w.(callbacks := w.callbacks[pid := Callback(input, false, ReadingAccount)])
    case ReadsAccount(pid, unused) =>
      var cb := w.callbacks[pid];
      var chosen := Chosen(w.tables, cb.input, unused);
      w.(callbacks := w.callbacks[pid := cb.(stage := ReadingHash(chosen))],
         owner := if chosen == unused then w.owner[unused := cb.input.account] else w.owner)
    case ReadsHash(pid) =>
      var cb := w.callbacks[pid];
      w.(callbacks := w.callbacks[pid := AfterHash(w.tables, cb, cb.stage.chosen)])
    case Commits(pid, newId) =>
      var cb := w.callbacks[pid];
      (match Batch(w.tables, cb.stage.chosen, cb.stage.held, newId, cb.input)
       case None => w.(callbacks := w.callbacks[pid := Retry(cb)])
       case Some(done) =>
         w.(tables := done.tables, callbacks := w.callbacks[pid := cb.(stage := Done(Some(done.stored)))]))
    case Throws(pid) => w.(callbacks := w.callbacks[pid := Retry(w.callbacks[pid])])
    case Revokes(g, c, now) => w.(tables := Revoke(w.tables, g, c, now))
    case Disconnects(c) => w.(tables := DeleteConnection(w.tables, c))
    case Touches(g, now) => w.(tables := UseGrant(w.tables, g, None, now))
  }

  // ----- What holds between any two steps ----------------------------------------------

  /** A connection's id is its account's for ever, and a callback's choice is its account's. */
  ghost predicate Owned(w: World) {
    && (forall c :: c in w.tables.connections ==> c in w.owner && w.owner[c] == w.tables.connections[c].account)
    && (forall pid :: pid in w.callbacks ==> ChoiceOwned(w.owner, w.callbacks[pid]))
  }

  ghost predicate ChoiceOwned(owner: map<ConnectionId, Account>, cb: Callback) {
    cb.stage.ReadingHash? || cb.stage.Committing? ==>
      cb.stage.chosen in owner && owner[cb.stage.chosen] == cb.input.account
  }

  /** What a callback was told of the hash's row: rows are never deleted, so it is still there. */
  ghost predicate HeldKnown(w: World) {
    forall pid :: pid in w.callbacks ==> HeldIsThere(w.tables, w.callbacks[pid])
  }

  ghost predicate HeldIsThere(t: Tables, cb: Callback) {
    cb.stage.Committing? && cb.stage.held.Some? ==>
      cb.stage.held.value in t.grants && t.grants[cb.stage.held.value].hash == cb.input.hash
  }

  ghost predicate Inv(w: World) {
    Schema(w.tables) && Capped(w.tables) && Owned(w) && HeldKnown(w)
  }

  lemma PersistKeepsHeld(t: Tables, u: Tables, cb: Callback)
    requires Persist(t, u) && HeldIsThere(t, cb)
    ensures HeldIsThere(u, cb)
  {}

  lemma UniqueAccountRow(t: Tables, account: Account, c: ConnectionId)
    requires Schema(t) && c in t.connections && t.connections[c].account == account
    ensures AccountRows(t, account) == {c}
  {
    assert c in AccountRows(t, account);
  }

  lemma UniqueHashRow(t: Tables, g: GrantId)
    requires Schema(t) && g in t.grants
    ensures HashRows(t, t.grants[g].hash) == {g}
  {
    assert g in HashRows(t, t.grants[g].hash);
  }

  /** How a step may leave the tables: as the constraints ask, under the cap, and with every grant row. */
  ghost predicate TablesKept(w: World, t: Tables) {
    && Schema(t) && Capped(t) && Persist(w.tables, t)
    && (forall c :: c in t.connections ==> c in w.owner && t.connections[c].account == w.owner[c])
  }

  lemma CommitKeepsTables(w: World, pid: nat, newId: GrantId)
    requires Inv(w) && Enabled(w, Commits(pid, newId))
    ensures TablesKept(w, Step(w, Commits(pid, newId)).tables)
  {
    hide Schema, Capped, Persist, Batch, HeldKnown, Upsert;
    var cb := w.callbacks[pid];
    var c, held := cb.stage.chosen, cb.stage.held;
    PersistReflexive(w.tables);
    if Batch(w.tables, c, held, newId, cb.input).Some? {
      BatchKeeps(w.tables, c, held, newId, cb.input);
      BatchKeepsAccounts(w.tables, c, held, newId, cb.input);
    }
  }

  lemma PersistReflexive(t: Tables)
    ensures Persist(t, t)
  {}

  lemma BatchKeepsAccounts(t: Tables, c: ConnectionId, held: Option<GrantId>, newId: GrantId, input: Commit)
    requires Schema(t) && Batch(t, c, held, newId, input).Some?
    ensures forall d :: d in Batch(t, c, held, newId, input).value.tables.connections ==>
              Batch(t, c, held, newId, input).value.tables.connections[d].account
              == if d in t.connections then t.connections[d].account else input.account
    ensures forall d :: d in Batch(t, c, held, newId, input).value.tables.connections ==> d in t.connections || d == c
    ensures forall d :: d in t.connections ==> d in Batch(t, c, held, newId, input).value.tables.connections
  {
    hide Schema, Batch, Persist, InsertGrant, UseGrant, Upsert, Attached, KeptBy, Detach;
    var upserted, granted := BatchUnfolds(t, c, held, newId, input);
    UpsertKeeps(t, c, input);
    DetachKeepsRows(granted, Attached(granted, c) - KeptBy(granted, c));
  }

  lemma CappedAfterDelete(t: Tables, c: ConnectionId)
    requires Capped(t)
    ensures Capped(DeleteConnection(t, c))
  {
    hide Attached, DeleteConnection;
    forall d
      ensures |Attached(DeleteConnection(t, c), d)| <= MAX_GRANTS_PER_CONNECTION
    {
      DeletedFrom(t, c, d);
    }
  }

  lemma StepKeepsTables(w: World, e: Event)
    requires Inv(w) && Enabled(w, e)
    ensures TablesKept(w, Step(w, e).tables)
  {
    hide Schema, Capped, Persist, Batch, HeldKnown, Revoke, DeleteConnection, UseGrant, AfterHash, Chosen;
    PersistReflexive(w.tables);
    match e
    case Commits(pid, newId) => CommitKeepsTables(w, pid, newId);
    case Revokes(g, c, now) =>
      RevokeKeeps(w.tables, g, c, now);
      RevokeKeepsReach(w.tables, g, c, now);
    case Disconnects(c) =>
      DeleteKeeps(w.tables, c);
      CappedAfterDelete(w.tables, c);
    case Touches(g, now) =>
      UseKeeps(w.tables, g, None, now);
      CappedAfterUse(w.tables, g, now);
    case Arrives(_, _) =>
    case ReadsAccount(_, _) =>
    case ReadsHash(_) =>
    case Throws(_) =>
  }

  lemma CappedAfterUse(t: Tables, g: GrantId, now: int)
    requires Schema(t) && Capped(t)
    ensures Capped(UseGrant(t, g, None, now))
  {
    UseKeeps(t, g, None, now);
  }

  /** Every callback, as a step leaves it, is about rows that are there and ids that are its own. */
  lemma StepKeepsCallback(w: World, e: Event, pid: nat)
    requires Inv(w) && Enabled(w, e) && pid in Step(w, e).callbacks
    requires Persist(w.tables, Step(w, e).tables)
    ensures ChoiceOwned(Step(w, e).owner, Step(w, e).callbacks[pid])
    ensures HeldIsThere(Step(w, e).tables, Step(w, e).callbacks[pid])
  {
    hide Capped, Batch, Revoke, DeleteConnection, UseGrant, Persist, HashRows;
    var v := Step(w, e);
    if pid in w.callbacks {
      PersistKeepsHeld(w.tables, v.tables, w.callbacks[pid]);
      if e == ReadsHash(pid) {
        HashRowsHaveHash(w.tables, w.callbacks[pid].input.hash);
      }
    }
    match e
    case ReadsAccount(p, unused) =>
      var cb := w.callbacks[p];
      if AccountRows(w.tables, cb.input.account) != {} {
        var c := Pick(AccountRows(w.tables, cb.input.account));
        assert w.tables.connections[c].account == cb.input.account && c in w.owner;
      }
    case Commits(_, _) =>
    case Arrives(_, _) =>
    case ReadsHash(_) =>
    case Throws(_) =>
    case Revokes(_, _, _) =>
    case Disconnects(_) =>
    case Touches(_, _) =>
  }

  lemma HashRowsHaveHash(t: Tables, hash: Hash)
    ensures forall g :: g in HashRows(t, hash) ==> g in t.grants && t.grants[g].hash == hash
  {}

  /**
    Whatever runs in between: after every step the constraints hold, no connection is
    over its cap, ids are still their accounts', and no grant row has gone, changed its
    hash, or come to be on another connection.
   */
  lemma StepKeepsInv(w: World, e: Event)
    requires Inv(w) && Enabled(w, e)
    ensures Inv(Step(w, e)) && Persist(w.tables, Step(w, e).tables)
  {
    hide Schema, Capped, Persist, ChoiceOwned, HeldIsThere, Step;
    var v := Step(w, e);
    StepKeepsTables(w, e);
    OwnersGrow(w, e);
    forall pid | pid in v.callbacks
      ensures ChoiceOwned(v.owner, v.callbacks[pid]) && HeldIsThere(v.tables, v.callbacks[pid])
    {
      StepKeepsCallback(w, e, pid);
    }
  }

  lemma OwnersGrow(w: World, e: Event)
    requires Enabled(w, e)
    ensures forall c :: c in w.owner ==> c in Step(w, e).owner && Step(w, e).owner[c] == w.owner[c]
  {
    hide Batch, Revoke, DeleteConnection, UseGrant, AfterHash, Chosen;
  }

  // ----- Runs --------------------------------------------------------------------------

  ghost predicate Runs(w: World, events: seq<Event>)
    decreases |events|
  {
    events == [] || (Enabled(w, events[0]) && Runs(Step(w, events[0]), events[1..]))
  }

  ghost function Final(w: World, events: seq<Event>): World
    requires Runs(w, events)
    decreases |events|
  {
    if events == [] then w else Final(Step(w, events[0]), events[1..])
  }

  lemma {:induction false} RunKeepsInv(w: World, events: seq<Event>)
    requires Inv(w) && Runs(w, events)
    ensures Inv(Final(w, events)) && Persist(w.tables, Final(w, events).tables)
    decreases |events|
  {
    hide Inv, Step, Persist, Enabled;
    if events == [] {
      PersistReflexive(w.tables);
    } else {
      var v := Step(w, events[0]);
      StepKeepsInv(w, events[0]);
      RunKeepsInv(v, events[1..]);
      PersistTransitive(w.tables, v.tables, Final(v, events[1..]).tables);
    }
  }

  /**
    A credential's hash is claimable once, ever. Over any run its row stays the one row
    of that hash; it is on the connection it was on, or, once it is on none, on none
    for good.
   */
  lemma HashIsBoundOnce(w: World, events: seq<Event>, g: GrantId)
    requires Inv(w) && Runs(w, events) && g in w.tables.grants
    ensures var u := Final(w, events).tables;
            && HashRows(u, w.tables.grants[g].hash) == {g}
            && (u.grants[g].connection == w.tables.grants[g].connection || u.grants[g].connection == None)
            && (w.tables.grants[g].connection == None ==> u.grants[g].connection == None)
  {
    hide Schema, Runs, Final, HashRows;
    RunKeepsInv(w, events);
    UniqueHashRow(Final(w, events).tables, g);
  }

  /** Nothing is written by an attempt that is claimed, fails or is rolled back. */
  lemma StoredOrUntouched(w: World, e: Event)
    requires Enabled(w, e) && (e.ReadsAccount? || e.ReadsHash? || e.Commits? || e.Throws?)
    ensures Step(w, e).tables == w.tables
            || (e.Commits? && Step(w, e).callbacks[e.pid].stage.Done?
                && Step(w, e).callbacks[e.pid].stage.answer.Some?)
  {
    hide Batch;
  }

  // ----- The window --------------------------------------------------------------------

  /** A callback about to commit over a grant its device holds still finds its connection's row. */
  ghost predicate NoWindow(w: World) {
    forall pid :: pid in w.callbacks ==> RowIsThere(w.tables, w.callbacks[pid])
  }

  ghost predicate RowIsThere(t: Tables, cb: Callback) {
    cb.stage.Committing? && cb.stage.held.Some? ==> cb.stage.chosen in t.connections
  }

  /** The step deletes a row between such a callback's read and its batch. */
  ghost predicate OpensWindow(w: World, e: Event)
    requires Enabled(w, e)
  {
    exists pid :: pid in w.callbacks && RowIsThere(w.tables, w.callbacks[pid])
                  && !RowIsThere(Step(w, e).tables, w.callbacks[pid])
  }

  lemma AccountOfChoice(w: World, pid: nat)
    requires Inv(w) && NoWindow(w) && pid in w.callbacks
    requires w.callbacks[pid].stage.Committing? && w.callbacks[pid].stage.held.Some?
    ensures AccountRows(w.tables, w.callbacks[pid].input.account) != {}
  {
    hide Schema, Capped, HeldKnown;
    var cb := w.callbacks[pid];
    assert RowIsThere(w.tables, cb) && ChoiceOwned(w.owner, cb);
    assert cb.stage.chosen in AccountRows(w.tables, cb.input.account);
  }

  lemma StepKeepsReach(w: World, e: Event)
    requires Inv(w) && Reachable(w.tables) && NoWindow(w) && Enabled(w, e)
    ensures Reachable(Step(w, e).tables)
  {
    hide Schema, Capped, Persist, Batch, Revoke, DeleteConnection, UseGrant, AfterHash, Chosen, Attached, NoWindow,
      Owned, HeldKnown;
    match e
    case Commits(pid, newId) =>
      var cb := w.callbacks[pid];
      if Batch(w.tables, cb.stage.chosen, cb.stage.held, newId, cb.input).Some? {
        if cb.stage.held.Some? {
          AccountOfChoice(w, pid);
        }
        BatchReachableIff(w.tables, cb.stage.chosen, cb.stage.held, newId, cb.input);
      }
    case Revokes(g, c, now) => RevokeKeepsReach(w.tables, g, c, now);
    case Disconnects(c) =>
      DeleteKeeps(w.tables, c);
      forall d | d in DeleteConnection(w.tables, c).connections
        ensures Attached(DeleteConnection(w.tables, c), d) != {}
      {
        DeletedFrom(w.tables, c, d);
      }
    case Touches(g, now) => UseKeeps(w.tables, g, None, now);
    case Arrives(_, _) =>
    case ReadsAccount(_, _) =>
    case ReadsHash(_) =>
    case Throws(_) =>
  }

  /** A hash read as held names a connection that is there, by the foreign key. */
  lemma HeldRowIsThere(t: Tables, cb: Callback, chosen: ConnectionId)
    requires Schema(t) && cb.stage == ReadingHash(chosen)
    ensures RowIsThere(t, AfterHash(t, cb, chosen))
  {}

  lemma StepKeepsRow(w: World, e: Event, pid: nat)
    requires Inv(w) && NoWindow(w) && Enabled(w, e) && !OpensWindow(w, e) && pid in Step(w, e).callbacks
    ensures RowIsThere(Step(w, e).tables, Step(w, e).callbacks[pid])
  {
    hide Schema, Capped, Persist, Batch, Revoke, DeleteConnection, UseGrant, AfterHash, Chosen, Owned, HeldKnown;
    var v := Step(w, e);
    if pid in w.callbacks {
      assert RowIsThere(w.tables, w.callbacks[pid]) && RowIsThere(v.tables, w.callbacks[pid]);
      if e == ReadsHash(pid) {
        HeldRowIsThere(w.tables, w.callbacks[pid], w.callbacks[pid].stage.chosen);
      }
    }
    match e
    case Commits(_, _) =>
    case Arrives(_, _) =>
    case ReadsAccount(_, _) =>
    case ReadsHash(_) =>
    case Throws(_) =>
    case Revokes(_, _, _) =>
    case Disconnects(_) =>
    case Touches(_, _) =>
  }

  ghost predicate WindowKeptShut(w: World, events: seq<Event>)
    requires Runs(w, events)
    decreases |events|
  {
    events == [] || (!OpensWindow(w, events[0]) && WindowKeptShut(Step(w, events[0]), events[1..]))
  }

  /**
    In every run in which no row is deleted between a reconnecting callback's read of
    its hash and its batch, every connection can be reached by some grant after every
    step.
   */
  lemma {:induction false} EveryConnectionIsReachable(w: World, events: seq<Event>)
    requires Inv(w) && Reachable(w.tables) && NoWindow(w)
    requires Runs(w, events) && WindowKeptShut(w, events)
    ensures Reachable(Final(w, events).tables) && NoWindow(Final(w, events))
    decreases |events|
  {
    hide Inv, Reachable, Step, RowIsThere, Enabled, OpensWindow;
    if events != [] {
      var v := Step(w, events[0]);
      StepKeepsInv(w, events[0]);
      StepKeepsReach(w, events[0]);
      forall pid | pid in v.callbacks
        ensures RowIsThere(v.tables, v.callbacks[pid])
      {
        StepKeepsRow(w, events[0], pid);
      }
      EveryConnectionIsReachable(v, events[1..]);
    }
  }

  lemma RunFirst(w: World, e: Event, rest: seq<Event>)
    requires Enabled(w, e) && Runs(Step(w, e), rest)
    ensures Runs(w, [e] + rest) && Final(w, [e] + rest) == Final(Step(w, e), rest)
  {
    hide Enabled, Step;
    assert ([e] + rest)[0] == e && ([e] + rest)[1..] == rest;
  }

  /** One connection, and one device's grant on it. */
  ghost function WindowStart(account: Account, hash: Hash): World {
    World(Tables(map[0 := Connection(account, "", "", 0, 0)], map[0 := Grant(Some(0), hash, 0, 0, None)]),
          map[], map[0 := account])
  }

  function WindowInput(account: Account, hash: Hash): Commit {
    Commit(account, "", "", hash, None, 1)
  }

  function WindowRead(account: Account, hash: Hash): seq<Event> {
    [Arrives(0, WindowInput(account, hash)), ReadsAccount(0, 1), ReadsHash(0)]
  }

  /** The device reads the account's row and its own grant. */
  lemma WindowReads(account: Account, hash: Hash)
    ensures var w := WindowStart(account, hash);
            && Inv(w) && Reachable(w.tables) && NoWindow(w)
            && Runs(w, WindowRead(account, hash))
            && Final(w, WindowRead(account, hash))
               == w.(callbacks := map[0 := Callback(WindowInput(account, hash), false, Committing(0, Some(0)))])
  {
    var w, input := WindowStart(account, hash), WindowInput(account, hash);
    WindowStartIsFine(account, hash);
    var e1, e2, e3 := Arrives(0, input), ReadsAccount(0, 1), ReadsHash(0);
    var cb := Callback(input, false, ReadingAccount);
    var w1 := w.(callbacks := map[0 := cb]);
    var w2 := w.(callbacks := map[0 := cb.(stage := ReadingHash(0))]);
    var w3 := w.(callbacks := map[0 := cb.(stage := Committing(0, Some(0)))]);
    UniqueAccountRow(w.tables, account, 0);
    UniqueHashRow(w.tables, 0);
    assert Step(w, e1) == w1 && Step(w1, e2) == w2 && Step(w2, e3) == w3;
    assert [e3] + [] == [e3] && [e2] + [e3] == [e2, e3] && [e1] + [e2, e3] == [e1, e2, e3];
    RunFirst(w2, e3, []);
    RunFirst(w1, e2, [e3]);
    RunFirst(w, e1, [e2, e3]);
  }

  lemma WindowStartIsFine(account: Account, hash: Hash)
    ensures Inv(WindowStart(account, hash)) && Reachable(WindowStart(account, hash).tables)
    ensures NoWindow(WindowStart(account, hash))
  {
    var t := WindowStart(account, hash).tables;
    assert Attached(t, 0) == {0};
    assert forall c :: c != 0 ==> Attached(t, c) == {};
  }

  /**
    The window is real. A device reconnects with the credential it holds, its grant the
    last on the account; between its read of the hash and its batch the grant is
    revoked, and the connection deleted with it. The batch makes the row again, no
    grant is on it, and the device is told it is stored.
   */
  lemma WindowMakesUnreachable(account: Account, hash: Hash)
    ensures var w := WindowStart(account, hash);
            var events := WindowRead(account, hash) + [Revokes(0, 0, 1), Commits(0, 1)];
            && Inv(w) && Reachable(w.tables) && NoWindow(w) && Runs(w, events)
            && !Reachable(Final(w, events).tables)
            && 0 in Final(w, events).callbacks
            && Final(w, events).callbacks[0].stage == Done(Some(Stored(0, {})))
  {
    hide Inv, Reachable, NoWindow, Revoke, Batch, Runs, Final, WindowStart, WindowInput, WindowRead;
    var w, input := WindowStart(account, hash), WindowInput(account, hash);
    WindowReads(account, hash);
    var read := Final(w, WindowRead(account, hash));
    WindowStands(account, hash);
    var u := WindowTables(account, hash, input, Connection(account, "", "", 0, 0));
    var e4, e5 := Revokes(0, 0, 1), Commits(0, 1);
    var gone := read.(tables := u);
    assert Step(read, e4) == gone;
    RunNothing(Step(gone, e5));
    RunFirst(gone, e5, []);
    RunFirst(read, e4, [e5] + []);
    assert [e4] + ([e5] + []) == [e4, e5];
    RunConcat(w, WindowRead(account, hash), [e4, e5]);
    UnreachableRow(Step(gone, e5).tables, 0);
  }

  lemma RunNothing(w: World)
    ensures Runs(w, []) && Final(w, []) == w
  {}

  lemma WindowStands(account: Account, hash: Hash)
    ensures WindowStart(account, hash).tables
            == Tables(map[0 := Connection(account, "", "", 0, 0)], map[0 := Grant(Some(0), hash, 0, 0, None)])
    ensures WindowInput(account, hash) == Commit(account, "", "", hash, None, 1)
  {}

  lemma UnreachableRow(t: Tables, c: ConnectionId)
    requires c in t.connections && Attached(t, c) == {}
    ensures !Reachable(t)
  {}

  lemma {:induction false} RunConcat(w: World, first: seq<Event>, second: seq<Event>)
    requires Runs(w, first) && Runs(Final(w, first), second)
    ensures Runs(w, first + second) && Final(w, first + second) == Final(Final(w, first), second)
    decreases |first|
  {
    hide Step, Enabled;
    if first == [] {
      assert first + second == second;
    } else {
      RunConcat(Step(w, first[0]), first[1..], second);
      assert (first + second)[0] == first[0] && (first + second)[1..] == first[1..] + second;
    }
  }

  /** The tables once the last grant has been revoked, and what the batch makes of them. */
  lemma WindowTables(account: Account, hash: Hash, input: Commit, row: Connection) returns (u: Tables)
    requires input.account == account && input.hash == hash && input.now == 1 && input.device == None
    ensures u == Tables(map[], map[0 := Grant(None, hash, 0, 0, None)])
    ensures Revoke(Tables(map[0 := row], map[0 := Grant(Some(0), hash, 0, 0, None)]), 0, 0, 1) == u
    ensures Batch(u, 0, Some(0), 1, input).Some?
    ensures Batch(u, 0, Some(0), 1, input).value.stored == Stored(0, {})
    ensures 0 in Batch(u, 0, Some(0), 1, input).value.tables.connections
    ensures Attached(Batch(u, 0, Some(0), 1, input).value.tables, 0) == {}
  {
    u := Tables(map[], map[0 := Grant(None, hash, 0, 0, None)]);
    var t := Tables(map[0 := row], map[0 := Grant(Some(0), hash, 0, 0, None)]);
    var nulled := Detach(t, {0} * Attached(t, 0));
    assert nulled.grants == u.grants;
    assert DeleteConnection(nulled, 0).connections == map[];
    assert DeleteConnection(nulled, 0).grants == u.grants;
    assert AccountRows(u, account) == {};
    var first := Upsert(u, 0, input).value;
    var second := UseGrant(first, 0, input.device, input.now);
    assert Attached(second, 0) == {};
  }

  // ----- A connection made anew elsewhere ------------------------------------------------

  /**
    A callback told its connection is stored finds it there exactly when the account had no
    row as its batch ran, or had the row the callback read.
   */
  lemma StoredIsThereIff(w: World, pid: nat, newId: GrantId)
    requires Inv(w) && Enabled(w, Commits(pid, newId))
    requires var cb := w.callbacks[pid]; Batch(w.tables, cb.stage.chosen, cb.stage.held, newId, cb.input).Some?
    ensures var cb, v := w.callbacks[pid], Step(w, Commits(pid, newId));
            && v.callbacks[pid].stage.Done? && v.callbacks[pid].stage.answer.Some?
            && v.callbacks[pid].stage.answer.value.connectionId == cb.stage.chosen
            && (cb.stage.chosen in v.tables.connections
                <==> AccountRows(w.tables, cb.input.account) == {}
                     || AccountRows(w.tables, cb.input.account) == {cb.stage.chosen})
  {
    hide Capped, Batch, Schema, HeldKnown;
    var cb := w.callbacks[pid];
    BatchIsThereIff(w.tables, cb.stage.chosen, cb.stage.held, newId, cb.input);
    if cb.stage.chosen in w.tables.connections {
      UniqueAccountRow(w.tables, cb.input.account, cb.stage.chosen);
    }
  }

  /** A second device, with a credential of its own, connects the account while the first waits to commit. */
  function Elsewhere(account: Account, other: Hash): Commit {
    Commit(account, "", "", other, None, 2)
  }

  function ElsewhereEvents(account: Account, other: Hash): seq<Event> {
    [Revokes(0, 0, 1), Arrives(1, Elsewhere(account, other)), ReadsAccount(1, 1), ReadsHash(1), Commits(1, 1), Commits(0, 2)]
  }

  /**
    The first device's grant is revoked and the connection deleted with it; the second
    makes the account a row under another id; and the first is told of the old one, which
    is nowhere.
   */
  lemma StoredElsewhere(account: Account, hash: Hash, other: Hash)
    requires hash != other
    ensures var w := WindowStart(account, hash);
            var events := WindowRead(account, hash) + ElsewhereEvents(account, other);
            && Inv(w) && Runs(w, events)
            && 0 !in Final(w, events).tables.connections && 1 in Final(w, events).tables.connections
            && 0 in Final(w, events).callbacks
            && Final(w, events).callbacks[0].stage == Done(Some(Stored(0, {})))
  {
    hide Inv, Reachable, NoWindow, Revoke, Batch, Runs, Final, WindowStart, WindowRead, Step, Enabled, AfterHash, Chosen;
    var w := WindowStart(account, hash);
    WindowReads(account, hash);
    var read := Final(w, WindowRead(account, hash));
    var e1, e2, e3 := Revokes(0, 0, 1), Arrives(1, Elsewhere(account, other)), ReadsAccount(1, 1);
    var e4, e5, e6 := ReadsHash(1), Commits(1, 1), Commits(0, 2);
    var w1 := ElsewhereGone(account, hash);
    var w2, w3, w4 := ElsewhereReads(account, hash, other, w1);
    var w5 := ElsewhereStores(account, hash, other, w4);
    ElsewhereAnswers(account, hash, other, w5);
    RunNothing(Step(w5, e6));
    RunFirst(w5, e6, []);
    RunFirst(w4, e5, [e6] + []);
    RunFirst(w3, e4, [e5] + ([e6] + []));
    RunFirst(w2, e3, [e4] + ([e5] + ([e6] + [])));
    RunFirst(w1, e2, [e3] + ([e4] + ([e5] + ([e6] + []))));
    RunFirst(read, e1, [e2] + ([e3] + ([e4] + ([e5] + ([e6] + [])))));
    assert [e1] + ([e2] + ([e3] + ([e4] + ([e5] + ([e6] + []))))) == ElsewhereEvents(account, other);
    RunConcat(w, WindowRead(account, hash), ElsewhereEvents(account, other));
  }

  function FirstWaits(account: Account, hash: Hash): Callback {
    Callback(WindowInput(account, hash), false, Committing(0, Some(0)))
  }

  lemma ElsewhereGone(account: Account, hash: Hash) returns (w1: World)
    ensures Runs(WindowStart(account, hash), WindowRead(account, hash))
    ensures var read := Final(WindowStart(account, hash), WindowRead(account, hash));
            Enabled(read, Revokes(0, 0, 1)) && Step(read, Revokes(0, 0, 1)) == w1
    ensures w1 == World(Tables(map[], map[0 := Grant(None, hash, 0, 0, None)]), map[0 := FirstWaits(account, hash)],
                        map[0 := account])
  {
    hide Inv, Reachable, NoWindow, Revoke, Batch, Runs, Final, WindowRead;
    WindowReads(account, hash);
    var read := Final(WindowStart(account, hash), WindowRead(account, hash));
    var u := WindowTables(account, hash, WindowInput(account, hash), Connection(account, "", "", 0, 0));
    w1 := read.(tables := u);
  }

  lemma ElsewhereReads(account: Account, hash: Hash, other: Hash, w1: World) returns (w2: World, w3: World, w4: World)
    requires hash != other
    requires w1 == World(Tables(map[], map[0 := Grant(None, hash, 0, 0, None)]), map[0 := FirstWaits(account, hash)],
                         map[0 := account])
    ensures Enabled(w1, Arrives(1, Elsewhere(account, other))) && Step(w1, Arrives(1, Elsewhere(account, other))) == w2
    ensures Enabled(w2, ReadsAccount(1, 1)) && Step(w2, ReadsAccount(1, 1)) == w3
    ensures Enabled(w3, ReadsHash(1)) && Step(w3, ReadsHash(1)) == w4
    ensures w4 == World(w1.tables,
                        map[0 := FirstWaits(account, hash), 1 := Callback(Elsewhere(account, other), false, Committing(1, None))],
                        map[0 := account, 1 := account])
  {
    var cb := Callback(Elsewhere(account, other), false, ReadingAccount);
    w2 := w1.(callbacks := w1.callbacks[1 := cb]);
    assert AccountRows(w1.tables, account) == {};
    w3 := w2.(callbacks := w2.callbacks[1 := cb.(stage := ReadingHash(1))], owner := w2.owner[1 := account]);
    assert HashRows(w1.tables, other) == {};
    w4 := w3.(callbacks := w3.callbacks[1 := cb.(stage := Committing(1, None))]);
  }

  lemma ElsewhereStores(account: Account, hash: Hash, other: Hash, w4: World) returns (w5: World)
    requires hash != other
    requires w4 == World(Tables(map[], map[0 := Grant(None, hash, 0, 0, None)]),
                         map[0 := FirstWaits(account, hash), 1 := Callback(Elsewhere(account, other), false, Committing(1, None))],
                         map[0 := account, 1 := account])
    ensures Enabled(w4, Commits(1, 1)) && Step(w4, Commits(1, 1)) == w5
    ensures w5.tables.connections == map[1 := Connection(account, "", "", 2, 2)]
    ensures w5.tables.grants == map[0 := Grant(None, hash, 0, 0, None), 1 := Grant(Some(1), other, 2, 2, None)]
    ensures w5.callbacks.Keys == {0, 1} && w5.callbacks[0] == FirstWaits(account, hash)
  {
    var t, input := w4.tables, Elsewhere(account, other);
    assert AccountRows(t, account) == {};
    var first := Upsert(t, 1, input).value;
    assert HashRows(first, other) == {};
    var second := InsertGrant(first, 1, 1, input).value;
    assert Attached(second, 1) == {1};
    OneIsKept(second, 1, 1);
    assert Detach(second, {}).grants == second.grants;
    w5 := Step(w4, Commits(1, 1));
  }

  lemma OneIsKept(t: Tables, c: ConnectionId, g: GrantId)
    requires Attached(t, c) == {g}
    ensures KeptBy(t, c) == {g}
  {
    assert g in t.grants;
    assert Above(UsedAt(t), {g}, g) == {};
  }

  lemma ElsewhereAnswers(account: Account, hash: Hash, other: Hash, w5: World)
    requires hash != other
    requires w5.tables.connections == map[1 := Connection(account, "", "", 2, 2)]
    requires w5.tables.grants == map[0 := Grant(None, hash, 0, 0, None), 1 := Grant(Some(1), other, 2, 2, None)]
    requires w5.callbacks.Keys == {0, 1} && w5.callbacks[0] == FirstWaits(account, hash)
    ensures Enabled(w5, Commits(0, 2))
    ensures var v := Step(w5, Commits(0, 2));
            && 0 !in v.tables.connections && 1 in v.tables.connections
            && 0 in v.callbacks && v.callbacks[0].stage == Done(Some(Stored(0, {})))
  {
    var t, input := w5.tables, WindowInput(account, hash);
    assert AccountRows(t, account) == {1};
    var first := Upsert(t, 0, input).value;
    var second := UseGrant(first, 0, input.device, input.now);
    assert Attached(second, 0) == {};
    var none: set<GrantId> := Attached(second, 0) - KeptBy(second, 0);
    assert none == {};
    assert Batch(t, 0, Some(0), 2, input) == Some(Committed(Detach(second, none), Stored(0, none)));
  }

  // ----- The race for a new account ----------------------------------------------------

  /**
    Two callbacks race for an account nobody has connected, and this one loses: the
    row is already under another id. Its batch is rolled back whole, and its retry, if
    nothing else runs meanwhile, stores its grant on the winner's row.
   */
  lemma LoserAttachesToWinner(w: World, pid: nat, winner: ConnectionId, unused: ConnectionId, n1: GrantId, n2: GrantId)
    requires Inv(w) && pid in w.callbacks && !w.callbacks[pid].retried
    requires w.callbacks[pid].stage.Committing? && w.callbacks[pid].stage.held.None?
    requires w.callbacks[pid].stage.chosen !in w.tables.connections
    requires winner in w.tables.connections
    requires w.tables.connections[winner].account == w.callbacks[pid].input.account
    requires HashRows(w.tables, w.callbacks[pid].input.hash) == {}
    requires n1 !in w.tables.grants && n2 !in w.tables.grants && unused !in w.owner
    ensures var events := [Commits(pid, n1), ReadsAccount(pid, unused), ReadsHash(pid), Commits(pid, n2)];
            && Runs(w, events)
            && Step(w, events[0]).tables == w.tables
            && var v := Final(w, events);
            && pid in v.callbacks && v.callbacks[pid].stage.Done? && v.callbacks[pid].stage.answer.Some?
            && v.callbacks[pid].stage.answer.value.connectionId == winner
            && (n2 in Attached(v.tables, winner)
                <==> |Rivals(w.tables, winner, n2, w.callbacks[pid].input.now)| < MAX_GRANTS_PER_CONNECTION)
  {
    hide Capped, Persist, Rivals, KeptBy, Detach, HeldKnown;
    var cb := w.callbacks[pid];
    var input := cb.input;
    UniqueAccountRow(w.tables, input.account, winner);
    LoserRollsBack(w.tables, cb.stage.chosen, winner, n1, input);
    WinnerTakes(w.tables, winner, n2, input);
    var e1, e2, e3, e4 := Commits(pid, n1), ReadsAccount(pid, unused), ReadsHash(pid), Commits(pid, n2);
    var again := Callback(input, true, ReadingAccount);
    assert Step(w, e1) == w.(callbacks := w.callbacks[pid := again]);
    var w1 := Step(w, e1);
    assert Chosen(w.tables, input, unused) == winner;
    assert winner in w.owner;
    assert Step(w1, e2) == w1.(callbacks := w1.callbacks[pid := again.(stage := ReadingHash(winner))]);
    var w2 := Step(w1, e2);
    assert Step(w2, e3) == w2.(callbacks := w2.callbacks[pid := again.(stage := Committing(winner, None))]);
    var w3 := Step(w2, e3);
    RunOfFour(w, e1, e2, e3, e4);
    StoredIsHeldIff(w.tables, winner, None, n2, input);
  }

  lemma RunOfFour(w: World, a: Event, b: Event, c: Event, d: Event)
    requires Enabled(w, a) && Enabled(Step(w, a), b) && Enabled(Step(Step(w, a), b), c)
    requires Enabled(Step(Step(Step(w, a), b), c), d)
    ensures Runs(w, [a, b, c, d])
    ensures Final(w, [a, b, c, d]) == Step(Step(Step(Step(w, a), b), c), d)
  {
    hide Step, Enabled, Runs, Final;
    var w1, w2, w3 := Step(w, a), Step(Step(w, a), b), Step(Step(Step(w, a), b), c);
    RunNothing(Step(w3, d));
    RunFirst(w3, d, []);
    RunFirst(w2, c, [d] + []);
    RunFirst(w1, b, [c] + ([d] + []));
    RunFirst(w, a, [b] + ([c] + ([d] + [])));
    assert [a] + ([b] + ([c] + ([d] + []))) == [a, b, c, d];
  }

  lemma LoserRollsBack(t: Tables, c: ConnectionId, winner: ConnectionId, newId: GrantId, input: Commit)
    requires Schema(t) && c !in t.connections && AccountRows(t, input.account) == {winner}
    ensures Batch(t, c, None, newId, input) == None
  {
    hide Schema, KeptBy, Detach, Attached;
  }

  lemma WinnerTakes(t: Tables, winner: ConnectionId, newId: GrantId, input: Commit)
    requires Schema(t) && AccountRows(t, input.account) == {winner}
    requires HashRows(t, input.hash) == {} && newId !in t.grants
    ensures Batch(t, winner, None, newId, input).Some?
    ensures Batch(t, winner, None, newId, input).value.stored.connectionId == winner
  {
    hide Schema, KeptBy, Detach, Attached;
    assert winner in AccountRows(t, input.account);
    var first := Upsert(t, winner, input).value;
    assert first.grants == t.grants && winner in first.connections;
  }

  // ----- Who is turned away ------------------------------------------------------------

  /** Nobody holds the hash, or the grant that does is on the account's own connection. */
  ghost predicate IsWelcome(t: Tables, input: Commit) {
    forall g :: g in t.grants && t.grants[g].hash == input.hash ==>
      && t.grants[g].connection.Some?
      && t.grants[g].connection.value in t.connections
      && t.connections[t.grants[g].connection.value].account == input.account
  }

  /** The callback is over, or has everything before it again; either way it is not tried a third time. */
  ghost predicate HasFailed(before: Callback, after: Callback) {
    after == Callback(before.input, true, if before.retried then Done(None) else ReadingAccount)
  }

  /** One attempt's reads, with nothing between them. */
  function Reads(pid: nat, unused: ConnectionId): seq<Event> {
    [ReadsAccount(pid, unused), ReadsHash(pid)]
  }

  /**
    An attempt that nothing comes between is turned away by its second read exactly when the
    hash is spent or is another account's. Otherwise its batch goes through whatever id the
    new grant has, and the callback is told of its account's own connection, which is there.
   */
  lemma AttemptIsStoredIff(w: World, pid: nat, unused: ConnectionId, newId: GrantId)
    requires Inv(w) && Enabled(w, ReadsAccount(pid, unused)) && newId !in w.tables.grants
    ensures Runs(w, Reads(pid, unused))
    ensures var cb, v := w.callbacks[pid], Final(w, Reads(pid, unused));
            && v.tables == w.tables && pid in v.callbacks
            && (!IsWelcome(w.tables, cb.input) ==> HasFailed(cb, v.callbacks[pid]))
            && (IsWelcome(w.tables, cb.input) ==>
                  Enabled(v, Commits(pid, newId)) && IsTold(Step(v, Commits(pid, newId)), pid, cb.input.account))
  {
    hide Inv, Batch, Runs, Final, IsTold, IsWelcome;
    var cb := w.callbacks[pid];
    var chosen := Chosen(w.tables, cb.input, unused);
    var w1 := Step(w, ReadsAccount(pid, unused));
    RunOfTwo(w, ReadsAccount(pid, unused), ReadsHash(pid));
    assert w1.callbacks[pid] == cb.(stage := ReadingHash(chosen));
    ChosenIs(w, cb.input, unused);
    HashReadIs(w, w1.callbacks[pid], chosen);
    var v := Step(w1, ReadsHash(pid));
    assert v.callbacks[pid] == AfterHash(w.tables, w1.callbacks[pid], chosen);
    if IsWelcome(w.tables, cb.input) {
      GoesThrough(v, pid, newId);
    }
  }

  /** The callback has been answered with the account's connection, and it is there. */
  ghost predicate IsTold(w: World, pid: nat, account: Account) {
    && pid in w.callbacks && w.callbacks[pid].stage.Done? && w.callbacks[pid].stage.answer.Some?
    && var c := w.callbacks[pid].stage.answer.value.connectionId;
       c in w.tables.connections && w.tables.connections[c].account == account
  }

  /** The id read is the account's row, or one that was never a connection's. */
  ghost predicate IsRowOrUnused(t: Tables, c: ConnectionId, account: Account) {
    if IsConnected(t, account) then c in t.connections && t.connections[c].account == account
    else c !in t.connections
  }

  lemma ChosenIs(w: World, input: Commit, unused: ConnectionId)
    requires Inv(w) && unused !in w.owner
    ensures IsRowOrUnused(w.tables, Chosen(w.tables, input, unused), input.account)
  {
    RowsOfAccount(w.tables, input.account);
  }

  /** What the second read finds: the hash free, held here, or anywhere else. */
  lemma HashReadIs(w: World, cb: Callback, chosen: ConnectionId)
    requires Inv(w) && IsRowOrUnused(w.tables, chosen, cb.input.account)
    ensures !IsWelcome(w.tables, cb.input) ==> HasFailed(cb, AfterHash(w.tables, cb, chosen))
    ensures IsWelcome(w.tables, cb.input) ==>
              exists held :: AfterHash(w.tables, cb, chosen) == cb.(stage := Committing(chosen, held))
                             && HeldIs(w.tables, held, cb.input, chosen)
    ensures Schema(w.tables)
  {
    hide Capped, Owned, HeldKnown;
    var t, rows := w.tables, HashRows(w.tables, cb.input.hash);
    if rows == {} {
      RowsOfHash(t, cb.input.hash);
      assert HeldIs(t, None, cb.input, chosen);
    } else {
      var g := Pick(rows);
      assert forall h :: h in t.grants && t.grants[h].hash == cb.input.hash ==> h == g;
      if t.grants[g].connection == Some(chosen) {
        assert HeldIs(t, Some(g), cb.input, chosen);
      }
    }
  }

  ghost predicate HeldIs(t: Tables, held: Option<GrantId>, input: Commit, chosen: ConnectionId) {
    match held
    case None => !IsKnownHash(t, input.hash)
    case Some(g) => g in t.grants && t.grants[g].connection == Some(chosen) && chosen in t.connections
  }

  lemma GoesThrough(v: World, pid: nat, newId: GrantId)
    requires pid in v.callbacks && v.callbacks[pid].stage.Committing? && newId !in v.tables.grants && Schema(v.tables)
    requires var cb := v.callbacks[pid];
             && HeldIs(v.tables, cb.stage.held, cb.input, cb.stage.chosen)
             && IsRowOrUnused(v.tables, cb.stage.chosen, cb.input.account)
    ensures IsTold(Step(v, Commits(pid, newId)), pid, v.callbacks[pid].input.account)
  {
    hide Schema, Batch;
    var cb, t := v.callbacks[pid], v.tables;
    var c, held := cb.stage.chosen, cb.stage.held;
    BatchFailsIff(t, c, held, newId, cb.input);
    BatchIsThereIff(t, c, held, newId, cb.input);
    BatchKeepsAccounts(t, c, held, newId, cb.input);
    RowsOfAccount(t, cb.input.account);
  }

  lemma RunOfTwo(w: World, a: Event, b: Event)
    requires Enabled(w, a) && Enabled(Step(w, a), b)
    ensures Runs(w, [a, b]) && Final(w, [a, b]) == Step(Step(w, a), b)
  {
    hide Step, Enabled, Runs, Final;
    var v := Step(w, a);
    RunNothing(Step(v, b));
    RunFirst(v, b, []);
    RunFirst(w, a, [b] + []);
    assert [a] + ([b] + []) == [a, b];
  }
}
