/**
  The connections and grants of the server (apps/api/src/db/connections.ts,
  apps/api/src/credentials.ts) over the two tables and their constraints
  (apps/api/src/db/schema.ts): what each statement and each batch does.

  A batch is one transaction: it is applied whole, or a constraint it breaks rolls it
  back whole.
 */
module Grants {
  import opened Options

  type ConnectionId = nat
  /** Ordered as the text of an id is: totally. */
  type GrantId = nat
  type Hash = string

  const MAX_GRANTS_PER_CONNECTION := 20
  const DAY_MS := 24 * 60 * 60 * 1000
  const GRANT_IDLE_DAYS := 180

  /** The only identity a connection has. */
  datatype Account = Account(provider: string, accountId: string)

  datatype Connection = Connection(
    account: Account, displayName: string, secret: string, createdAt: int, lastUsedAt: int)

  datatype Grant = Grant(
    connection: Option<ConnectionId>, hash: Hash, createdAt: int, lastUsedAt: int, device: Option<string>)

  datatype Tables = Tables(connections: map<ConnectionId, Connection>, grants: map<GrantId, Grant>)

  /** What a callback commits. */
  datatype Commit = Commit(
    account: Account, displayName: string, secret: string, hash: Hash, device: Option<string>, now: int)

  ghost predicate AccountsUnique(connections: map<ConnectionId, Connection>) {
    forall c, d :: c in connections && d in connections && connections[c].account == connections[d].account ==> c == d
  }

  ghost predicate HashesUnique(grants: map<GrantId, Grant>) {
    forall g, h :: g in grants && h in grants && grants[g].hash == grants[h].hash ==> g == h
  }

  ghost predicate Linked(t: Tables) {
    forall g :: g in t.grants && t.grants[g].connection.Some? ==> t.grants[g].connection.value in t.connections
  }

  /** The unique indexes and the foreign key. */
  ghost predicate Schema(t: Tables) {
    AccountsUnique(t.connections) && HashesUnique(t.grants) && Linked(t)
  }

  /** The grants on a connection. */
  function Attached(t: Tables, c: ConnectionId): set<GrantId> {
    set g | g in t.grants && t.grants[g].connection == Some(c)
  }

  /** No connection is ever over its cap. */
  ghost predicate Capped(t: Tables) {
    forall c :: |Attached(t, c)| <= MAX_GRANTS_PER_CONNECTION
  }

  /** Every account connected can be reached, and so used and revoked. */
  ghost predicate Reachable(t: Tables) {
    forall c :: c in t.connections ==> Attached(t, c) != {}
  }

  // ----- Idleness ----------------------------------------------------------------------

  /** Used within the last `GRANT_IDLE_DAYS` days; a grant used exactly that long ago is idle. */
  predicate NotIdle(grant: Grant, now: int) {
    grant.lastUsedAt > now - GRANT_IDLE_DAYS * DAY_MS
  }

  // ----- Reads -------------------------------------------------------------------------

  function AccountRows(t: Tables, account: Account): set<ConnectionId> {
    set c | c in t.connections && t.connections[c].account == account
  }

  function HashRows(t: Tables, hash: Hash): set<GrantId> {
    set g | g in t.grants && t.grants[g].hash == hash
  }

  /** The grant a credential reaches: attached, and not idle. */
  ghost predicate Holds(t: Tables, g: GrantId, hash: Hash, now: int) {
    g in t.grants && t.grants[g].hash == hash && t.grants[g].connection.Some? && NotIdle(t.grants[g], now)
  }

  // ----- The newest --------------------------------------------------------------------

  /** `ORDER BY last_used_at DESC, id DESC`: the id breaks a tie, so the order is total. */
  predicate Newer(used: map<GrantId, int>, g: GrantId, h: GrantId)
    requires g in used && h in used
  {
    used[g] > used[h] || (used[g] == used[h] && g > h)
  }

  function Above(used: map<GrantId, int>, rows: set<GrantId>, g: GrantId): set<GrantId>
    requires rows <= used.Keys && g in used
  {
    set h | h in rows && Newer(used, h, g)
  }

  /** The first `n` in that order: those fewer than `n` are above. */
  function Newest(used: map<GrantId, int>, rows: set<GrantId>, n: nat): set<GrantId>
    requires rows <= used.Keys
  {
    set g | g in rows && |Above(used, rows, g)| < n
  }

  ghost function Oldest(used: map<GrantId, int>, rows: set<GrantId>): (g: GrantId)
    requires rows <= used.Keys && rows != {}
    ensures g in rows && forall h :: h in rows && h != g ==> Newer(used, h, g)
  {
    var g :| g in rows;
    if rows == {g} then g
    else
      var rest := rows - {g};
      var h := Oldest(used, rest);
      assert forall x :: x in rows && x != g ==> x in rest;
      if Newer(used, g, h) then h else g
  }

  /** `LIMIT n` gives exactly `n` rows, or all there are. */
  lemma {:induction false} NewestCount(used: map<GrantId, int>, rows: set<GrantId>, n: nat)
    requires rows <= used.Keys
    ensures |Newest(used, rows, n)| == if |rows| < n then |rows| else n
  {
    if rows != {} {
      var last := Oldest(used, rows);
      var rest := rows - {last};
      NewestCount(used, rest, n);
      assert |rest| == |rows| - 1;
      assert Above(used, rows, last) == rest;
      forall g | g in rest
        ensures Above(used, rows, g) == Above(used, rest, g)
      {}
      assert Newest(used, rows, n) == if |rest| < n then Newest(used, rest, n) + {last} else Newest(used, rest, n);
    }
  }

  /** And every row it gives comes before every row it leaves out. */
  lemma NewestAreNewer(used: map<GrantId, int>, rows: set<GrantId>, n: nat, kept: GrantId, dropped: GrantId)
    requires rows <= used.Keys
    requires kept in Newest(used, rows, n) && dropped in rows && dropped !in Newest(used, rows, n)
    ensures Newer(used, kept, dropped)
  {
    if !Newer(used, kept, dropped) {
      var a, b := Above(used, rows, dropped), Above(used, rows, kept);
      assert kept != dropped && Newer(used, dropped, kept);
      assert a <= b;
      Fewer(a, b);
    }
  }

  lemma Fewer(a: set<GrantId>, b: set<GrantId>)
    requires a <= b
    ensures |a| <= |b|
  {
    assert b == a + (b - a);
  }

  /** The query as it is answered: the newest row that is left, `n` times over. */
  method SelectNewest(used: map<GrantId, int>, rows: set<GrantId>, n: nat) returns (kept: set<GrantId>)
    requires rows <= used.Keys
    ensures kept == Newest(used, rows, n)
  {
    kept := {};
    var left := rows;
    while |kept| < n && left != {}
      invariant kept + left == rows && kept !! left
      invariant forall k, l :: k in kept && l in left ==> Newer(used, k, l)
      invariant |kept| <= n && forall k :: k in kept ==> |Above(used, rows, k)| < n
      decreases |left|
    {
      var g := FindNewest(used, left);
      assert Above(used, rows, g) == kept;
      kept := kept + {g};
      left := left - {g};
    }
    forall l | l in left
      ensures |Above(used, rows, l)| >= n
    {
      assert kept <= Above(used, rows, l);
      Fewer(kept, Above(used, rows, l));
    }
  }

  method FindNewest(used: map<GrantId, int>, rows: set<GrantId>) returns (g: GrantId)
    requires rows <= used.Keys && rows != {}
    ensures g in rows && forall h :: h in rows && h != g ==> Newer(used, g, h)
  {
    g :| g in rows;
    var left := rows - {g};
    while left != {}
      invariant g in rows && left <= rows && g !in left
      invariant forall h :: h in rows - left && h != g ==> Newer(used, g, h)
      decreases |left|
    {
      var h :| h in left;
      assert forall x :: x in rows - left && x != g && Newer(used, h, g) ==> Newer(used, h, x);
      left := left - {h};
      if Newer(used, h, g) {
        g := h;
      }
    }
  }

  // ----- Statements --------------------------------------------------------------------

  function UsedAt(t: Tables): map<GrantId, int> {
    map g | g in t.grants :: t.grants[g].lastUsedAt
  }

  /** The grants the cap keeps on a connection. */
  function KeptBy(t: Tables, c: ConnectionId): set<GrantId> {
    Newest(UsedAt(t), Attached(t, c), MAX_GRANTS_PER_CONNECTION)
  }

  /** Null `connection_id` on some grants. An update, not a delete: the hash stays spent. */
  function Detach(t: Tables, gone: set<GrantId>): Tables {
    t.(grants := map g | g in t.grants :: if g in gone then t.grants[g].(connection := None) else t.grants[g])
  }

  /** The insert of a connection, or the update of the row its account has. None: the id is another row's. */
  function Upsert(t: Tables, c: ConnectionId, input: Commit): Option<Tables> {
    var rows := AccountRows(t, input.account);
    if rows == {} then
      if c in t.connections then None
      else Some(t.(connections := t.connections[
        c := Connection(input.account, input.displayName, input.secret, input.now, input.now)]))
    else
      Some(t.(connections := map d | d in t.connections ::
        if d in rows then t.connections[d].(displayName := input.displayName, secret := input.secret, lastUsedAt := input.now)
        else t.connections[d]))
  }

  /** A plain insert. None: its id or its hash is taken, or its connection is not there. */
  function InsertGrant(t: Tables, g: GrantId, c: ConnectionId, input: Commit): Option<Tables> {
    if g in t.grants || HashRows(t, input.hash) != {} || c !in t.connections then None
    else Some(t.(grants := t.grants[g := Grant(Some(c), input.hash, input.now, input.now, input.device)]))
  }

  function UseGrant(t: Tables, g: GrantId, device: Option<string>, now: int): Tables {
    if g !in t.grants then t
    else t.(grants := t.grants[g := t.grants[g].(
      lastUsedAt := now, device := if device.Some? then device else t.grants[g].device)])
  }

  /** The delete of a connection, and the foreign key's `set null`. */
  function DeleteConnection(t: Tables, c: ConnectionId): Tables {
    var left := Detach(t, Attached(t, c));
    left.(connections := left.connections - {c})
  }

  datatype Stored = Stored(connectionId: ConnectionId, pruned: set<GrantId>)

  datatype Committed = Committed(tables: Tables, stored: Stored)

  /** The batch of `store`: the row of the account, the grant, the cap. None: rolled back. */
  function Batch(t: Tables, c: ConnectionId, held: Option<GrantId>, newId: GrantId, input: Commit): Option<Committed> {
    var first := Upsert(t, c, input);
    if first.None? then None
    else
      var second := if held.None? then InsertGrant(first.value, newId, c, input)
                    else Some(UseGrant(first.value, held.value, input.device, input.now));
      if second.None? then None
      else
        var pruned := Attached(second.value, c) - KeptBy(second.value, c);
        Some(Committed(Detach(second.value, pruned), Stored(c, pruned)))
  }

  /** The batch of `revokeGrant`: the pair's grant, and the connection if no live grant is left on it. */
  function Revoke(t: Tables, g: GrantId, c: ConnectionId, now: int): Tables {
    var nulled := Detach(t, {g} * Attached(t, c));
    if exists h :: h in nulled.grants && nulled.grants[h].connection == Some(c) && NotIdle(nulled.grants[h], now)
    then nulled
    else DeleteConnection(nulled, c)
  }

  // ----- The tables, as the requests write to them -------------------------------------

  class Database {
    var connections: map<ConnectionId, Connection>
    var grants: map<GrantId, Grant>

    ghost function Contents(): Tables
      reads this
    {
      Tables(connections, grants)
    }

    constructor ()
      ensures Contents() == Tables(map[], map[])
    {
      connections, grants := map[], map[];
    }

    method FindAccount(account: Account) returns (found: Option<ConnectionId>)
      ensures found.None? ==> AccountRows(Contents(), account) == {}
      ensures found.Some? ==> found.value in AccountRows(Contents(), account)
    {
      var rows := set c | c in connections && connections[c].account == account;
      assert rows == AccountRows(Contents(), account);
      if rows == {} { return None; }
      var c :| c in rows;
      return Some(c);
    }

    method FindHash(hash: Hash) returns (found: Option<GrantId>)
      ensures found.None? ==> HashRows(Contents(), hash) == {}
      ensures found.Some? ==> found.value in HashRows(Contents(), hash)
    {
      var rows := set g | g in grants && grants[g].hash == hash;
      assert rows == HashRows(Contents(), hash);
      if rows == {} { return None; }
      var g :| g in rows;
      return Some(g);
    }

    /** One transaction: on a constraint that does not hold, nothing has been written. */
    method Store(c: ConnectionId, held: Option<GrantId>, newId: GrantId, input: Commit) returns (stored: Option<Stored>)
      modifies this
      ensures match Batch(old(Contents()), c, held, newId, input)
              case None => stored == None && Contents() == old(Contents())
              case Some(done) => stored == Some(done.stored) && Contents() == done.tables
    {
      ghost var before := Contents();
      var first := Upsert(Tables(connections, grants), c, input);
      if first.None? { return None; }
      var second := if held.None? then InsertGrant(first.value, newId, c, input)
                    else Some(UseGrant(first.value, held.value, input.device, input.now));
      if second.None? { return None; }
      connections, grants := second.value.connections, second.value.grants;
      assert Contents() == second.value;
      var pruned := Prune(c);
      return Some(Stored(c, pruned));
    }

    method Prune(c: ConnectionId) returns (pruned: set<GrantId>)
      modifies this
      ensures pruned == Attached(old(Contents()), c) - KeptBy(old(Contents()), c)
      ensures Contents() == Detach(old(Contents()), pruned)
    {
      var t := Tables(connections, grants);
      var rows := Attached(t, c);
      var kept := SelectNewest(UsedAt(t), rows, MAX_GRANTS_PER_CONNECTION);
      pruned := rows - kept;
      grants := Detach(t, pruned).grants;
    }

    method RevokeGrant(g: GrantId, c: ConnectionId, now: int) returns (gone: bool)
      modifies this
      ensures Contents() == Revoke(old(Contents()), g, c, now)
      ensures gone <==> c in old(connections) && c !in connections
    {
      var t := Tables(connections, grants);
      var nulled := Detach(t, {g} * Attached(t, c));
      var live := exists h :: h in nulled.grants && nulled.grants[h].connection == Some(c) && NotIdle(nulled.grants[h], now);
      var after := if live then nulled else DeleteConnection(nulled, c);
      gone := !live && c in connections;
      connections, grants := after.connections, after.grants;
    }

    method Disconnect(c: ConnectionId)
      modifies this
      ensures Contents() == DeleteConnection(old(Contents()), c)
    {
      var after := DeleteConnection(Tables(connections, grants), c);
      connections, grants := after.connections, after.grants;
    }

    /**
      `grantHolder`: the lookup, and `lastUsedAt` written exactly where a day or more has gone
      since. `taken` is whether the database takes the write: its failure is passed over.
     */
    method GrantHolder(hash: Hash, now: int, taken: bool) returns (grant: Option<GrantId>)
      modifies this`grants
      ensures grant.Some? <==> exists g :: Holds(old(Contents()), g, hash, now)
                                           && old(Contents()).grants[g].connection.value in old(connections)
      ensures grant.Some? ==> Holds(old(Contents()), grant.value, hash, now)
      ensures grants == if grant.Some? && taken && now - old(grants)[grant.value].lastUsedAt >= DAY_MS
                        then old(grants)[grant.value := old(grants)[grant.value].(lastUsedAt := now)] else old(grants)
    {
      var rows := set g | g in grants && grants[g].hash == hash && grants[g].connection.Some? && NotIdle(grants[g], now)
                          && grants[g].connection.value in connections;
      if rows == {} {
        assert forall g :: Holds(Contents(), g, hash, now) && grants[g].connection.value in connections ==> g in rows;
        return None;
      }
      var g :| g in rows;
      grant := Some(g);
      assert Holds(Contents(), g, hash, now);
      if taken && now - grants[g].lastUsedAt >= DAY_MS {
        grants := UseGrant(Tables(connections, grants), g, None, now).grants;
      }
    }
  }

  // ----- What every statement keeps ----------------------------------------------------

  /**
    A grant row is for good. Its hash never changes, and it is on the connection it
    was made on or on none: no connection is ever handed the hash of another.
   */
  ghost predicate Persist(t: Tables, u: Tables) {
    forall g :: g in t.grants ==>
      && g in u.grants
      && u.grants[g].hash == t.grants[g].hash
      && u.grants[g].createdAt == t.grants[g].createdAt
      && (u.grants[g].connection == t.grants[g].connection || u.grants[g].connection == None)
  }

  lemma PersistTransitive(t: Tables, u: Tables, v: Tables)
    requires Persist(t, u) && Persist(u, v)
    ensures Persist(t, v)
  {}

  lemma DetachKeeps(t: Tables, gone: set<GrantId>)
    requires Schema(t)
    ensures Schema(Detach(t, gone)) && Persist(t, Detach(t, gone))
  {}

  lemma DetachedFrom(t: Tables, gone: set<GrantId>, c: ConnectionId)
    ensures Attached(Detach(t, gone), c) == Attached(t, c) - gone
  {}

  lemma DeleteKeeps(t: Tables, c: ConnectionId)
    requires Schema(t)
    ensures Schema(DeleteConnection(t, c)) && Persist(t, DeleteConnection(t, c))
    ensures DeleteConnection(t, c).connections == t.connections - {c}
  {
    DetachKeeps(t, Attached(t, c));
  }

  lemma DeletedFrom(t: Tables, c: ConnectionId, d: ConnectionId)
    ensures Attached(DeleteConnection(t, c), d) == if d == c then {} else Attached(t, d)
  {
    DetachedFrom(t, Attached(t, c), d);
  }

  lemma UpsertKeeps(t: Tables, c: ConnectionId, input: Commit)
    requires Schema(t) && Upsert(t, c, input).Some?
    ensures var u := Upsert(t, c, input).value;
            && Schema(u) && u.grants == t.grants
            && u.connections.Keys == t.connections.Keys + (if AccountRows(t, input.account) == {} then {c} else {})
            && (forall d :: d in t.connections ==> u.connections[d].account == t.connections[d].account)
            && (forall d :: d in u.connections && d !in t.connections ==> u.connections[d].account == input.account)
  {
    var u := Upsert(t, c, input).value;
    if AccountRows(t, input.account) == {} {
      forall d | d in t.connections
        ensures t.connections[d].account != input.account
      {
        assert d !in AccountRows(t, input.account);
      }
    }
  }

  lemma InsertKeeps(t: Tables, g: GrantId, c: ConnectionId, input: Commit)
    requires Schema(t) && InsertGrant(t, g, c, input).Some?
    ensures var u := InsertGrant(t, g, c, input).value;
            && Schema(u) && Persist(t, u) && u.connections == t.connections
            && forall d :: Attached(u, d) == Attached(t, d) + if d == c then {g} else {}
  {
    forall h | h in t.grants
      ensures t.grants[h].hash != input.hash
    {
      assert h !in HashRows(t, input.hash);
    }
  }

  lemma UseKeeps(t: Tables, g: GrantId, device: Option<string>, now: int)
    requires Schema(t)
    ensures var u := UseGrant(t, g, device, now);
            && Schema(u) && Persist(t, u) && u.connections == t.connections
            && forall d :: Attached(u, d) == Attached(t, d)
  {}

  lemma KeptCount(t: Tables, c: ConnectionId)
    ensures KeptBy(t, c) <= Attached(t, c)
    ensures |KeptBy(t, c)| <= MAX_GRANTS_PER_CONNECTION
    ensures Attached(t, c) != {} ==> KeptBy(t, c) != {}
    ensures |Attached(t, c)| <= MAX_GRANTS_PER_CONNECTION ==> KeptBy(t, c) == Attached(t, c)
  {
    NewestCount(UsedAt(t), Attached(t, c), MAX_GRANTS_PER_CONNECTION);
    if |Attached(t, c)| <= MAX_GRANTS_PER_CONNECTION {
      SameSize(KeptBy(t, c), Attached(t, c));
    }
  }

  lemma SameSize(a: set<GrantId>, b: set<GrantId>)
    requires a <= b && |a| == |b|
    ensures a == b
  {
    assert b == a + (b - a);
  }

  /** The tables a batch ends in, statement by statement. */
  lemma BatchUnfolds(t: Tables, c: ConnectionId, held: Option<GrantId>, newId: GrantId, input: Commit)
    returns (upserted: Tables, granted: Tables)
    requires Schema(t) && Batch(t, c, held, newId, input).Some?
    ensures Upsert(t, c, input) == Some(upserted) && Schema(upserted)
    ensures held.None? ==> InsertGrant(upserted, newId, c, input) == Some(granted)
    ensures held.Some? ==> granted == UseGrant(upserted, held.value, input.device, input.now)
    ensures Schema(granted) && Persist(t, granted) && granted.connections == upserted.connections
    ensures forall d :: Attached(granted, d) == Attached(t, d) + if d == c && held.None? then {newId} else {}
    ensures Batch(t, c, held, newId, input).value.tables == Detach(granted, Attached(granted, c) - KeptBy(granted, c))
    ensures Batch(t, c, held, newId, input).value.stored == Stored(c, Attached(granted, c) - KeptBy(granted, c))
  {
    UpsertKeeps(t, c, input);
    upserted := Upsert(t, c, input).value;
    assert forall d :: Attached(upserted, d) == Attached(t, d);
    if held.None? {
      InsertKeeps(upserted, newId, c, input);
      granted := InsertGrant(upserted, newId, c, input).value;
    } else {
      UseKeeps(upserted, held.value, input.device, input.now);
      granted := UseGrant(upserted, held.value, input.device, input.now);
    }
  }

  /** What the cap takes off: the connection's grants are the ones kept, and no other's change. */
  lemma Pruned(t: Tables, c: ConnectionId, d: ConnectionId)
    ensures Attached(Detach(t, Attached(t, c) - KeptBy(t, c)), d) == if d == c then KeptBy(t, c) else Attached(t, d)
  {
    hide KeptBy, Attached;
    DetachedFrom(t, Attached(t, c) - KeptBy(t, c), d);
    KeptCount(t, c);
    if d != c {
      AttachedToOne(t, c, d);
    }
  }

  lemma AttachedToOne(t: Tables, c: ConnectionId, d: ConnectionId)
    requires c != d
    ensures Attached(t, c) !! Attached(t, d)
  {}

  lemma DetachKeepsUse(t: Tables, gone: set<GrantId>)
    ensures UsedAt(Detach(t, gone)) == UsedAt(t)
  {}

  /**
    A batch that commits keeps the constraints, the cap and every grant row, and takes
    nothing off any connection but its own.
   */
  lemma BatchKeeps(t: Tables, c: ConnectionId, held: Option<GrantId>, newId: GrantId, input: Commit)
    requires Schema(t) && Capped(t) && Batch(t, c, held, newId, input).Some?
    ensures var u := Batch(t, c, held, newId, input).value.tables;
            Schema(u) && Capped(u) && Persist(t, u) && forall d :: d != c ==> Attached(u, d) == Attached(t, d)
  {
    hide Schema, Batch, Attached, KeptBy, Detach, Persist, Upsert, InsertGrant, UseGrant;
    var upserted, granted := BatchUnfolds(t, c, held, newId, input);
    var pruned := Attached(granted, c) - KeptBy(granted, c);
    var u := Detach(granted, pruned);
    DetachKeeps(granted, pruned);
    PersistTransitive(t, granted, u);
    KeptCount(granted, c);
    forall d
      ensures Attached(u, d) == if d == c then KeptBy(granted, c) else Attached(t, d)
    {
      Pruned(granted, c, d);
    }
  }

  /** On its connection stay the newest grants: every one kept is newer than every one let go. */
  lemma BatchKeepsNewest(
      t: Tables, c: ConnectionId, held: Option<GrantId>, newId: GrantId, input: Commit, kept: GrantId, gone: GrantId)
    requires Schema(t) && Batch(t, c, held, newId, input).Some?
    requires kept in Attached(Batch(t, c, held, newId, input).value.tables, c)
    requires gone in Batch(t, c, held, newId, input).value.stored.pruned
    ensures var used := UsedAt(Batch(t, c, held, newId, input).value.tables);
            kept in used && gone in used && Newer(used, kept, gone)
  {
    hide Schema, Batch, Detach, Persist, Upsert, InsertGrant, UseGrant;
    var upserted, granted := BatchUnfolds(t, c, held, newId, input);
    Pruned(granted, c, c);
    DetachKeepsUse(granted, Attached(granted, c) - KeptBy(granted, c));
    NewestAreNewer(UsedAt(granted), Attached(granted, c), MAX_GRANTS_PER_CONNECTION, kept, gone);
  }

  /** Who is on what after a batch, and which rows there are. */
  lemma BatchAttached(t: Tables, c: ConnectionId, held: Option<GrantId>, newId: GrantId, input: Commit, d: ConnectionId)
    requires Schema(t) && Batch(t, c, held, newId, input).Some?
    ensures var u := Batch(t, c, held, newId, input).value.tables;
            && u.connections.Keys == t.connections.Keys + (if AccountRows(t, input.account) == {} then {c} else {})
            && (d != c ==> Attached(u, d) == Attached(t, d))
            && (d == c ==> (Attached(u, c) != {} <==> held.None? || Attached(t, c) != {}))
  {
    hide Schema, Batch, Attached, KeptBy, Detach, Persist, AccountRows, InsertGrant, UseGrant, Upsert;
    var upserted, granted := BatchUnfolds(t, c, held, newId, input);
    var pruned := Attached(granted, c) - KeptBy(granted, c);
    assert granted.connections.Keys
        == t.connections.Keys + (if AccountRows(t, input.account) == {} then {c} else {}) by {
      UpsertKeeps(t, c, input);
    }
    DetachKeepsRows(granted, pruned);
    assert Attached(Detach(granted, pruned), d) == if d == c then KeptBy(granted, c) else Attached(granted, d) by {
      Pruned(granted, c, d);
    }
    if d == c {
      KeptCount(granted, c);
      if held.None? {
        assert newId in Attached(granted, c);
      }
    }
  }

  /**
    A committed batch leaves every connection reachable, given that every one was,
    exactly unless it was told the hash is held and the account's row had gone: then it
    makes a row that no grant is on.
   */
  lemma BatchReachableIff(t: Tables, c: ConnectionId, held: Option<GrantId>, newId: GrantId, input: Commit)
    requires Schema(t) && Reachable(t) && Batch(t, c, held, newId, input).Some?
    ensures Reachable(Batch(t, c, held, newId, input).value.tables)
            <==> !(held.Some? && AccountRows(t, input.account) == {})
  {
    hide Schema, Batch, Attached, AccountRows;
    var u := Batch(t, c, held, newId, input).value.tables;
    BatchAttached(t, c, held, newId, input, c);
    if held.Some? && AccountRows(t, input.account) == {} {
      BatchInsertsNew(t, c, held, newId, input);
      NoGrantsOnNothing(t, c);
      assert c in u.connections;
    } else {
      forall d | d in u.connections
        ensures Attached(u, d) != {}
      {
        BatchAttached(t, c, held, newId, input, d);
      }
    }
  }

  lemma BatchInsertsNew(t: Tables, c: ConnectionId, held: Option<GrantId>, newId: GrantId, input: Commit)
    requires Batch(t, c, held, newId, input).Some? && AccountRows(t, input.account) == {}
    ensures c !in t.connections
  {}

  lemma DetachKeepsRows(t: Tables, gone: set<GrantId>)
    ensures Detach(t, gone).connections == t.connections && Detach(t, gone).grants.Keys == t.grants.Keys
  {}

  lemma NoGrantsOnNothing(t: Tables, c: ConnectionId)
    requires Schema(t) && c !in t.connections
    ensures Attached(t, c) == {}
  {}

  /** The grants of a connection that are newer than one used now. */
  function Rivals(t: Tables, c: ConnectionId, g: GrantId, now: int): set<GrantId> {
    set h | h in t.grants && t.grants[h].connection == Some(c) && h != g
            && (t.grants[h].lastUsedAt > now || (t.grants[h].lastUsedAt == now && h > g))
  }

  lemma RivalsAreAbove(t: Tables, c: ConnectionId, g: GrantId, now: int, u: Tables)
    requires g in u.grants && u.grants[g].lastUsedAt == now
    requires t.grants.Keys + {g} == u.grants.Keys
    requires forall h :: h in t.grants && h != g ==> u.grants[h] == t.grants[h]
    ensures Above(UsedAt(u), Attached(u, c), g) == Rivals(t, c, g, now)
  {}

  /**
    A device told its connection is stored holds a grant on it exactly when the hash
    was free, or its grant was still attached as the batch ran, and in either case
    fewer grants than the cap on that connection are newer.
   */
  lemma StoredIsHeldIff(t: Tables, c: ConnectionId, held: Option<GrantId>, newId: GrantId, input: Commit)
    requires Schema(t) && Batch(t, c, held, newId, input).Some?
    requires held.Some? ==> held.value in t.grants
    ensures var g := if held.None? then newId else held.value;
            g in Attached(Batch(t, c, held, newId, input).value.tables, c)
            <==> (held.None? || held.value in Attached(t, c))
                 && |Rivals(t, c, g, input.now)| < MAX_GRANTS_PER_CONNECTION
  {
    hide Schema, Batch, Detach, Persist, Rivals, Above, AccountRows, HashRows;
    var upserted, granted := BatchUnfolds(t, c, held, newId, input);
    UpsertKeeps(t, c, input);
    var g := if held.None? then newId else held.value;
    RivalsAreAbove(t, c, g, input.now, granted);
    Pruned(granted, c, c);
  }

  /** A hash for each id, no two alike. */
  function HashOf(g: GrantId): (hash: Hash)
    ensures |hash| == g
  {
    seq(g, _ => 'h')
  }

  function FirstIds(n: nat): (ids: set<GrantId>)
    ensures forall g :: g in ids <==> 1 <= g <= n
    ensures |ids| == n
  {
    if n == 0 then {} else FirstIds(n - 1) + {n}
  }

  /** One account, on as many devices as may hold it, all of them used at this moment. */
  function Crowd(now: int): Tables {
    Tables(map[0 := Connection(Account("drive", "a"), "a", "s", now, now)],
           map g | g in FirstIds(MAX_GRANTS_PER_CONNECTION) :: Grant(Some(0), HashOf(g), now, now, None))
  }

  function OneMoreDevice(now: int): Commit {
    Commit(Account("drive", "a"), "a", "s", "", None, now)
  }

  lemma CrowdIsFull(now: int)
    ensures Schema(Crowd(now)) && Capped(Crowd(now)) && Reachable(Crowd(now))
    ensures Rivals(Crowd(now), 0, 0, now) == Attached(Crowd(now), 0)
    ensures |Attached(Crowd(now), 0)| == MAX_GRANTS_PER_CONNECTION
  {
    var t := Crowd(now);
    hide FirstIds;
    assert Attached(t, 0) == FirstIds(MAX_GRANTS_PER_CONNECTION);
    assert 1 in Attached(t, 0);
    forall c | c != 0
      ensures Attached(t, c) == {}
    {}
    forall g, h | g in t.grants && h in t.grants && t.grants[g].hash == t.grants[h].hash
      ensures g == h
    {
      assert |t.grants[g].hash| == g && |t.grants[h].hash| == h;
    }
  }

  /** The device that comes last, in the same moment, is told its connection is stored and holds no grant on it. */
  lemma NewGrantIsPruned(now: int)
    ensures Batch(Crowd(now), 0, None, 0, OneMoreDevice(now)).Some?
    ensures 0 !in Attached(Batch(Crowd(now), 0, None, 0, OneMoreDevice(now)).value.tables, 0)
  {
    hide Batch, Rivals, Schema, Capped, Reachable;
    CrowdIsFull(now);
    CrowdIsStored(now);
    StoredIsHeldIff(Crowd(now), 0, None, 0, OneMoreDevice(now));
  }

  lemma CrowdIsStored(now: int)
    ensures Batch(Crowd(now), 0, None, 0, OneMoreDevice(now)).Some?
  {
    hide KeptBy, Detach, Attached, FirstIds;
    var t, input := Crowd(now), OneMoreDevice(now);
    assert AccountRows(t, input.account) == {0};
    var first := Upsert(t, 0, input).value;
    assert HashRows(first, "") == {} by {
      assert forall g :: g in first.grants ==> |first.grants[g].hash| == g;
    }
  }

  // ----- What a callback writes --------------------------------------------------------

  /** A grant row is what it was, but for its being taken off its connection. */
  ghost predicate OnlyTakenOff(before: Grant, after: Grant) {
    && after.hash == before.hash && after.createdAt == before.createdAt
    && after.lastUsedAt == before.lastUsedAt && after.device == before.device
    && (after.connection == before.connection || after.connection == None)
  }

  /** The row of an account a callback has committed: named and keyed anew, used now, its own otherwise. */
  ghost predicate IsRefreshed(before: Connection, after: Connection, input: Commit) {
    && after.displayName == input.displayName && after.secret == input.secret && after.lastUsedAt == input.now
    && after.account == before.account && after.createdAt == before.createdAt
  }

  /** A row made for an account. */
  ghost predicate IsMadeFor(row: Connection, input: Commit) {
    && row.account == input.account && row.displayName == input.displayName && row.secret == input.secret
    && row.createdAt == input.now && row.lastUsedAt == input.now
  }

  /**
    What a batch writes of connections: the account's row is named and keyed as the callback
    says and used now, under the id and from the day it had; where there was none, one is made
    under the id chosen; and every other account's row is as it was.
   */
  lemma BatchWritesRows(t: Tables, c: ConnectionId, held: Option<GrantId>, newId: GrantId, input: Commit)
    requires Schema(t) && Batch(t, c, held, newId, input).Some?
    ensures var u := Batch(t, c, held, newId, input).value.tables;
            && (forall d :: d in t.connections ==>
                  && d in u.connections
                  && (if t.connections[d].account == input.account then IsRefreshed(t.connections[d], u.connections[d], input)
                      else u.connections[d] == t.connections[d]))
            && (forall d :: d in u.connections && d !in t.connections ==> d == c && IsMadeFor(u.connections[d], input))
            && (exists d :: d in u.connections && u.connections[d].account == input.account)
  {
    hide Schema, Batch, Detach, Persist, KeptBy, Attached;
    var upserted, granted := BatchUnfolds(t, c, held, newId, input);
    DetachKeepsRows(granted, Attached(granted, c) - KeptBy(granted, c));
    UpsertWrites(t, c, input);
  }

  lemma UpsertWrites(t: Tables, c: ConnectionId, input: Commit)
    requires Upsert(t, c, input).Some?
    ensures var u := Upsert(t, c, input).value;
            && u.grants == t.grants
            && (forall d :: d in t.connections ==>
                  && d in u.connections
                  && (if t.connections[d].account == input.account then IsRefreshed(t.connections[d], u.connections[d], input)
                      else u.connections[d] == t.connections[d]))
            && (forall d :: d in u.connections && d !in t.connections ==> d == c && IsMadeFor(u.connections[d], input))
            && (exists d :: d in u.connections && u.connections[d].account == input.account)
  {
    var u, rows := Upsert(t, c, input).value, AccountRows(t, input.account);
    if rows == {} {
      assert forall d :: d in t.connections && t.connections[d].account == input.account ==> d in rows;
      assert u.connections[c].account == input.account;
    } else {
      var d :| d in rows;
      assert u.connections[d].account == input.account;
    }
  }

  /**
    And of grants: a new one is the callback's, made and used now, on the connection or pruned
    from it; one held is used now, from the device named or the one it had; and nothing of any
    other changes but that it may be pruned from that connection.
   */
  lemma BatchWritesGrants(t: Tables, c: ConnectionId, held: Option<GrantId>, newId: GrantId, input: Commit)
    requires Schema(t) && Batch(t, c, held, newId, input).Some? && (held.Some? ==> held.value in t.grants)
    ensures var u, g := Batch(t, c, held, newId, input).value.tables, if held.Some? then held.value else newId;
            && u.grants.Keys == t.grants.Keys + {g}
            && (held.None? ==>
                  && g !in t.grants && u.grants[g].hash == input.hash && u.grants[g].device == input.device
                  && u.grants[g].createdAt == input.now && u.grants[g].lastUsedAt == input.now
                  && (u.grants[g].connection == Some(c) || u.grants[g].connection == None))
            && (held.Some? ==>
                  && u.grants[g].hash == t.grants[g].hash && u.grants[g].createdAt == t.grants[g].createdAt
                  && u.grants[g].lastUsedAt == input.now
                  && u.grants[g].device == (if input.device.Some? then input.device else t.grants[g].device)
                  && (u.grants[g].connection == t.grants[g].connection || u.grants[g].connection == None))
            && (forall h :: h in t.grants && h != g ==>
                  && OnlyTakenOff(t.grants[h], u.grants[h])
                  && (t.grants[h].connection != Some(c) ==> u.grants[h] == t.grants[h]))
  {
    hide Schema, Batch, Persist, KeptBy, Upsert, AccountRows;
    var upserted, granted := BatchUnfolds(t, c, held, newId, input);
    UpsertWrites(t, c, input);
    DetachWrites(granted, Attached(granted, c) - KeptBy(granted, c));
  }

  /** Grants taken off their connections are otherwise as they were, and so is every other row. */
  lemma DetachWrites(t: Tables, gone: set<GrantId>)
    ensures var u := Detach(t, gone);
            && u.connections == t.connections && u.grants.Keys == t.grants.Keys
            && forall g :: g in t.grants ==>
                 && OnlyTakenOff(t.grants[g], u.grants[g])
                 && (u.grants[g].connection == if g in gone then None else t.grants[g].connection)
  {}

  /** The connection a batch answers has a row exactly when it had one, or the account had none. */
  lemma BatchIsThereIff(t: Tables, c: ConnectionId, held: Option<GrantId>, newId: GrantId, input: Commit)
    requires Schema(t) && Batch(t, c, held, newId, input).Some?
    ensures Batch(t, c, held, newId, input).value.stored.connectionId == c
    ensures c in Batch(t, c, held, newId, input).value.tables.connections
            <==> AccountRows(t, input.account) == {} || c in t.connections
  {
    hide Schema, Batch, Detach, Persist, KeptBy, Attached;
    var upserted, granted := BatchUnfolds(t, c, held, newId, input);
    DetachKeepsRows(granted, Attached(granted, c) - KeptBy(granted, c));
  }

  /** Some connection is of the account. */
  ghost predicate IsConnected(t: Tables, account: Account) {
    exists c :: c in t.connections && t.connections[c].account == account
  }

  /** Some grant was ever made for the hash. */
  ghost predicate IsKnownHash(t: Tables, hash: Hash) {
    exists g :: g in t.grants && t.grants[g].hash == hash
  }

  /**
    A batch is rolled back exactly when it would break a constraint: a new account under an
    id that is another row's, or a new grant under an id that is taken, of a hash that is
    known, or for an account that another id is now the row of.
   */
  lemma BatchFailsIff(t: Tables, c: ConnectionId, held: Option<GrantId>, newId: GrantId, input: Commit)
    requires Schema(t)
    ensures Batch(t, c, held, newId, input).None?
            <==> (!IsConnected(t, input.account) && c in t.connections)
                 || (held.None?
                     && (newId in t.grants || IsKnownHash(t, input.hash)
                         || (IsConnected(t, input.account) && c !in t.connections)))
  {
    hide Detach, Attached, KeptBy, Schema;
    RowsOfAccount(t, input.account);
    RowsOfHash(t, input.hash);
    if Upsert(t, c, input).Some? {
      var first := Upsert(t, c, input).value;
      assert first.grants == t.grants && HashRows(first, input.hash) == HashRows(t, input.hash);
    }
  }

  lemma RowsOfAccount(t: Tables, account: Account)
    ensures AccountRows(t, account) == {} <==> !IsConnected(t, account)
  {
    if c :| c in t.connections && t.connections[c].account == account {
      assert c in AccountRows(t, account);
    }
  }

  lemma RowsOfHash(t: Tables, hash: Hash)
    ensures HashRows(t, hash) == {} <==> !IsKnownHash(t, hash)
  {
    if g :| g in t.grants && t.grants[g].hash == hash {
      assert g in HashRows(t, hash);
    }
  }

  // ----- Revoking ----------------------------------------------------------------------

  /**
    A revoke takes off the connection the grant it names, and where none that is live is left
    on it every other one, and the row. It writes nothing else: no other row, and of a grant
    neither its hash, nor its times, nor its device.
   */
  lemma RevokeWrites(t: Tables, g: GrantId, c: ConnectionId, now: int)
    ensures var u := Revoke(t, g, c, now);
            && u.connections == (if OtherLive(t, g, c, now) then t.connections else t.connections - {c})
            && u.grants.Keys == t.grants.Keys
            && forall h :: h in t.grants ==>
                 && OnlyTakenOff(t.grants[h], u.grants[h])
                 && u.grants[h].connection ==
                      (if t.grants[h].connection == Some(c) && (h == g || !OtherLive(t, g, c, now)) then None
                       else t.grants[h].connection)
  {
    hide OtherLive;
    RevokeUnfolds(t, g, c, now);
    var nulled := Detach(t, {g} * Attached(t, c));
    DetachWrites(t, {g} * Attached(t, c));
    DetachWrites(nulled, Attached(nulled, c));
  }

  /** Whether a grant other than one to be revoked is on the connection and not idle. */
  ghost predicate OtherLive(t: Tables, g: GrantId, c: ConnectionId, now: int) {
    exists h :: h in t.grants && h != g && t.grants[h].connection == Some(c) && NotIdle(t.grants[h], now)
  }

  lemma RevokeUnfolds(t: Tables, g: GrantId, c: ConnectionId, now: int)
    ensures var nulled := Detach(t, {g} * Attached(t, c));
            Revoke(t, g, c, now) == if OtherLive(t, g, c, now) then nulled else DeleteConnection(nulled, c)
  {
    var nulled := Detach(t, {g} * Attached(t, c));
    if OtherLive(t, g, c, now) {
      var h :| h in t.grants && h != g && t.grants[h].connection == Some(c) && NotIdle(t.grants[h], now);
      assert nulled.grants[h] == t.grants[h];
    }
  }

  /** Who is on what after a revoke. */
  lemma RevokedFrom(t: Tables, g: GrantId, c: ConnectionId, now: int, d: ConnectionId)
    ensures Attached(Revoke(t, g, c, now), d)
            == if d != c then Attached(t, d)
               else if OtherLive(t, g, c, now) then Attached(t, c) - {g} else {}
  {
    hide Revoke, DeleteConnection, Detach;
    var nulled := Detach(t, {g} * Attached(t, c));
    RevokeUnfolds(t, g, c, now);
    DetachedFrom(t, {g} * Attached(t, c), d);
    DeletedFrom(nulled, c, d);
    if d != c {
      AttachedToOne(t, c, d);
    }
  }

  lemma RevokeKeeps(t: Tables, g: GrantId, c: ConnectionId, now: int)
    requires Schema(t)
    ensures var u := Revoke(t, g, c, now);
            Schema(u) && Persist(t, u)
            && u.connections == (if OtherLive(t, g, c, now) then t.connections else t.connections - {c})
  {
    hide Schema, Persist, OtherLive;
    var nulled := Detach(t, {g} * Attached(t, c));
    RevokeUnfolds(t, g, c, now);
    DetachKeeps(t, {g} * Attached(t, c));
    DeleteKeeps(nulled, c);
    if !OtherLive(t, g, c, now) {
      PersistTransitive(t, nulled, DeleteConnection(nulled, c));
    }
  }

  /** Revoking keeps the cap, and every connection reachable. */
  lemma RevokeKeepsReach(t: Tables, g: GrantId, c: ConnectionId, now: int)
    requires Schema(t)
    ensures Capped(t) ==> Capped(Revoke(t, g, c, now))
    ensures Reachable(t) ==> Reachable(Revoke(t, g, c, now))
  {
    hide Schema, Persist, Revoke, Attached;
    var u := Revoke(t, g, c, now);
    RevokeKeeps(t, g, c, now);
    forall d
      ensures Attached(u, d) <= Attached(t, d) && |Attached(u, d)| <= |Attached(t, d)|
      ensures d in u.connections && Reachable(t) ==> Attached(u, d) != {}
    {
      RevokedFrom(t, g, c, now, d);
      Fewer(Attached(u, d), Attached(t, d));
      if d == c && OtherLive(t, g, c, now) {
        OtherIsAttached(t, g, c, now);
      }
    }
  }

  lemma OtherIsAttached(t: Tables, g: GrantId, c: ConnectionId, now: int)
    requires OtherLive(t, g, c, now)
    ensures Attached(t, c) - {g} != {}
  {
    var h :| h in t.grants && h != g && t.grants[h].connection == Some(c) && NotIdle(t.grants[h], now);
    assert h in Attached(t, c) - {g};
  }

  /**
    Revoking deletes the connection exactly when no grant but the one revoked is on it
    and not idle, and then the idle ones are on nothing either; rows that are not on
    the connection are not written to.
   */
  lemma RevokeDeletesIff(t: Tables, g: GrantId, c: ConnectionId, now: int)
    requires Schema(t) && c in t.connections
    ensures var u := Revoke(t, g, c, now);
            && (c !in u.connections <==> !OtherLive(t, g, c, now))
            && Attached(u, c) == (if c in u.connections then Attached(t, c) - {g} else {})
            && (forall h :: h in t.grants && h !in Attached(t, c) ==> h in u.grants && u.grants[h] == t.grants[h])
  {
    hide Schema, OtherLive;
    RevokeUnfolds(t, g, c, now);
    RevokeKeeps(t, g, c, now);
    RevokedFrom(t, g, c, now, c);
  }
}
