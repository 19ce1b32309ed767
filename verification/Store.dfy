/**
  The database as a value, and what its statements do to it.

  Sound collects what the schema enforces (foreign keys, unique constraints) together with the one
  cross-table fact the schema does not: a user's primary key is a key that user holds.
*/
module Store {
  import opened Wrappers
  import opened Models

  datatype DB = DB(
    servers: map<Id, Server>, keys: map<Id, Key>, users: map<Id, User>,
    renewals: seq<RenewalLog>, snapshots: seq<UsageSnapshot>)

  // ---------------------------------------------------------------- invariant

  /** The server and the holder a keys row names exist. */
  predicate Anchored(db: DB, k: Id)
    requires k in db.keys
  {
    && db.keys[k].serverID in db.servers
    && (db.keys[k].userID.Some? ==> db.keys[k].userID.value in db.users)
  }

  ghost predicate ReferencesExist(db: DB) {
    forall k {:trigger Anchored(db, k)} | k in db.keys :: Anchored(db, k)
  }

  predicate SameOutlineKey(a: Key, b: Key) { a.serverID == b.serverID && a.outlineID == b.outlineID }

  predicate SameToken(a: Key, b: Key) { a.token == b.token }

  predicate SameLink(a: User, b: User) { a.token == b.token }

  predicate SameURL(a: Server, b: Server) { Live(a) && Live(b) && a.apiURL == b.apiURL }

  ghost predicate UniqueColumns(db: DB) {
    && (forall j, k {:trigger SameOutlineKey(db.keys[j], db.keys[k])} | j in db.keys && k in db.keys ::
          SameOutlineKey(db.keys[j], db.keys[k]) ==> j == k)
    && (forall j, k {:trigger SameToken(db.keys[j], db.keys[k])} | j in db.keys && k in db.keys ::
          SameToken(db.keys[j], db.keys[k]) ==> j == k)
    && (forall u, v {:trigger SameLink(db.users[u], db.users[v])} | u in db.users && v in db.users ::
          SameLink(db.users[u], db.users[v]) ==> u == v)
    && (forall s, t {:trigger SameURL(db.servers[s], db.servers[t])} | s in db.servers && t in db.servers ::
          SameURL(db.servers[s], db.servers[t]) ==> s == t)
  }

  predicate Live(server: Server) { server.deletedAt.None? }

  predicate Holds(db: DB, user: Id, key: Id) { key in db.keys && db.keys[key].userID == Some(user) }

  /** The key a user's dynamic link leads to exists and is theirs. */
  predicate PrimaryIsTheirs(db: DB, u: Id)
    requires u in db.users
  {
    db.users[u].primaryKeyID.Some? ==> Holds(db, u, db.users[u].primaryKeyID.value)
  }

  ghost predicate PrimaryHeld(db: DB) {
    forall u {:trigger PrimaryIsTheirs(db, u)} | u in db.users :: PrimaryIsTheirs(db, u)
  }

  ghost predicate Sound(db: DB) { ReferencesExist(db) && UniqueColumns(db) && PrimaryHeld(db) }

  /**
    The same, row by row: what a row names exists, no two keys share a token or a place on a box, no two users a
    token and no two live servers a URL, and a user's primary key is on record as theirs.
  */
  ghost predicate Consistent(db: DB) {
    && (forall k <- db.keys ::
          && db.keys[k].serverID in db.servers
          && (db.keys[k].userID.Some? ==> db.keys[k].userID.value in db.users))
    && (forall j, k | j in db.keys && k in db.keys && j != k ::
          && db.keys[j].token != db.keys[k].token
          && (db.keys[j].serverID != db.keys[k].serverID || db.keys[j].outlineID != db.keys[k].outlineID))
    && (forall u, v | u in db.users && v in db.users && u != v :: db.users[u].token != db.users[v].token)
    && (forall s, t | s in db.servers && t in db.servers && s != t ::
          db.servers[s].deletedAt.None? && db.servers[t].deletedAt.None? ==>
            db.servers[s].apiURL != db.servers[t].apiURL)
    && (forall u <- db.users ::
          db.users[u].primaryKeyID.Some? ==>
            && db.users[u].primaryKeyID.value in db.keys
            && db.keys[db.users[u].primaryKeyID.value].userID == Some(u))
  }

  lemma SoundIsConsistent(db: DB)
    ensures Sound(db) <==> Consistent(db)
  {
    if Sound(db) { SoundRows(db); }
    if Consistent(db) { ConsistentRows(db); }
  }

  lemma SoundRows(db: DB)
    requires Sound(db)
    ensures Consistent(db)
  {
    forall k | k in db.keys ensures Anchored(db, k) { }
    forall j, k | j in db.keys && k in db.keys && j != k
      ensures !SameToken(db.keys[j], db.keys[k]) && !SameOutlineKey(db.keys[j], db.keys[k]) { }
    forall u, v | u in db.users && v in db.users && u != v ensures !SameLink(db.users[u], db.users[v]) { }
    forall s, t | s in db.servers && t in db.servers && s != t ensures !SameURL(db.servers[s], db.servers[t]) { }
    forall u | u in db.users ensures PrimaryIsTheirs(db, u) { }
  }

  lemma ConsistentRows(db: DB)
    requires Consistent(db)
    ensures Sound(db)
  {
  }

  // ---------------------------------------------------------------- statements

  /** UPDATE keys SET user_id ...; then clear the key's nomination by anyone but its new holder. */
  function SetKeyUser(db: DB, key: Id, user: Option<Id>): DB
    requires key in db.keys
  {
    db.(keys := db.keys[key := db.keys[key].(userID := user)],
        users := map u | u in db.users ::
          if db.users[u].primaryKeyID == Some(key) && (user.None? || u != user.value)
          then db.users[u].(primaryKeyID := None) else db.users[u])
  }

  function SetUserPrimaryKey(db: DB, user: Id, key: Option<Id>): DB
    requires user in db.users
  {
    db.(users := db.users[user := db.users[user].(primaryKeyID := key)])
  }

  function AdoptPrimaryKeyIfUnset(db: DB, user: Id, key: Id): DB {
    if user in db.users && db.users[user].primaryKeyID.None? then SetUserPrimaryKey(db, user, Some(key)) else db
  }

  /** DELETE FROM users; keys.user_id is ON DELETE SET NULL. */
  function DeleteUser(db: DB, user: Id): DB {
    db.(users := db.users - {user},
        keys := map k | k in db.keys ::
          if db.keys[k].userID == Some(user) then db.keys[k].(userID := None) else db.keys[k])
  }

  predicate OfKey(snapshot: UsageSnapshot, key: Id) { snapshot.keyID == Some(key) }

  function WithoutKey(snapshots: seq<UsageSnapshot>, key: Id): seq<UsageSnapshot> {
    if snapshots == [] then []
    else (if OfKey(snapshots[0], key) then [] else [snapshots[0]]) + WithoutKey(snapshots[1..], key)
  }

  function LogsWithoutKey(logs: seq<RenewalLog>, key: Id): seq<RenewalLog> {
    if logs == [] then []
    else (if logs[0].keyID == key then [] else [logs[0]]) + LogsWithoutKey(logs[1..], key)
  }

  /** What is left of a log is all its entries of other keys, in their order. */
  ghost predicate LogsLeft(logs: seq<RenewalLog>, left: seq<RenewalLog>, key: Id) {
    exists ids {:trigger LogsPicked(logs, left, key, ids)} :: LogsPicked(logs, left, key, ids)
  }

  ghost predicate LogsPicked(logs: seq<RenewalLog>, left: seq<RenewalLog>, key: Id, ids: seq<nat>) {
    && Ascending(ids, set i | 0 <= i < |logs| && logs[i].keyID != key) && |ids| == |left|
    && forall a | 0 <= a < |ids| :: ids[a] < |logs| && left[a] == logs[ids[a]]
  }

  /** The same for readings; those of no key at all are kept. */
  ghost predicate SnapshotsLeft(snapshots: seq<UsageSnapshot>, left: seq<UsageSnapshot>, key: Id) {
    exists ids {:trigger SnapshotsPicked(snapshots, left, key, ids)} :: SnapshotsPicked(snapshots, left, key, ids)
  }

  ghost predicate SnapshotsPicked(snapshots: seq<UsageSnapshot>, left: seq<UsageSnapshot>, key: Id, ids: seq<nat>) {
    && Ascending(ids, set i | 0 <= i < |snapshots| && snapshots[i].keyID != Some(key)) && |ids| == |left|
    && forall a | 0 <= a < |ids| :: ids[a] < |snapshots| && left[a] == snapshots[ids[a]]
  }

  lemma {:induction false} LogsOfOthersLeft(logs: seq<RenewalLog>, key: Id) returns (ids: seq<nat>)
    ensures LogsPicked(logs, LogsWithoutKey(logs, key), key, ids)
  {
    if logs == [] { return []; }
    var tail, first := logs[1..], logs[0].keyID != key;
    var rest := LogsOfOthersLeft(tail, key);
    ids := Later(rest, first);
    LaterAscends(rest, (set i | 0 <= i < |tail| && tail[i].keyID != key), first,
                 (set i | 0 <= i < |logs| && logs[i].keyID != key));
    var left, shift := LogsWithoutKey(logs, key), if first then 1 else 0;
    forall a | shift <= a < |ids| ensures ids[a] < |logs| && left[a] == logs[ids[a]] {
      assert ids[a] == rest[a - shift] + 1 && left[a] == LogsWithoutKey(tail, key)[a - shift];
    }
  }

  lemma {:induction false} SnapshotsOfOthersLeft(snapshots: seq<UsageSnapshot>, key: Id) returns (ids: seq<nat>)
    ensures SnapshotsPicked(snapshots, WithoutKey(snapshots, key), key, ids)
  {
    if snapshots == [] { return []; }
    var tail, first := snapshots[1..], snapshots[0].keyID != Some(key);
    var rest := SnapshotsOfOthersLeft(tail, key);
    ids := Later(rest, first);
    LaterAscends(rest, (set i | 0 <= i < |tail| && tail[i].keyID != Some(key)), first,
                 (set i | 0 <= i < |snapshots| && snapshots[i].keyID != Some(key)));
    var left, shift := WithoutKey(snapshots, key), if first then 1 else 0;
    forall a | shift <= a < |ids| ensures ids[a] < |snapshots| && left[a] == snapshots[ids[a]] {
      assert ids[a] == rest[a - shift] + 1 && left[a] == WithoutKey(tail, key)[a - shift];
    }
  }

  /** One key's own entries, and one key's own readings or those of no key. */
  function LogsOf(logs: seq<RenewalLog>, key: Id): seq<RenewalLog> {
    if logs == [] then []
    else LogsOf(logs[..|logs| - 1], key) + if logs[|logs| - 1].keyID == key then [logs[|logs| - 1]] else []
  }

  function SnapshotsOf(snapshots: seq<UsageSnapshot>, key: Option<Id>): seq<UsageSnapshot> {
    if snapshots == [] then []
    else
      var n := |snapshots| - 1;
      SnapshotsOf(snapshots[..n], key) + if snapshots[n].keyID == key then [snapshots[n]] else []
  }

  /** Every other key's entries and readings, and the server-wide readings, are what they were. */
  ghost predicate HistoryLeft(db: DB, after: DB, key: Id) {
    && LogsLeft(db.renewals, after.renewals, key) && SnapshotsLeft(db.snapshots, after.snapshots, key)
    && LogsOf(after.renewals, key) == [] && SnapshotsOf(after.snapshots, Some(key)) == []
    && (forall k | k != key :: LogsOf(after.renewals, k) == LogsOf(db.renewals, k))
    && (forall k | k != Some(key) :: SnapshotsOf(after.snapshots, k) == SnapshotsOf(db.snapshots, k))
  }

  lemma {:induction false} LogsOfCons(log: RenewalLog, logs: seq<RenewalLog>, k: Id)
    ensures LogsOf([log] + logs, k) == (if log.keyID == k then [log] else []) + LogsOf(logs, k)
  {
    if logs != [] {
      var n := |logs| - 1;
      LogsOfCons(log, logs[..n], k);
      assert ([log] + logs)[..n + 1] == [log] + logs[..n];
    }
  }

  lemma {:induction false} LogsOfOthersKept(logs: seq<RenewalLog>, key: Id, k: Id)
    ensures LogsOf(LogsWithoutKey(logs, key), k) == if k == key then [] else LogsOf(logs, k)
  {
    if logs != [] {
      LogsOfOthersKept(logs[1..], key, k);
      LogsOfCons(logs[0], logs[1..], k);
      LogsOfCons(logs[0], LogsWithoutKey(logs[1..], key), k);
      assert [logs[0]] + logs[1..] == logs;
      assert [] + LogsWithoutKey(logs[1..], key) == LogsWithoutKey(logs[1..], key);
    }
  }

  lemma {:induction false} SnapshotsOfCons(reading: UsageSnapshot, snapshots: seq<UsageSnapshot>, k: Option<Id>)
    ensures SnapshotsOf([reading] + snapshots, k)
            == (if reading.keyID == k then [reading] else []) + SnapshotsOf(snapshots, k)
  {
    if snapshots != [] {
      var n := |snapshots| - 1;
      SnapshotsOfCons(reading, snapshots[..n], k);
      assert ([reading] + snapshots)[..n + 1] == [reading] + snapshots[..n];
    }
  }

  lemma {:induction false} SnapshotsOfOthersKept(snapshots: seq<UsageSnapshot>, key: Id, k: Option<Id>)
    ensures SnapshotsOf(WithoutKey(snapshots, key), k) == if k == Some(key) then [] else SnapshotsOf(snapshots, k)
  {
    if snapshots != [] {
      SnapshotsOfOthersKept(snapshots[1..], key, k);
      SnapshotsOfCons(snapshots[0], snapshots[1..], k);
      SnapshotsOfCons(snapshots[0], WithoutKey(snapshots[1..], key), k);
      assert [snapshots[0]] + snapshots[1..] == snapshots;
      assert [] + WithoutKey(snapshots[1..], key) == WithoutKey(snapshots[1..], key);
    }
  }

  /** The cascade takes the key's own entries and readings and nothing else. */
  lemma DeletingLeavesHistory(db: DB, key: Id)
    ensures HistoryLeft(db, DeleteKey(db, key), key)
  {
    var logs := LogsOfOthersLeft(db.renewals, key);
    var readings := SnapshotsOfOthersLeft(db.snapshots, key);
    forall k ensures LogsOf(LogsWithoutKey(db.renewals, key), k) == if k == key then [] else LogsOf(db.renewals, k) {
      LogsOfOthersKept(db.renewals, key, k);
    }
    forall k
      ensures SnapshotsOf(WithoutKey(db.snapshots, key), k)
              == if k == Some(key) then [] else SnapshotsOf(db.snapshots, k)
    {
      SnapshotsOfOthersKept(db.snapshots, key, k);
    }
  }

  /** A key's row is gone with its entries, its readings and the nominations of it; all else is as it was. */
  ghost predicate Removed(db: DB, after: DB, key: Id) {
    && key in db.keys && after.keys == db.keys - {key} && after.servers == db.servers
    && after.users.Keys == db.users.Keys
    && (forall u <- db.users ::
          after.users[u] == if db.users[u].primaryKeyID == Some(key) then db.users[u].(primaryKeyID := None)
                            else db.users[u])
    && HistoryLeft(db, after, key)
  }

  /** DELETE FROM keys; primary_key_id is ON DELETE SET NULL, logs and snapshots cascade. */
  function DeleteKey(db: DB, key: Id): DB {
    DB(db.servers, db.keys - {key},
       map u | u in db.users ::
         if db.users[u].primaryKeyID == Some(key) then db.users[u].(primaryKeyID := None) else db.users[u],
       LogsWithoutKey(db.renewals, key), WithoutKey(db.snapshots, key))
  }

  predicate Unlimited(key: Key, server: Id) { key.serverID == server && key.limitBytes.None? }

  /** UPDATE keys SET custom_limit_bytes ... WHERE it is null: keys with a ceiling of their own keep it. */
  function ApplyDefaultLimit(db: DB, server: Id, limitBytes: int): DB {
    db.(keys := WithDefault(db.keys, server, limitBytes))
  }

  function WithDefault(keys: map<Id, Key>, server: Id, limitBytes: int): map<Id, Key> {
    map k | k in keys :: if Unlimited(keys[k], server) then keys[k].(limitBytes := Some(limitBytes)) else keys[k]
  }

  function PutKey(db: DB, id: Id, key: Key): DB { db.(keys := db.keys[id := key]) }

  function PutServer(db: DB, id: Id, server: Server): DB { db.(servers := db.servers[id := server]) }

  function PutUser(db: DB, id: Id, user: User): DB { db.(users := db.users[id := user]) }

  // ---------------------------------------------------------------- what each statement needs

  /** An INSERT the schema accepts. */
  ghost predicate Insertable(db: DB, id: Id, key: Key) {
    && id !in db.keys
    && key.serverID in db.servers
    && (key.userID.Some? ==> key.userID.value in db.users)
    && (forall k <- db.keys :: !SameOutlineKey(db.keys[k], key) && !SameToken(db.keys[k], key))
  }

  /** An UPDATE of bookkeeping columns only. */
  predicate SameIdentity(a: Key, b: Key) {
    SameOutlineKey(a, b) && a.userID == b.userID && a.token == b.token
  }

  ghost predicate NewUser(db: DB, id: Id, user: User) {
    && id !in db.users
    && user.primaryKeyID.None?
    && (forall u <- db.users :: !SameLink(db.users[u], user))
  }

  /** A servers row that keeps live URLs unique. */
  ghost predicate URLFree(db: DB, id: Id, server: Server) {
    forall s <- db.servers :: s != id ==> !SameURL(db.servers[s], server)
  }

  // ---------------------------------------------------------------- every statement keeps Sound

  datatype Statement =
    | AssignKey(key: Id, holder: Option<Id>)
    | Nominate(user: Id, primary: Option<Id>)
    | NominateIfUnset(user: Id, key: Id)
    | RemoveUser(user: Id)
    | RemoveKey(key: Id)
    | InsertKey(key: Id, row: Key)
    | UpdateKey(key: Id, row: Key)
    | LimitUnlimited(server: Id, limitBytes: int)
    | InsertUser(user: Id, account: User)
    | WriteServer(server: Id, site: Server)
    | LogRenewal(entry: RenewalLog)
    | Record(reading: UsageSnapshot)

  /** What the schema and, for a nomination, the handler's own check guarantee before a statement runs. */
  ghost predicate Allowed(db: DB, st: Statement) {
    match st
    case AssignKey(k, u) => k in db.keys && (u.Some? ==> u.value in db.users)
    case Nominate(u, k) => u in db.users && (k.Some? ==> Holds(db, u, k.value))
    case NominateIfUnset(u, k) => u in db.users ==> Holds(db, u, k)
    case RemoveUser(u) => u in db.users
    case RemoveKey(k) => k in db.keys
    case InsertKey(k, row) => Insertable(db, k, row)
    case UpdateKey(k, row) => k in db.keys && SameIdentity(db.keys[k], row)
    case LimitUnlimited(_, _) => true
    case InsertUser(u, account) => NewUser(db, u, account)
    case WriteServer(s, site) => URLFree(db, s, site)
    case LogRenewal(_) => true
    case Record(_) => true
  }

  function Execute(db: DB, st: Statement): DB
    requires st.AssignKey? ==> st.key in db.keys
    requires st.Nominate? ==> st.user in db.users
  {
    match st
    case AssignKey(k, u) => SetKeyUser(db, k, u)
    case Nominate(u, k) => SetUserPrimaryKey(db, u, k)
    case NominateIfUnset(u, k) => AdoptPrimaryKeyIfUnset(db, u, k)
    case RemoveUser(u) => DeleteUser(db, u)
    case RemoveKey(k) => DeleteKey(db, k)
    case InsertKey(k, row) => PutKey(db, k, row)
    case UpdateKey(k, row) => PutKey(db, k, row)
    case LimitUnlimited(s, limitBytes) => ApplyDefaultLimit(db, s, limitBytes)
    case InsertUser(u, account) => PutUser(db, u, account)
    case WriteServer(s, site) => PutServer(db, s, site)
    case LogRenewal(entry) => db.(renewals := db.renewals + [entry])
    case Record(reading) => db.(snapshots := db.snapshots + [reading])
  }

  /** Rows that keep their identifying columns stay unique. */
  lemma StillUnique(db: DB, after: DB)
    requires UniqueColumns(db)
    requires forall k <- after.keys ::
      k in db.keys && SameOutlineKey(after.keys[k], db.keys[k]) && SameToken(after.keys[k], db.keys[k])
    requires forall u <- after.users :: u in db.users && SameLink(after.users[u], db.users[u])
    requires after.servers == db.servers
    ensures UniqueColumns(after)
  {
    forall j, k | j in after.keys && k in after.keys
      ensures SameOutlineKey(after.keys[j], after.keys[k]) ==> j == k
      ensures SameToken(after.keys[j], after.keys[k]) ==> j == k
    {
      assert SameOutlineKey(after.keys[j], after.keys[k]) == SameOutlineKey(db.keys[j], db.keys[k]);
      assert SameToken(after.keys[j], after.keys[k]) == SameToken(db.keys[j], db.keys[k]);
    }
    forall u, v | u in after.users && v in after.users
      ensures SameLink(after.users[u], after.users[v]) ==> u == v
    {
      assert SameLink(after.users[u], after.users[v]) == SameLink(db.users[u], db.users[v]);
    }
  }

  /** Row by row: references stay good and primaries stay with their holders. */
  lemma StillReferenced(db: DB, after: DB)
    requires ReferencesExist(db) && PrimaryHeld(db)
    requires forall k <- after.keys :: (k in db.keys && Anchored(db, k)) ==> Anchored(after, k)
    requires forall k <- after.keys :: k !in db.keys ==> Anchored(after, k)
    requires forall u <- after.users :: (u in db.users && PrimaryIsTheirs(db, u)) ==> PrimaryIsTheirs(after, u)
    requires forall u <- after.users :: u !in db.users ==> PrimaryIsTheirs(after, u)
    ensures ReferencesExist(after) && PrimaryHeld(after)
  {
  }

  lemma SetKeyUserKeepsSound(db: DB, key: Id, user: Option<Id>)
    requires Sound(db) && Allowed(db, AssignKey(key, user))
    ensures Sound(SetKeyUser(db, key, user))
  {
    StillUnique(db, SetKeyUser(db, key, user));
    StillReferenced(db, SetKeyUser(db, key, user));
  }

  lemma SetUserPrimaryKeyKeepsSound(db: DB, user: Id, key: Option<Id>)
    requires Sound(db) && Allowed(db, Nominate(user, key))
    ensures Sound(SetUserPrimaryKey(db, user, key))
  {
    StillUnique(db, SetUserPrimaryKey(db, user, key));
    StillReferenced(db, SetUserPrimaryKey(db, user, key));
  }

  lemma DeleteUserKeepsSound(db: DB, user: Id)
    requires Sound(db)
    ensures Sound(DeleteUser(db, user))
  {
    StillUnique(db, DeleteUser(db, user));
    StillReferenced(db, DeleteUser(db, user));
  }

  lemma DeleteKeyKeepsSound(db: DB, key: Id)
    requires Sound(db)
    ensures Sound(DeleteKey(db, key))
  {
    StillUnique(db, DeleteKey(db, key));
    StillReferenced(db, DeleteKey(db, key));
  }

  lemma InsertKeyKeepsSound(db: DB, id: Id, key: Key)
    requires Sound(db) && Insertable(db, id, key)
    ensures Sound(PutKey(db, id, key))
  {
    var after := PutKey(db, id, key);
    StillUnique(db, after.(keys := db.keys));
    forall j, k | j in after.keys && k in after.keys
      ensures SameOutlineKey(after.keys[j], after.keys[k]) ==> j == k
      ensures SameToken(after.keys[j], after.keys[k]) ==> j == k
    {
      if j != id && k != id {
        assert SameOutlineKey(after.keys[j], after.keys[k]) == SameOutlineKey(db.keys[j], db.keys[k]);
        assert SameToken(after.keys[j], after.keys[k]) == SameToken(db.keys[j], db.keys[k]);
      }
    }
    StillReferenced(db, after);
  }

  lemma UpdateKeyKeepsSound(db: DB, id: Id, key: Key)
    requires Sound(db) && id in db.keys && SameIdentity(db.keys[id], key)
    ensures Sound(PutKey(db, id, key))
  {
    StillUnique(db, PutKey(db, id, key));
    StillReferenced(db, PutKey(db, id, key));
  }

  lemma ApplyDefaultLimitKeepsSound(db: DB, server: Id, limitBytes: int)
    requires Sound(db)
    ensures Sound(ApplyDefaultLimit(db, server, limitBytes))
  {
    StillUnique(db, ApplyDefaultLimit(db, server, limitBytes));
    StillReferenced(db, ApplyDefaultLimit(db, server, limitBytes));
  }

  lemma PutServerKeepsSound(db: DB, id: Id, server: Server)
    requires Sound(db) && URLFree(db, id, server)
    ensures Sound(PutServer(db, id, server))
  {
    var after := PutServer(db, id, server);
    StillUnique(db, after.(servers := db.servers));
    forall s, t | s in after.servers && t in after.servers
      ensures SameURL(after.servers[s], after.servers[t]) ==> s == t
    {
      if s != id && t != id {
        assert SameURL(after.servers[s], after.servers[t]) == SameURL(db.servers[s], db.servers[t]);
      }
    }
    StillReferenced(db, after);
  }

  lemma InsertUserKeepsSound(db: DB, id: Id, user: User)
    requires Sound(db) && NewUser(db, id, user)
    ensures Sound(PutUser(db, id, user))
  {
    var after := PutUser(db, id, user);
    StillUnique(db, after.(users := db.users));
    forall u, v | u in after.users && v in after.users
      ensures SameLink(after.users[u], after.users[v]) ==> u == v
    {
      if u != id && v != id {
        assert SameLink(after.users[u], after.users[v]) == SameLink(db.users[u], db.users[v]);
      }
    }
    StillReferenced(db, after);
  }

  lemma LogKeepsSound(db: DB, renewals: seq<RenewalLog>, snapshots: seq<UsageSnapshot>)
    requires Sound(db)
    ensures Sound(db.(renewals := renewals, snapshots := snapshots))
  {
    StillUnique(db, db.(renewals := renewals, snapshots := snapshots));
    StillReferenced(db, db.(renewals := renewals, snapshots := snapshots));
  }

  lemma StatementKeepsSound(db: DB, st: Statement)
    requires Sound(db) && Allowed(db, st)
    ensures Sound(Execute(db, st))
  {
    match st
    case AssignKey(k, u) => SetKeyUserKeepsSound(db, k, u);
    case Nominate(u, k) => SetUserPrimaryKeyKeepsSound(db, u, k);
    case NominateIfUnset(u, k) =>
      if u in db.users { SetUserPrimaryKeyKeepsSound(db, u, Some(k)); }
    case RemoveUser(u) => DeleteUserKeepsSound(db, u);
    case RemoveKey(k) => DeleteKeyKeepsSound(db, k);
    case InsertKey(k, row) => InsertKeyKeepsSound(db, k, row);
    case UpdateKey(k, row) => UpdateKeyKeepsSound(db, k, row);
    case LimitUnlimited(s, limitBytes) => ApplyDefaultLimitKeepsSound(db, s, limitBytes);
    case InsertUser(u, account) => InsertUserKeepsSound(db, u, account);
    case WriteServer(s, site) => PutServerKeepsSound(db, s, site);
    case LogRenewal(entry) => LogKeepsSound(db, db.renewals + [entry], db.snapshots);
    case Record(reading) => LogKeepsSound(db, db.renewals, db.snapshots + [reading]);
  }

  // ---------------------------------------------------------------- runs

  /** The states a run of statements goes through, the first one included. */
  ghost predicate IsRun(states: seq<DB>, sts: seq<Statement>) {
    && |states| == |sts| + 1
    && forall i {:trigger sts[i]} | 0 <= i < |sts| ::
         Allowed(states[i], sts[i]) && states[i + 1] == Execute(states[i], sts[i])
  }

  /** Whatever statements run, in whatever order, and wherever the run stops. */
  lemma {:induction false} RunKeepsSound(states: seq<DB>, sts: seq<Statement>, i: nat)
    requires IsRun(states, sts) && Sound(states[0]) && i <= |sts|
    ensures Sound(states[i])
    decreases i
  {
    if i > 0 {
      RunKeepsSound(states, sts, i - 1);
      StatementKeepsSound(states[i - 1], sts[i - 1]);
    }
  }

  // ---------------------------------------------------------------- dynamic links

  /**
    The key a dynamic access token leads to: the primary key of the user carrying it, or else the key
    carrying it. `usersUp` is false when the lookup among users itself failed; the source then goes on
    to the keys just as it does when no user carries the token.
  */
  ghost predicate Resolves(db: DB, token: string, usersUp: bool, key: Id) {
    if usersUp && exists u <- db.users :: db.users[u].token == token then
      exists u <- db.users :: db.users[u].token == token && db.users[u].primaryKeyID == Some(key) && key in db.keys
    else
      key in db.keys && db.keys[key].token == token
  }

  /** Everything a user's own token can lead to is a key they hold, exactly as long as no key of somebody
      else's carries the same token or the lookup among users goes through. */
  lemma UserTokenLeadsHome(db: DB, user: Id, usersUp: bool)
    requires Sound(db) && user in db.users
    ensures (forall key: Id :: Resolves(db, db.users[user].token, usersUp, key) ==> Holds(db, user, key))
            <==>
            (usersUp || forall k <- db.keys :: db.keys[k].token == db.users[user].token ==> Holds(db, user, k))
  {
    var token := db.users[user].token;
    if usersUp {
      forall key: Id | Resolves(db, token, usersUp, key) ensures Holds(db, user, key) {
        var u :| u in db.users && db.users[u].token == token && db.users[u].primaryKeyID == Some(key);
        assert SameLink(db.users[u], db.users[user]);
        assert PrimaryIsTheirs(db, u);
      }
    } else {
      forall k <- db.keys ensures Resolves(db, token, usersUp, k) <==> db.keys[k].token == token {}
    }
  }

  /** A state the schema allows in which that condition fails: two people, and one token in both tables. */
  lemma LinkCanStray() returns (db: DB)
    ensures Sound(db) && 1 in db.users && 7 in db.keys
    ensures Resolves(db, db.users[1].token, false, 7) && !Holds(db, 1, 7) && Holds(db, 2, 7)
  {
    var server := Server("s", "url", "cert", None, None, None, None, None, None, None, false);
    var key := Key(3, "1", "k", "ss", 0, None, None, None, true, Active, Some(2), "t", false);
    db := DB(map[3 := server], map[7 := key], map[1 := User("a", None, "t"), 2 := User("b", Some(7), "u")], [], []);
    assert SameLink(db.users[1], db.users[1]);
    assert "t" != "u" by { assert "t"[0] != "u"[0]; }
  }

  /** No statement touches the token of a user it leaves in place: the link a holder was given stays theirs. */
  lemma {:induction false} UserTokenNeverChanges(states: seq<DB>, sts: seq<Statement>, user: Id, i: nat)
    requires IsRun(states, sts) && i <= |sts|
    requires forall j | 0 <= j <= i :: user in states[j].users
    ensures states[i].users[user].token == states[0].users[user].token
    decreases i
  {
    if i > 0 {
      UserTokenNeverChanges(states, sts, user, i - 1);
      assert user in states[i - 1].users;
      assert states[i] == Execute(states[i - 1], sts[i - 1]);
      match sts[i - 1]
      case _ =>
    }
  }

  /** After any run, a holder's link leads to a key of theirs or to nothing. */
  lemma LinkStaysWithHolder(states: seq<DB>, sts: seq<Statement>, user: Id, i: nat, key: Id)
    requires IsRun(states, sts) && Sound(states[0]) && i <= |sts|
    requires forall j | 0 <= j <= i :: user in states[j].users
    requires Resolves(states[i], states[0].users[user].token, true, key)
    ensures Holds(states[i], user, key)
  {
    RunKeepsSound(states, sts, i);
    UserTokenNeverChanges(states, sts, user, i);
    UserTokenLeadsHome(states[i], user, true);
  }

  /** No key is the primary of two users. */
  lemma PrimaryOfAtMostOne(db: DB, u: Id, v: Id)
    requires Sound(db) && u in db.users && v in db.users
    requires db.users[u].primaryKeyID.Some? && db.users[u].primaryKeyID == db.users[v].primaryKeyID
    ensures u == v
  {
    assert PrimaryIsTheirs(db, u) && PrimaryIsTheirs(db, v);
  }
}
