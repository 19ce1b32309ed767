/**
  The repository layer over Postgres: each method runs one statement, or fails.

  Any call may fail to get through, in which case it has no effect and `faults` goes up by one.
  `log` and `history` record the statements committed so far and the state after each, so that what
  holds at every entry of `history` holds wherever a handler stops.
*/
module Repositories {
  import opened Wrappers
  import opened Calendar
  import opened Models
  import opened Store
  import opened Usage

  const MAX_TOKEN_ATTEMPTS := 5

  class Repository {
    var servers: map<Id, Server>
    var keys: map<Id, Key>
    var users: map<Id, User>
    var renewals: seq<RenewalLog>
    var snapshots: seq<UsageSnapshot>

    ghost var faults: nat
    ghost var log: seq<Statement>
    ghost var history: seq<DB>

    ghost function View(): DB
      reads this
    {
      DB(servers, keys, users, renewals, snapshots)
    }

    ghost predicate Valid()
      reads this
    {
      && IsRun(history, log)
      && Sound(history[0])
      && history[|log|] == View()
      && Sound(View())
    }

    /** The call committed exactly one statement. */
    twostate predicate Committed(st: Statement)
      reads this
    {
      && Allowed(old(View()), st)
      && View() == Execute(old(View()), st)
      && log == old(log) + [st]
      && history == old(history) + [View()]
      && faults == old(faults)
    }

    /** The call changed nothing; it counts as a fault when it did not get through. */
    twostate predicate NoEffect(err: Error)
      reads this
    {
      && View() == old(View())
      && log == old(log)
      && history == old(history)
      && faults == old(faults) + if err == Unavailable then 1 else 0
    }

    /** What holds of the present holds of every state gone through. */
    lemma HistorySound(i: nat)
      requires Valid() && i < |history|
      ensures Sound(history[i])
      ensures Consistent(history[i])
    {
      RunKeepsSound(history, log, i);
      SoundIsConsistent(history[i]);
    }

    lemma AllDistinct(ids: seq<Id>, n: nat)
      requires Valid() && n < |ids|
      requires forall j | 0 <= j < |ids| :: ids[j] in keys
      requires forall i, j | 0 <= i < j < |ids| :: ids[i] != ids[j]
      ensures forall j | 0 <= j < |ids| && j != n :: ids[j] != ids[n] && !SameOutlineKey(keys[ids[j]], keys[ids[n]])
    {
    }

    constructor (servers: map<Id, Server>, keys: map<Id, Key>, users: map<Id, User>,
                 renewals: seq<RenewalLog>, snapshots: seq<UsageSnapshot>)
      requires Sound(DB(servers, keys, users, renewals, snapshots))
      ensures Valid() && View() == DB(servers, keys, users, renewals, snapshots)
      ensures faults == 0 && log == []
    {
      this.servers, this.keys, this.users := servers, keys, users;
      this.renewals, this.snapshots := renewals, snapshots;
      faults, log, history := 0, [], [DB(servers, keys, users, renewals, snapshots)];
    }

    /** Bookkeeping after a statement has been carried out. */
    ghost method Commit(before: DB, st: Statement)
      requires IsRun(history, log) && Sound(history[0]) && history[|log|] == before && Sound(before)
      requires Allowed(before, st) && View() == Execute(before, st)
      modifies `log, `history
      ensures Valid()
      ensures log == old(log) + [st] && history == old(history) + [View()]
    {
      StatementKeepsSound(before, st);
      log, history := log + [st], history + [View()];
    }

    // -------------------------------------------------------------- reads

    method GetKey(id: Id) returns (r: Result<Key, Error>)
      requires Valid()
      modifies `faults
      ensures Valid()
      ensures r.Ok? ==> id in keys && r.value == keys[id] && faults == old(faults)
      ensures r.Err? ==> NoEffect(r.error) && (r.error == NotFound || r.error == Unavailable)
      ensures r == Err(NotFound) ==> id !in keys
    {
      var through: bool := *;
      if !through { faults := faults + 1; return Err(Unavailable); }
      r := if id in keys then Ok(keys[id]) else Err(NotFound);
    }

    method GetUser(id: Id) returns (r: Result<User, Error>)
      requires Valid()
      modifies `faults
      ensures Valid()
      ensures r.Ok? ==> id in users && r.value == users[id] && faults == old(faults)
      ensures r.Err? ==> NoEffect(r.error) && (r.error == NotFound || r.error == Unavailable)
      ensures r == Err(NotFound) ==> id !in users
    {
      var through: bool := *;
      if !through { faults := faults + 1; return Err(Unavailable); }
      r := if id in users then Ok(users[id]) else Err(NotFound);
    }

    method GetUserByDynamicToken(token: string) returns (r: Result<Id, Error>)
      requires Valid()
      modifies `faults
      ensures Valid()
      ensures r.Ok? ==> r.value in users && users[r.value].token == token && faults == old(faults)
      ensures r.Err? ==> NoEffect(r.error) && (r.error == NotFound || r.error == Unavailable)
      ensures r == Err(NotFound) ==> forall u <- users :: users[u].token != token
    {
      var through: bool := *;
      if !through { faults := faults + 1; return Err(Unavailable); }
      if u :| u in users && users[u].token == token { r := Ok(u); } else { r := Err(NotFound); }
    }

    method GetKeyByDynamicToken(token: string) returns (r: Result<Id, Error>)
      requires Valid()
      modifies `faults
      ensures Valid()
      ensures r.Ok? ==> r.value in keys && keys[r.value].token == token && faults == old(faults)
      ensures r.Err? ==> NoEffect(r.error) && (r.error == NotFound || r.error == Unavailable)
      ensures r == Err(NotFound) ==> forall k <- keys :: keys[k].token != token
    {
      var through: bool := *;
      if !through { faults := faults + 1; return Err(Unavailable); }
      if k :| k in keys && keys[k].token == token { r := Ok(k); } else { r := Err(NotFound); }
    }

    /** Archived servers are invisible here. */
    method GetServer(id: Id) returns (r: Result<Server, Error>)
      requires Valid()
      modifies `faults
      ensures Valid()
      ensures r.Ok? ==> id in servers && r.value == servers[id] && Live(servers[id]) && faults == old(faults)
      ensures r.Err? ==> NoEffect(r.error) && (r.error == NotFound || r.error == Unavailable)
      ensures r == Err(NotFound) ==> id !in servers || !Live(servers[id])
    {
      var through: bool := *;
      if !through { faults := faults + 1; return Err(Unavailable); }
      r := if id in servers && Live(servers[id]) then Ok(servers[id]) else Err(NotFound);
    }

    /** Live and archived rows alike. */
    method GetServerByAPIURL(apiURL: string) returns (r: Result<Id, Error>)
      requires Valid()
      modifies `faults
      ensures Valid()
      ensures r.Ok? ==> r.value in servers && servers[r.value].apiURL == apiURL && faults == old(faults)
      ensures r.Err? ==> NoEffect(r.error) && (r.error == NotFound || r.error == Unavailable)
      ensures r == Err(NotFound) ==> forall s <- servers :: servers[s].apiURL != apiURL
    {
      var through: bool := *;
      if !through { faults := faults + 1; return Err(Unavailable); }
      if s :| s in servers && servers[s].apiURL == apiURL {
        r := Ok(s);
      } else {
        r := Err(NotFound);
      }
    }

    method ListAllServers() returns (r: Result<seq<Id>, Error>)
      requires Valid()
      modifies `faults
      ensures Valid()
      ensures r.Ok? ==> Enumerates(r.value, set s | s in servers && Live(servers[s])) && faults == old(faults)
      ensures r.Err? ==> NoEffect(r.error) && r.error == Unavailable
    {
      var through: bool := *;
      if !through { faults := faults + 1; return Err(Unavailable); }
      var ids := Enumerate(set s | s in servers && Live(servers[s]));
      r := Ok(ids);
    }

    method ListKeysByServer(server: Id) returns (r: Result<seq<Id>, Error>)
      requires Valid()
      modifies `faults
      ensures Valid()
      ensures r.Ok? ==> Enumerates(r.value, set k | k in keys && keys[k].serverID == server) && faults == old(faults)
      ensures r.Err? ==> NoEffect(r.error) && r.error == Unavailable
    {
      var through: bool := *;
      if !through { faults := faults + 1; return Err(Unavailable); }
      var ids := Enumerate(set k | k in keys && keys[k].serverID == server);
      r := Ok(ids);
    }

    method ListKeysWithAutoRenew() returns (r: Result<seq<Id>, Error>)
      requires Valid()
      modifies `faults
      ensures Valid()
      ensures r.Ok? ==> Enumerates(r.value, set k | k in keys && keys[k].autoRenew) && faults == old(faults)
      ensures r.Err? ==> NoEffect(r.error) && r.error == Unavailable
    {
      var through: bool := *;
      if !through { faults := faults + 1; return Err(Unavailable); }
      var ids := Enumerate(set k | k in keys && keys[k].autoRenew);
      r := Ok(ids);
    }

    method CountKeysByServer(server: Id) returns (r: Result<nat, Error>)
      requires Valid()
      modifies `faults
      ensures Valid()
      ensures r.Ok? ==> r.value == |set k | k in keys && keys[k].serverID == server| && faults == old(faults)
      ensures r.Err? ==> NoEffect(r.error) && r.error == Unavailable
    {
      var through: bool := *;
      if !through { faults := faults + 1; return Err(Unavailable); }
      r := Ok(|set k | k in keys && keys[k].serverID == server|);
    }

    method ServerUsageInRange(server: Id, from: Time, to: Time) returns (r: Result<int, Error>)
      requires Valid()
      modifies `faults
      ensures Valid()
      ensures r.Ok? ==> r.value == UsageInRange(snapshots, server, from, to) && faults == old(faults)
      ensures r.Err? ==> NoEffect(r.error) && r.error == Unavailable
    {
      var through: bool := *;
      if !through { faults := faults + 1; return Err(Unavailable); }
      r := Ok(UsageInRange(snapshots, server, from, to));
    }

    method EarliestServerUsageSnapshot(server: Id) returns (r: Result<Option<Time>, Error>)
      requires Valid()
      modifies `faults
      ensures Valid()
      ensures r.Ok? ==> r.value == EarliestServerReading(snapshots, server) && faults == old(faults)
      ensures r.Err? ==> NoEffect(r.error) && r.error == Unavailable
    {
      var through: bool := *;
      if !through { faults := faults + 1; return Err(Unavailable); }
      r := Ok(EarliestServerReading(snapshots, server));
    }

    // -------------------------------------------------------------- keys

    /** An UPDATE of some bookkeeping columns of one key: `change` says which. No row, no effect, no error. */
    method UpdateKeyColumns(id: Id, change: Key -> Key) returns (err: Option<Error>)
      requires Valid()
      requires forall row :: SameIdentity(row, change(row))
      modifies this
      ensures Valid()
      ensures err.None? && id in old(keys) ==> Committed(UpdateKey(id, change(old(keys[id]))))
      ensures err.None? && id !in old(keys) ==> unchanged(this)
      ensures err.Some? ==> err.value == Unavailable && NoEffect(err.value)
    {
      var through: bool := *;
      if !through { faults := faults + 1; return Some(Unavailable); }
      if id in keys {
        ghost var before := View();
        var row := change(keys[id]);
        keys := keys[id := row];
        Commit(before, UpdateKey(id, row));
      }
      err := None;
    }

    method UpdateKeyUsage(id: Id, usedBytes: int) returns (err: Option<Error>)
      requires Valid()
      modifies this
      ensures Valid()
      ensures err.None? && id in old(keys) ==> Committed(UpdateKey(id, old(keys[id]).(usedBytes := usedBytes)))
      ensures err.None? && id !in old(keys) ==> unchanged(this)
      ensures err.Some? ==> err.value == Unavailable && NoEffect(err.value)
    {
      err := UpdateKeyColumns(id, (row: Key) => row.(usedBytes := usedBytes));
    }

    method SetKeyEnabledStatus(id: Id, enabled: bool, status: KeyStatus) returns (err: Option<Error>)
      requires Valid()
      modifies this
      ensures Valid()
      ensures err.None? && id in old(keys) ==>
        Committed(UpdateKey(id, old(keys[id]).(enabled := enabled, status := status)))
      ensures err.None? && id !in old(keys) ==> unchanged(this)
      ensures err.Some? ==> err.value == Unavailable && NoEffect(err.value)
    {
      err := UpdateKeyColumns(id, (row: Key) => row.(enabled := enabled, status := status));
    }

    method SetKeyName(id: Id, name: string) returns (err: Option<Error>)
      requires Valid()
      modifies this
      ensures Valid()
      ensures err.None? && id in old(keys) ==> Committed(UpdateKey(id, old(keys[id]).(name := name)))
      ensures err.None? && id !in old(keys) ==> unchanged(this)
      ensures err.Some? ==> err.value == Unavailable && NoEffect(err.value)
    {
      err := UpdateKeyColumns(id, (row: Key) => row.(name := name));
    }

    method SetKeyLimitAndEndDate(id: Id, limitBytes: Option<int>, endDate: Option<Time>) returns (err: Option<Error>)
      requires Valid()
      modifies this
      ensures Valid()
      ensures err.None? && id in old(keys) ==>
        Committed(UpdateKey(id, old(keys[id]).(limitBytes := limitBytes, endDate := endDate)))
      ensures err.None? && id !in old(keys) ==> unchanged(this)
      ensures err.Some? ==> err.value == Unavailable && NoEffect(err.value)
    {
      err := UpdateKeyColumns(id, (row: Key) => row.(limitBytes := limitBytes, endDate := endDate));
    }

    method SetKeyPrice(id: Id, priceMmk: Option<int>) returns (err: Option<Error>)
      requires Valid()
      modifies this
      ensures Valid()
      ensures err.None? && id in old(keys) ==> Committed(UpdateKey(id, old(keys[id]).(priceMmk := priceMmk)))
      ensures err.None? && id !in old(keys) ==> unchanged(this)
      ensures err.Some? ==> err.value == Unavailable && NoEffect(err.value)
    {
      err := UpdateKeyColumns(id, (row: Key) => row.(priceMmk := priceMmk));
    }

    method SetKeyAutoRenew(id: Id, autoRenew: bool) returns (err: Option<Error>)
      requires Valid()
      modifies this
      ensures Valid()
      ensures err.None? && id in old(keys) ==> Committed(UpdateKey(id, old(keys[id]).(autoRenew := autoRenew)))
      ensures err.None? && id !in old(keys) ==> unchanged(this)
      ensures err.Some? ==> err.value == Unavailable && NoEffect(err.value)
    {
      err := UpdateKeyColumns(id, (row: Key) => row.(autoRenew := autoRenew));
    }

    /** Puts every key of a server without a ceiling under this one; returns the keys it changed. */
    method ApplyDefaultLimitToUnlimitedKeys(server: Id, limitBytes: int) returns (r: Result<seq<Id>, Error>)
      requires Valid()
      modifies this
      ensures Valid()
      ensures r.Ok? ==>
        && Committed(LimitUnlimited(server, limitBytes))
        && Enumerates(r.value, set k | k in old(keys) && Unlimited(old(keys)[k], server))
      ensures r.Err? ==> r.error == Unavailable && NoEffect(r.error)
    {
      var through: bool := *;
      if !through { faults := faults + 1; return Err(Unavailable); }
      var ids := Enumerate(set k | k in keys && Unlimited(keys[k], server));
      ghost var before := View();
      keys := WithDefault(keys, server, limitBytes);
      Commit(before, LimitUnlimited(server, limitBytes));
      r := Ok(ids);
    }

    /**
      Adopts a key found on the Outline server, or refreshes the columns Outline owns. The token is
      minted on first insert only; a collision on the token or the id is retried.
    */
    method UpsertKeyFromOutline(server: Id, outlineID: string, name: string, access: string)
      returns (r: Result<Id, Error>)
      requires Valid()
      modifies this
      ensures Valid()
      ensures r.Ok? ==> r.value !in old(keys) ==>
        && r.value in keys && Committed(InsertKey(r.value, keys[r.value]))
        && AdoptedRow(keys[r.value], server, outlineID, name, access)
      ensures r.Ok? ==> r.value in old(keys) ==>
        && old(keys[r.value]).serverID == server && old(keys[r.value]).outlineID == outlineID
        && Committed(UpdateKey(r.value, old(keys[r.value]).(name := name, access := access)))
      ensures r.Err? ==> NoEffect(r.error) && (r.error == Unavailable || server !in servers)
    {
      var through: bool := *;
      if !through { faults := faults + 1; return Err(Unavailable); }
      if server !in servers { return Err(Refused); }
      ghost var before := View();
      for attempt := 0 to MAX_TOKEN_ATTEMPTS
        invariant View() == before && log == old(log) && history == old(history) && faults == old(faults)
      {
        var id: Id, token: string := *, *;
        if k :| k in keys && keys[k].serverID == server && keys[k].outlineID == outlineID {
          var row := keys[k].(name := name, access := access);
          keys := keys[k := row];
          Commit(before, UpdateKey(k, row));
          return Ok(k);
        } else if id !in keys &&
                  forall k <- keys :: !SameToken(keys[k], NewRow(server, outlineID, name, access, token)) {
          var row := NewRow(server, outlineID, name, access, token);
          keys := keys[id := row];
          Commit(before, InsertKey(id, row));
          return Ok(id);
        }
      }
      faults := faults + 1;
      r := Err(Unavailable);
    }

    /** Unlike an adoption, a clash on (server, outline id) exhausts the retries and fails. */
    method CreateKey(server: Id, outlineID: string, name: string, access: string, limitBytes: Option<int>,
                     endDate: Option<Time>, userID: Option<Id>, priceMmk: Option<int>)
      returns (r: Result<Id, Error>)
      requires Valid()
      modifies this
      ensures Valid()
      ensures r.Ok? ==>
        && r.value !in old(keys) && r.value in keys
        && keys[r.value] == NewRow(server, outlineID, name, access, keys[r.value].token)
                            .(limitBytes := limitBytes, endDate := endDate, userID := userID, priceMmk := priceMmk)
        && Committed(InsertKey(r.value, keys[r.value]))
      ensures r.Err? ==> NoEffect(r.error)
      ensures r.Err? && r.error != Unavailable ==> server !in servers || (userID.Some? && userID.value !in users)
    {
      var through: bool := *;
      if !through { faults := faults + 1; return Err(Unavailable); }
      if server !in servers || (userID.Some? && userID.value !in users) { return Err(Refused); }
      ghost var before := View();
      for attempt := 0 to MAX_TOKEN_ATTEMPTS
        invariant View() == before && log == old(log) && history == old(history) && faults == old(faults)
      {
        var id: Id, token: string := *, *;
        var row := NewRow(server, outlineID, name, access, token)
                   .(limitBytes := limitBytes, endDate := endDate, userID := userID, priceMmk := priceMmk);
        if id !in keys && forall k <- keys :: !SameOutlineKey(keys[k], row) && !SameToken(keys[k], row) {
          keys := keys[id := row];
          Commit(before, InsertKey(id, row));
          return Ok(id);
        }
      }
      faults := faults + 1;
      r := Err(Unavailable);
    }

    method SetKeyUser(id: Id, userID: Option<Id>) returns (err: Option<Error>)
      requires Valid()
      modifies this
      ensures Valid()
      ensures err.None? ==> Committed(AssignKey(id, userID))
      ensures err.Some? ==> NoEffect(err.value)
      ensures err.Some? && err.value != Unavailable ==> !Allowed(View(), AssignKey(id, userID))
    {
      var through: bool := *;
      if !through { faults := faults + 1; return Some(Unavailable); }
      if id !in keys { return Some(NotFound); }
      if userID.Some? && userID.value !in users { return Some(Refused); }
      ghost var before := View();
      keys := keys[id := keys[id].(userID := userID)];
      users := map u | u in users ::
        if users[u].primaryKeyID == Some(id) && (userID.None? || u != userID.value)
        then users[u].(primaryKeyID := None) else users[u];
      Commit(before, AssignKey(id, userID));
      err := None;
    }

    method DeleteKey(id: Id) returns (err: Option<Error>)
      requires Valid()
      modifies this
      ensures Valid()
      ensures err.None? ==> Committed(RemoveKey(id))
      ensures err.None? ==> Removed(old(View()), View(), id)
      ensures err.Some? ==> NoEffect(err.value)
      ensures err.Some? && err.value != Unavailable ==> !Allowed(View(), RemoveKey(id))
    {
      var through: bool := *;
      if !through { faults := faults + 1; return Some(Unavailable); }
      if id !in keys { return Some(NotFound); }
      ghost var before := View();
      users := map u | u in users ::
        if users[u].primaryKeyID == Some(id) then users[u].(primaryKeyID := None) else users[u];
      renewals, snapshots := LogsWithoutKey(renewals, id), WithoutKey(snapshots, id);
      keys := keys - {id};
      Commit(before, RemoveKey(id));
      DeletingLeavesHistory(before, id);
      err := None;
    }

    // -------------------------------------------------------------- users

    method CreateUser(name: string) returns (r: Result<Id, Error>)
      requires Valid()
      modifies this
      ensures Valid()
      ensures r.Ok? ==>
        && r.value !in old(users) && r.value in users
        && users[r.value].name == name && users[r.value].primaryKeyID == None
        && Committed(InsertUser(r.value, users[r.value]))
      ensures r.Err? ==> NoEffect(r.error) && r.error == Unavailable
    {
      var through: bool := *;
      if !through { faults := faults + 1; return Err(Unavailable); }
      ghost var before := View();
      for attempt := 0 to MAX_TOKEN_ATTEMPTS
        invariant View() == before && log == old(log) && history == old(history) && faults == old(faults)
      {
        var id: Id, token: string := *, *;
        var row := User(name, None, token);
        if id !in users && forall u <- users :: !SameLink(users[u], row) {
          users := users[id := row];
          Commit(before, InsertUser(id, row));
          return Ok(id);
        }
      }
      faults := faults + 1;
      r := Err(Unavailable);
    }

    /** The key named must be held by that user; the handlers look that up first. */
    method SetUserPrimaryKey(id: Id, key: Option<Id>) returns (err: Option<Error>)
      requires Valid()
      requires id in users && key.Some? ==> Holds(View(), id, key.value)
      modifies this
      ensures Valid()
      ensures err.None? ==> Committed(Nominate(id, key))
      ensures err.Some? ==> NoEffect(err.value)
      ensures err.Some? && err.value != Unavailable ==> !Allowed(View(), Nominate(id, key))
    {
      var through: bool := *;
      if !through { faults := faults + 1; return Some(Unavailable); }
      if id !in users { return Some(NotFound); }
      ghost var before := View();
      users := users[id := users[id].(primaryKeyID := key)];
      Commit(before, Nominate(id, key));
      err := None;
    }

    method AdoptPrimaryKeyIfUnset(id: Id, key: Id) returns (err: Option<Error>)
      requires Valid()
      requires id in users ==> Holds(View(), id, key)
      modifies this
      ensures Valid()
      ensures err.None? ==> Committed(NominateIfUnset(id, key))
      ensures err.Some? ==> NoEffect(err.value)
      ensures err.Some? && err.value != Unavailable ==> !Allowed(View(), NominateIfUnset(id, key))
    {
      var through: bool := *;
      if !through { faults := faults + 1; return Some(Unavailable); }
      ghost var before := View();
      if id in users && users[id].primaryKeyID.None? {
        users := users[id := users[id].(primaryKeyID := Some(key))];
      }
      Commit(before, NominateIfUnset(id, key));
      err := None;
    }

    method DeleteUser(id: Id) returns (err: Option<Error>)
      requires Valid()
      modifies this
      ensures Valid()
      ensures err.None? ==> Committed(RemoveUser(id))
      ensures err.Some? ==> NoEffect(err.value)
      ensures err.Some? && err.value != Unavailable ==> !Allowed(View(), RemoveUser(id))
    {
      var through: bool := *;
      if !through { faults := faults + 1; return Some(Unavailable); }
      if id !in users { return Some(NotFound); }
      ghost var before := View();
      users := users - {id};
      keys := map k | k in keys :: if keys[k].userID == Some(id) then keys[k].(userID := None) else keys[k];
      Commit(before, RemoveUser(id));
      err := None;
    }

    // -------------------------------------------------------------- logs

    method InsertRenewalLog(entry: RenewalLog) returns (err: Option<Error>)
      requires Valid()
      modifies this
      ensures Valid()
      ensures err.None? ==> Committed(LogRenewal(entry))
      ensures err.Some? ==> NoEffect(err.value) && (err.value == Unavailable || entry.keyID !in keys)
    {
      var through: bool := *;
      if !through { faults := faults + 1; return Some(Unavailable); }
      if entry.keyID !in keys { return Some(Refused); }
      ghost var before := View();
      renewals := renewals + [entry];
      Commit(before, LogRenewal(entry));
      err := None;
    }

    method InsertUsageSnapshot(reading: UsageSnapshot) returns (err: Option<Error>)
      requires Valid()
      modifies this
      ensures Valid()
      ensures err.None? ==> Committed(Record(reading))
      ensures err.Some? ==> NoEffect(err.value)
      ensures err.Some? && err.value != Unavailable ==>
        reading.serverID !in servers || (reading.keyID.Some? && reading.keyID.value !in keys)
    {
      var through: bool := *;
      if !through { faults := faults + 1; return Some(Unavailable); }
      if reading.serverID !in servers || (reading.keyID.Some? && reading.keyID.value !in keys) {
        return Some(Refused);
      }
      ghost var before := View();
      snapshots := snapshots + [reading];
      Commit(before, Record(reading));
      err := None;
    }

    // -------------------------------------------------------------- servers

    /** An UPDATE of one servers row by id; no row, no effect, no error. */
    method UpdateServerColumns(id: Id, change: Server -> Server) returns (err: Option<Error>)
      requires Valid()
      requires forall row :: change(row).apiURL == row.apiURL && (Live(change(row)) ==> Live(row))
      modifies this
      ensures Valid()
      ensures err.None? && id in old(servers) ==> Committed(WriteServer(id, change(old(servers[id]))))
      ensures err.None? && id !in old(servers) ==> unchanged(this)
      ensures err.Some? ==> err.value == Unavailable && NoEffect(err.value)
    {
      var through: bool := *;
      if !through { faults := faults + 1; return Some(Unavailable); }
      if id in servers {
        ghost var before := View();
        var row := change(servers[id]);
        forall s <- servers | s != id ensures !SameURL(servers[s], row) {
          assert !SameURL(servers[s], servers[id]);
        }
        servers := servers[id := row];
        Commit(before, WriteServer(id, row));
      }
      err := None;
    }

    method SetServerBandwidthDisabled(id: Id, now: Time) returns (err: Option<Error>)
      requires Valid()
      modifies this
      ensures Valid()
      ensures err.None? && id in old(servers) ==>
        Committed(WriteServer(id, old(servers[id]).(bandwidthDisabledAt := Some(now))))
      ensures err.None? && id !in old(servers) ==> unchanged(this)
      ensures err.Some? ==> err.value == Unavailable && NoEffect(err.value)
    {
      err := UpdateServerColumns(id, (row: Server) => row.(bandwidthDisabledAt := Some(now)));
    }

    method ClearServerBandwidthDisabled(id: Id, now: Time) returns (err: Option<Error>)
      requires Valid()
      modifies this
      ensures Valid()
      ensures err.None? && id in old(servers) ==>
        Committed(WriteServer(id, old(servers[id]).(bandwidthDisabledAt := None, bandwidthReenabledAt := Some(now))))
      ensures err.None? && id !in old(servers) ==> unchanged(this)
      ensures err.Some? ==> err.value == Unavailable && NoEffect(err.value)
    {
      err := UpdateServerColumns(id,
                                 (row: Server) => row.(bandwidthDisabledAt := None, bandwidthReenabledAt := Some(now)));
    }

    /** The quota new keys on this server start on. */
    method SetServerDefaultLimit(id: Id, limitBytes: Option<int>) returns (err: Option<Error>)
      requires Valid()
      modifies this
      ensures Valid()
      ensures err.None? ==> id in old(servers)
      ensures err.None? ==> Committed(WriteServer(id, old(servers[id]).(defaultLimitBytes := limitBytes)))
      ensures err.Some? ==> NoEffect(err.value) && (err.value == NotFound ==> id !in servers)
      ensures err.Some? ==> err.value == NotFound || err.value == Unavailable
    {
      if id in servers {
        err := UpdateServerColumns(id, (row: Server) => row.(defaultLimitBytes := limitBytes));
      } else {
        var through: bool := *;
        if !through { faults := faults + 1; return Some(Unavailable); }
        err := Some(NotFound);
      }
    }

    method MarkServerSynced(id: Id, failed: bool) returns (err: Option<Error>)
      requires Valid()
      modifies this
      ensures Valid()
      ensures err.None? && id in old(servers) ==>
        Committed(WriteServer(id, old(servers[id]).(syncFailed := failed)))
      ensures err.None? && id !in old(servers) ==> unchanged(this)
      ensures err.Some? ==> err.value == Unavailable && NoEffect(err.value)
    {
      err := UpdateServerColumns(id, (row: Server) => row.(syncFailed := failed));
    }

    /** Archives the server: its row, keys, renewals and snapshots all stay. */
    method DeleteServer(id: Id, now: Time) returns (err: Option<Error>)
      requires Valid()
      modifies this
      ensures Valid()
      ensures err.None? ==> id in old(servers) && Live(old(servers[id]))
      ensures err.None? ==> Committed(WriteServer(id, old(servers[id]).(deletedAt := Some(now))))
      ensures err.Some? ==> NoEffect(err.value) && (err.value == Unavailable || err.value == NotFound)
      ensures err == Some(NotFound) ==> id !in servers || !Live(servers[id])
    {
      if id in servers && Live(servers[id]) {
        err := UpdateServerColumns(id, (row: Server) => row.(deletedAt := Some(now)));
      } else {
        var through: bool := *;
        if !through { faults := faults + 1; return Some(Unavailable); }
        err := Some(NotFound);
      }
    }

    method CreateServer(details: ServerDetails) returns (r: Result<Id, Error>)
      requires Valid()
      modifies this
      ensures Valid()
      ensures r.Ok? ==> r.value !in old(servers) && Committed(WriteServer(r.value, NewServer(details)))
      ensures r.Err? ==> NoEffect(r.error)
      ensures r.Err? && r.error != Unavailable ==> exists s <- servers :: SameURL(servers[s], NewServer(details))
    {
      var through: bool := *;
      if !through { faults := faults + 1; return Err(Unavailable); }
      var id: Id := *;
      if id in servers { faults := faults + 1; return Err(Unavailable); }
      if exists s <- servers :: SameURL(servers[s], NewServer(details)) { return Err(Refused); }
      ghost var before := View();
      servers := servers[id := NewServer(details)];
      Commit(before, WriteServer(id, NewServer(details)));
      r := Ok(id);
    }

    /** Un-archives a row under freshly submitted details; the kill switch columns are left as they were. */
    method ReviveServer(id: Id, details: ServerDetails) returns (err: Option<Error>)
      requires Valid()
      modifies this
      ensures Valid()
      ensures err.None? ==> id in old(servers) && Committed(WriteServer(id, Revived(old(servers[id]), details)))
      ensures err.Some? ==> NoEffect(err.value)
      ensures err.Some? && err.value != Unavailable && id in servers ==>
        !Allowed(View(), WriteServer(id, Revived(servers[id], details)))
    {
      var through: bool := *;
      if !through { faults := faults + 1; return Some(Unavailable); }
      if id !in servers { return Some(NotFound); }
      if exists s <- servers :: s != id && SameURL(servers[s], NewServer(details)) {
        return Some(Refused);
      }
      ghost var before := View();
      servers := servers[id := Revived(servers[id], details)];
      Commit(before, WriteServer(id, servers[id]));
      err := None;
    }

    /** Repoints a live server. */
    method UpdateServerAPIURL(id: Id, apiURL: string, certSHA256: string) returns (err: Option<Error>)
      requires Valid()
      modifies this
      ensures Valid()
      ensures err.None? ==> id in old(servers) && Live(old(servers[id]))
      ensures err.None? ==>
        Committed(WriteServer(id, old(servers[id]).(apiURL := apiURL, certSHA256 := certSHA256, syncFailed := false)))
      ensures err.Some? ==> NoEffect(err.value)
      ensures err.Some? && err.value != Unavailable && id in servers && Live(servers[id]) ==>
        exists s <- servers :: s != id && Live(servers[s]) && servers[s].apiURL == apiURL
    {
      var through: bool := *;
      if !through { faults := faults + 1; return Some(Unavailable); }
      if id !in servers || !Live(servers[id]) { return Some(NotFound); }
      var row := servers[id].(apiURL := apiURL, certSHA256 := certSHA256, syncFailed := false);
      if exists s <- servers :: s != id && SameURL(servers[s], row) {
        return Some(Refused);
      }
      ghost var before := View();
      servers := servers[id := row];
      Commit(before, WriteServer(id, row));
      err := None;
    }
  }

  // ---------------------------------------------------------------- server rows

  /** What an admin submits when adding a server. */
  datatype ServerDetails = ServerDetails(
    name: string, apiURL: string, certSHA256: string, maxKeys: Option<int>,
    defaultLimitBytes: Option<int>, defaultPriceMmk: Option<int>, bandwidthLimitBytes: Option<int>)

  function NewServer(d: ServerDetails): Server {
    Server(d.name, d.apiURL, d.certSHA256, d.maxKeys, d.defaultLimitBytes, d.defaultPriceMmk,
           d.bandwidthLimitBytes, None, None, None, false)
  }

  function Revived(row: Server, d: ServerDetails): Server {
    NewServer(d).(bandwidthDisabledAt := row.bandwidthDisabledAt, bandwidthReenabledAt := row.bandwidthReenabledAt)
  }

  // ---------------------------------------------------------------- rows and row sets

  /** A keys row as the column defaults leave it. */
  function NewRow(server: Id, outlineID: string, name: string, access: string, token: string): Key {
    Key(server, outlineID, name, access, 0, None, None, None, true, Active, None, token, false)
  }

  lemma Listed<T(!new)>(ids: seq<T>, s: set<T>, j: nat)
    requires Enumerates(ids, s) && j < |ids|
    ensures ids[j] in s
  {
  }

  /** Nobody's, unused, working, and without quota, end date or price. */
  predicate AdoptedRow(row: Key, server: Id, outlineID: string, name: string, access: string) {
    && row.serverID == server && row.outlineID == outlineID && row.name == name && row.access == access
    && row.usedBytes == 0 && row.limitBytes.None? && row.endDate.None? && row.priceMmk.None? && row.userID.None?
    && row.enabled && row.status == Active && !row.autoRenew
  }

  /** Every member of s, once each, in some order. */
  ghost predicate Enumerates<T(!new)>(ids: seq<T>, s: set<T>) {
    && (forall i, j | 0 <= i < j < |ids| :: ids[i] != ids[j])
    && (forall x :: x in ids <==> x in s)
  }

  method Enumerate<T(!new)>(s: set<T>) returns (ids: seq<T>)
    ensures Enumerates(ids, s)
  {
    ids := [];
    var rest := s;
    while rest != {}
      invariant rest <= s
      invariant Enumerates(ids, s - rest)
      decreases rest
    {
      var x :| x in rest;
      ids, rest := ids + [x], rest - {x};
    }
  }
}
