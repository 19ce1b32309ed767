/** The handlers that give keys to users, move them, and take them back. */
module UserHandlers {
  import opened Wrappers
  import opened Calendar
  import opened Models
  import opened Store
  import opened Repositories
  import opened Outline
  import opened Policy
  import opened Convergence
  import opened Enforcement
  import opened KeyHandlers

  // ---------------------------------------------------------------- moving one holder

  predicate SameUser(db: DB, after: DB, v: Id)
    requires v in db.users
  {
    v in after.users && after.users[v] == db.users[v]
  }

  /** Held by somebody other than u. */
  predicate Elsewhere(key: Key, u: Id) { key.userID.Some? && key.userID.value != u }

  /**
    Wherever moving holder u onto key `target` stops: their primary is the old one or the target, everybody
    else's record is as it was, and of the keys on record only the target and u's old primary have changed, the
    latter at most by having been released. No server or snapshot changes, and nothing is logged but for the target.
  */
  ghost predicate OnlyMoves(db: DB, after: DB, u: Id, target: Id) {
    && after.servers == db.servers && after.snapshots == db.snapshots
    && LogsOnly(db.renewals, after.renewals, target)
    && after.users.Keys == db.users.Keys
    && (forall v {:trigger SameUser(db, after, v)} | v in db.users :: v != u ==> SameUser(db, after, v))
    && (u in db.users ==>
          (after.users[u] == db.users[u] || after.users[u] == db.users[u].(primaryKeyID := Some(target))))
    && db.keys.Keys <= after.keys.Keys <= db.keys.Keys + {target}
    && (forall k {:trigger MovedRow(db, after, u, target, k)} | k in db.keys :: MovedRow(db, after, u, target, k))
  }

  /** A key of somebody else's is exactly as it was, and so is any other but the target and the one released. */
  predicate MovedRow(db: DB, after: DB, u: Id, target: Id, k: Id)
    requires k in db.keys
  {
    && k in after.keys
    && (|| after.keys[k] == db.keys[k]
        || (!Elsewhere(db.keys[k], u) && k == target
            && (after.keys[k].userID == db.keys[k].userID || after.keys[k].userID == Some(u)))
        || (k != target && IsPrimary(db, u, k) && after.keys[k] == db.keys[k].(userID := None)))
  }

  predicate IsPrimary(db: DB, u: Id, k: Id) { u in db.users && db.users[u].primaryKeyID == Some(k) }

  predicate LogsOnly(renewals: seq<RenewalLog>, newRenewals: seq<RenewalLog>, k: Id) {
    && renewals <= newRenewals
    && forall i | |renewals| <= i < |newRenewals| :: newRenewals[i].keyID == k
  }

  /** ... so nobody else's key changes in any way. */
  lemma OthersUntouched(db: DB, after: DB, u: Id, target: Id)
    requires Sound(db) && OnlyMoves(db, after, u, target)
    ensures forall k <- db.keys :: Elsewhere(db.keys[k], u) ==> k in after.keys && after.keys[k] == db.keys[k]
    ensures forall v <- db.users :: v != u ==> v in after.users && after.users[v] == db.users[v]
  {
    forall k <- db.keys | Elsewhere(db.keys[k], u) ensures k in after.keys && after.keys[k] == db.keys[k] {
      assert MovedRow(db, after, u, target, k);
      if u in db.users { assert PrimaryIsTheirs(db, u); }
    }
    forall v <- db.users | v != u
      ensures v in after.users && after.users[v] == db.users[v] { assert SameUser(db, after, v); }
  }

  /** ... so a holder who had a working link never loses it on the way. */
  lemma NeverStranded(db: DB, after: DB, u: Id, target: Id)
    requires OnlyMoves(db, after, u, target) && Sound(after)
    requires u in db.users && db.users[u].primaryKeyID.Some?
    ensures u in after.users && after.users[u].primaryKeyID.Some?
    ensures after.users[u].primaryKeyID == db.users[u].primaryKeyID || after.users[u].primaryKeyID == Some(target)
    ensures Holds(after, u, after.users[u].primaryKeyID.value)
    ensures forall v <- db.users :: v != u ==> v in after.users && after.users[v] == db.users[v]
  {
    assert PrimaryIsTheirs(after, u);
    forall v <- db.users | v != u
      ensures v in after.users && after.users[v] == db.users[v] { assert SameUser(db, after, v); }
  }

  ghost predicate AlwaysOnlyMoves(db: DB, history: seq<DB>, n: nat, u: Id, target: Id) {
    forall i {:trigger OnlyMoves(db, history[i], u, target)} | n <= i < |history| ::
      OnlyMoves(db, history[i], u, target)
  }

  /** A provisioning leaves everybody where they were. */
  lemma QuietIsMove(db: DB, after: DB, u: Id, target: Id)
    requires Quiet(db, after, target)
    ensures OnlyMoves(db, after, u, target)
  {
    forall k | k in db.keys ensures MovedRow(db, after, u, target, k) { assert SameRow(db, after, k); }
  }

  lemma QuietOnlyMoves(db: DB, history: seq<DB>, n: nat, u: Id, target: Id)
    requires AllQuiet(db, history, n, target)
    ensures AlwaysOnlyMoves(db, history, n, u, target)
  {
    forall i | n <= i < |history| ensures OnlyMoves(db, history[i], u, target) {
      assert Quiet(db, history[i], target);
      QuietIsMove(db, history[i], u, target);
    }
  }

  /** Handing over a key nobody else holds. */
  lemma AssignOnlyMoves(db: DB, u: Id, target: Id)
    requires Sound(db) && target in db.keys && !Elsewhere(db.keys[target], u)
    ensures OnlyMoves(db, Store.SetKeyUser(db, target, Some(u)), u, target)
    ensures OnlyTaken(db, Store.SetKeyUser(db, target, Some(u)), u, target)
    ensures SameButHolders(db.keys, Store.SetKeyUser(db, target, Some(u)).keys)
    ensures u in db.users ==> Store.SetKeyUser(db, target, Some(u)).users[u] == db.users[u]
  {
    var after := Store.SetKeyUser(db, target, Some(u));
    forall v | v in db.users ensures SameUser(db, after, v) {
      assert PrimaryIsTheirs(db, v);
    }
  }

  /** Nominating the target, and letting go of the old primary afterwards. */
  lemma NominateOnlyMoves(db: DB, now: DB, u: Id, target: Id)
    requires OnlyMoves(db, now, u, target) && u in db.users
    ensures OnlyMoves(db, Store.SetUserPrimaryKey(now, u, Some(target)), u, target)
  {
    var after := Store.SetUserPrimaryKey(now, u, Some(target));
    forall v | v in db.users && v != u ensures SameUser(db, after, v) { assert SameUser(db, now, v); }
    forall k | k in db.keys
      ensures MovedRow(db, after, u, target, k) { assert MovedRow(db, now, u, target, k); }
  }

  lemma SameKeysKeepRows(db: DB, now: DB, after: DB)
    requires RowsKept(db, now) && after.keys == now.keys
    ensures RowsKept(db, after)
  {
    forall k | k in db.keys ensures SameRow(db, after, k) { assert SameRow(db, now, k); }
  }

  lemma StartOnlyMoves(db: DB, u: Id, target: Id)
    ensures OnlyMoves(db, db, u, target)
  {
  }

  /** Editing the target moves nobody. */
  lemma RenameOnlyMoves(db: DB, now: DB, after: DB, u: Id, target: Id)
    requires OnlyMoves(db, now, u, target) && after == now.(keys := after.keys, renewals := after.renewals)
    requires LogsOnly(now.renewals, after.renewals, target)
    requires target in now.keys && target in after.keys && after.keys == now.keys[target := after.keys[target]]
    requires after.keys[target].userID == now.keys[target].userID
    requires target in db.keys ==> !Elsewhere(db.keys[target], u)
    ensures OnlyMoves(db, after, u, target)
  {
    forall v | v in db.users && v != u ensures SameUser(db, after, v) { assert SameUser(db, now, v); }
    forall k | k in db.keys
      ensures MovedRow(db, after, u, target, k) { assert MovedRow(db, now, u, target, k); }
  }

  lemma MovesExtend(db: DB, history: seq<DB>, longer: seq<DB>, n: nat, u: Id, target: Id)
    requires AlwaysOnlyMoves(db, history, n, u, target)
    requires
      || longer == history
      || (|longer| == |history| + 1 && longer[..|history|] == history && OnlyMoves(db, longer[|history|], u, target))
    ensures AlwaysOnlyMoves(db, longer, n, u, target)
  {
  }

  lemma ReleaseOnlyMoves(db: DB, now: DB, u: Id, target: Id, previous: Id)
    requires Sound(db) && Sound(now) && OnlyMoves(db, now, u, target)
    requires u in db.users && db.users[u].primaryKeyID == Some(previous) && previous != target
    requires now.users[u].primaryKeyID == Some(target) && previous in now.keys
    ensures OnlyMoves(db, Store.SetKeyUser(now, previous, None), u, target)
    ensures Store.SetKeyUser(now, previous, None).users[u].primaryKeyID == Some(target)
  {
    var after := Store.SetKeyUser(now, previous, None);
    assert PrimaryIsTheirs(db, u);
    forall v | v in db.users && v != u ensures SameUser(db, after, v) {
      assert SameUser(db, now, v);
      assert PrimaryIsTheirs(db, v);
    }
    forall k | k in db.keys
      ensures MovedRow(db, after, u, target, k) { assert MovedRow(db, now, u, target, k); }
  }

  /** A live server with room for one key more. */
  predicate CanTake(keys: map<Id, Key>, servers: map<Id, Server>, s: Id) {
    && s in servers && Live(servers[s])
    && (servers[s].maxKeys.Some? ==> |KeysOn(keys, s)| < servers[s].maxKeys.value)
  }

  /** The key the holder was on is nobody's now. */
  predicate Released(keys: map<Id, Key>, previous: Option<Id>, target: Id) {
    previous.Some? && previous.value != target && previous.value in keys ==> keys[previous.value].userID.None?
  }

  /** The row is still there for the same key, and so is the key on its box if it was. */
  predicate StillOnBox(keys: map<Id, Key>, newKeys: map<Id, Key>, boxes: Boxes, newBoxes: Boxes, id: Id) {
    id in keys ==>
      && id in newKeys && SameOutlineKey(newKeys[id], keys[id])
      && (Has(boxes, keys[id].serverID, keys[id].outlineID) ==> Has(newBoxes, keys[id].serverID, keys[id].outlineID))
  }

  /** A key is as it was but for its name. */
  predicate BoxRenamed(boxes: Boxes, newBoxes: Boxes, s: Id, o: string, name: string) {
    newBoxes == boxes || (Has(boxes, s, o) && newBoxes == WithKey(boxes, s, o, boxes[s][o].(name := name)))
  }

  /** No box differs, but for the one key of row id. */
  predicate BoxTouched(keys: map<Id, Key>, id: Id, boxes: Boxes, newBoxes: Boxes) {
    || newBoxes == boxes
    || (&& id in keys
        && var s, o := keys[id].serverID, keys[id].outlineID;
           Has(boxes, s, o) && Has(newBoxes, s, o) && newBoxes == WithKey(boxes, s, o, newBoxes[s][o]))
  }

  lemma TouchedAgain(keys: map<Id, Key>, mid: map<Id, Key>, id: Id, boxes: Boxes, midBoxes: Boxes, newBoxes: Boxes)
    requires BoxTouched(keys, id, boxes, midBoxes) && BoxTouched(mid, id, midBoxes, newBoxes)
    requires id in keys && id in mid && SameOutlineKey(mid[id], keys[id])
    ensures BoxTouched(keys, id, boxes, newBoxes)
  {
    var s, o := keys[id].serverID, keys[id].outlineID;
    if newBoxes != midBoxes && midBoxes != boxes {
      assert boxes[s][o := midBoxes[s][o]][o := newBoxes[s][o]] == boxes[s][o := newBoxes[s][o]];
    }
  }

  /** A key on record is as it was but for its holder and its name, and no other differs in either store. */
  predicate ClaimedAlone(keys: map<Id, Key>, newKeys: map<Id, Key>, boxes: Boxes, newBoxes: Boxes, u: Id, id: Id,
                         newName: string)
  {
    if id !in keys then newKeys == keys && newBoxes == boxes
    else
      var key := keys[id];
      && (newKeys == keys || newKeys == keys[id := key.(userID := Some(u))]
          || (newName != "" && newKeys == keys[id := key.(userID := Some(u), name := newName)]))
      && (newBoxes == boxes || newName != "") && BoxRenamed(boxes, newBoxes, key.serverID, key.outlineID, newName)
  }

  /** No key but this one changes, and this one goes at most to u. */
  ghost predicate OnlyTaken(db: DB, after: DB, u: Id, id: Id) {
    && (forall k {:trigger SameRow(db, after, k)} | k in db.keys && k != id :: SameRow(db, after, k))
    && (id in db.keys ==> SameHolder(db, after, id) || Holds(after, u, id))
  }

  predicate SameHolder(db: DB, after: DB, k: Id)
    requires k in db.keys
  {
    k in after.keys && after.keys[k].userID == db.keys[k].userID
  }

  lemma StillOnlyTaken(db: DB, now: DB, after: DB, u: Id, id: Id)
    requires OnlyTaken(db, now, u, id)
    requires id in now.keys && id in after.keys && after.keys == now.keys[id := after.keys[id]]
    requires after.keys[id].userID == now.keys[id].userID
    ensures OnlyTaken(db, after, u, id)
  {
    forall k | k in db.keys && k != id ensures SameRow(db, after, k) { assert SameRow(db, now, k); }
  }

  /** An edit to a key just taken moves nobody. */
  lemma EditOnlyMoves(db: DB, now: DB, after: DB, u: Id, id: Id)
    requires OnlyMoves(db, now, u, id) && OnlyTaken(db, now, u, id)
    requires id in db.keys ==> !Elsewhere(db.keys[id], u)
    requires after == now.(keys := after.keys, renewals := after.renewals) && LogsOnly(now.renewals, after.renewals, id)
    requires id in now.keys && id in after.keys
    requires after.keys == now.keys[id := after.keys[id]] && after.keys[id].userID == now.keys[id].userID
    ensures OnlyMoves(db, after, u, id) && OnlyTaken(db, after, u, id)
  {
    RenameOnlyMoves(db, now, after, u, id);
    StillOnlyTaken(db, now, after, u, id);
  }

  /** A new holder can be given what was asked for: a free key, a fresh one, or none. */
  predicate Equippable(db: DB, boxes: Boxes, keyID: Option<Id>, serverID: Option<Id>) {
    if keyID.Some? then OnLiveBox(db.keys, db.servers, boxes, keyID.value) && db.keys[keyID.value].userID.None?
    else serverID.Some? ==> CanTake(db.keys, db.servers, serverID.value)
  }

  /** Nobody holds the key asked for, or there is room for a fresh one. */
  predicate Grantable(db: DB, boxes: Boxes, keyID: Option<Id>, s: Id, server: Option<Server>) {
    if keyID.Some? then OnLiveBox(db.keys, db.servers, boxes, keyID.value) && db.keys[keyID.value].userID.None?
    else server.Some? ==> CanTake(db.keys, db.servers, s) && db.servers[s] == server.value
  }

  predicate CanEquip(db: DB, boxes: Boxes, u: Id, keyID: Option<Id>, s: Id, server: Option<Server>) {
    if keyID.Some? then OnLiveBox(db.keys, db.servers, boxes, keyID.value) && !Elsewhere(db.keys[keyID.value], u)
    else server.Some? ==> CanTake(db.keys, db.servers, s) && db.servers[s] == server.value
  }

  /** The key a new holder is given is theirs, primary and on its plan, and a fresh one at its server's price. */
  ghost predicate GivenKey(fl: Rounding, now: Time, db: DB, after: DB, u: Id, name: string, keyID: Option<Id>,
                           serverID: Option<Id>, keyName: string, addGB: real, addDays: int)
  {
    && u in after.users && after.users[u].primaryKeyID.Some?
    && after.users[u].primaryKeyID.value in after.keys
    && var k := after.users[u].primaryKeyID.value;
       var row := after.keys[k];
       var s := if keyID.Some? && k in db.keys then db.keys[k].serverID else serverID.GetOr(0);
       && row.userID == Some(u) && s in db.servers && PlanAccepted(addGB, addDays)
       && (if keyID.Some? then keyID == Some(k) && k in db.keys
           else MadeFor(fl, now, row, Some(u), s, db.servers[s], if keyName == "" then name else keyName, addGB,
                        addDays))
       && Allotted(fl, now, row.limitBytes, row.endDate, db.servers[s], addGB, addDays)
  }

  lemma GivenAsAsked(fl: Rounding, now: Time, db: DB, after: DB, u: Id, name: string, keyID: Option<Id>,
                     serverID: Option<Id>, s: Id, server: Server, keyName: string, addGB: real, addDays: int,
                     plan: KeyPlan)
    requires s in db.servers && db.servers[s] == server
    requires u in after.users && after.users[u].primaryKeyID.Some?
    requires ResolveKeyPlan(fl, now, server, addGB, addDays) == Some(plan)
    requires if keyID.Some? then
               && keyID.value in db.keys && db.keys[keyID.value].serverID == s
               && after.users[u].primaryKeyID == keyID && Holds(after, u, keyID.value)
               && after.keys[keyID.value].limitBytes == plan.limitBytes
               && after.keys[keyID.value].endDate == plan.endDate
             else
               && serverID == Some(s) && after.users[u].primaryKeyID.value in after.keys
               && FreshOn(after.keys[after.users[u].primaryKeyID.value], s, if keyName == "" then name else keyName,
                          plan, Some(u), server.defaultPriceMmk)
    ensures GivenKey(fl, now, db, after, u, name, keyID, serverID, keyName, addGB, addDays)
  {
    PlanAllots(fl, now, server, addGB, addDays);
  }

  /** The state in which user u has only just been inserted. */
  ghost predicate JustAdded(db: DB, added: DB, u: Id) {
    && Sound(db) && u !in db.users && u in added.users
    && added.users == db.users[u := added.users[u]] && added.keys == db.keys && added.users[u].primaryKeyID.None?
  }

  /** Equipping a new user leaves all earlier ones alone. */
  lemma UsersAfter(db: DB, added: DB, after: DB, u: Id, id: Id)
    requires JustAdded(db, added, u) && OnlyMoves(added, after, u, id)
    ensures forall v <- db.users :: v in after.users && after.users[v] == db.users[v]
    ensures after.users.Keys == db.users.Keys + {u} && after.users[u].name == added.users[u].name
  {
    forall v <- db.users ensures v in after.users && after.users[v] == db.users[v] { assert SameUser(added, after, v); }
  }

  /** Deleting them again undoes everything but what was done to the key meant for them. */
  lemma UserTakenBack(db: DB, added: DB, equipped: DB, u: Id, id: Id)
    requires JustAdded(db, added, u)
    requires OnlyMoves(added, equipped, u, id) && OnlyTaken(added, equipped, u, id)
    requires id in db.keys && Elsewhere(db.keys[id], u) ==> SameHolder(added, equipped, id)
    ensures Store.DeleteUser(equipped, u).users == db.users
    ensures RowsKeptBut(db, Store.DeleteUser(equipped, u), Some(id))
    ensures id in db.keys ==> SameHolder(db, Store.DeleteUser(equipped, u), id)
  {
    UsersAfter(db, added, equipped, u, id);
    var after := Store.DeleteUser(equipped, u);
    forall k | k in db.keys && k != id ensures SameRow(db, after, k) {
      assert Anchored(db, k) && SameRow(added, equipped, k);
    }
    if id in db.keys { assert Anchored(db, id); }
  }

  lemma NewKeyTakenBack(db: DB, added: DB, equipped: DB, u: Id, id: Id)
    requires JustAdded(db, added, u) && OnlyMoves(added, equipped, u, id) && RowsKept(added, equipped)
    ensures Store.DeleteUser(equipped, u).users == db.users
    ensures RowsKept(db, Store.DeleteUser(equipped, u))
  {
    UsersAfter(db, added, equipped, u, id);
    forall k | k in db.keys ensures SameRow(db, Store.DeleteUser(equipped, u), k) {
      assert Anchored(db, k) && SameRow(added, equipped, k);
    }
  }

  /** While the new user is there, too, only the key meant for them differs. */
  lemma TakenKeepsOthers(db: DB, added: DB, equipped: DB, u: Id, id: Id)
    requires added.keys == db.keys && OnlyTaken(added, equipped, u, id)
    ensures RowsKeptBut(db, equipped, Some(id))
  {
    forall k | k in db.keys && k != id ensures SameRow(db, equipped, k) { assert SameRow(added, equipped, k); }
  }

  lemma NewKeepsOthers(db: DB, added: DB, equipped: DB)
    requires added.keys == db.keys && RowsKept(added, equipped)
    ensures RowsKept(db, equipped)
  {
    forall k | k in db.keys ensures SameRow(db, equipped, k) { assert SameRow(added, equipped, k); }
  }

  ghost predicate RowsKeptBut(db: DB, after: DB, id: Option<Id>) {
    forall k {:trigger SameRow(db, after, k)} | k in db.keys && Some(k) != id :: SameRow(db, after, k)
  }

  // ---------------------------------------------------------------- resetting a usage counter

  /** How resetting a key's usage ends. */
  datatype ResetOutcome =
    | ResetDone(id: Id)
    | NoKey
    | NotFoundNow
    | NotRemoved
    | NotReplaced(why: Provisioned)
    | NotNominated

  /** The recreated key: same server, limit and end date, a zero counter, and nobody's auto-renewal. */
  predicate Recreated(row: Key, old0: Key, u: Id, s: Id) {
    && row.serverID == s && row.userID == Some(u) && row.name == old0.name
    && row.limitBytes == old0.limitBytes && row.endDate == old0.endDate
    && row.usedBytes == 0 && !row.autoRenew
  }

  /** A key on the box of a live server that is within its ceiling. */
  predicate Resettable(db: DB, boxes: Boxes, p: Id) {
    && OnLiveBox(db.keys, db.servers, boxes, p)
    && var s := db.keys[p].serverID;
       db.servers[s].maxKeys.Some? ==> |KeysOn(db.keys, s)| <= db.servers[s].maxKeys.value
  }

  /** Every key that is not u's primary stays as it is. */
  ghost predicate OthersKeepRows(db: DB, after: DB, u: Id) {
    forall k {:trigger SameRow(db, after, k)} | k in db.keys && !IsPrimary(db, u, k) :: SameRow(db, after, k)
  }

  lemma DeletedThenKept(db: DB, p: Id, after: DB, u: Id)
    requires IsPrimary(db, u, p) && RowsKept(Store.DeleteKey(db, p), after)
    requires after.renewals == Store.DeleteKey(db, p).renewals && after.snapshots == Store.DeleteKey(db, p).snapshots
    ensures OthersKeepRows(db, after, u) && HistoryLeft(db, after, p)
  {
    DeletingLeavesHistory(db, p);
    forall k | k in db.keys && k != p ensures SameRow(db, after, k) {
      assert SameRow(Store.DeleteKey(db, p), after, k);
    }
  }

  /** Removing a key from its box, and perhaps its row with it, puts nothing out of step. */
  lemma RemovedKeepsConverged(now: Time, servers: map<Id, Server>, keys: map<Id, Key>, newKeys: map<Id, Key>,
                              boxes: Boxes, newBoxes: Boxes, p: Id)
    requires p in keys
    requires
      var s, o := keys[p].serverID, keys[p].outlineID;
      if newBoxes == boxes then newKeys == keys
      else s in boxes && newBoxes == WithoutRemoteKey(boxes, s, o) && (newKeys == keys || newKeys == keys - {p})
    ensures KeptInStep(now, servers, servers, keys, newKeys, boxes, newBoxes, {})
  {
    if Converged(now, servers, keys, boxes) {
      forall t | t in servers && Live(servers[t])
        ensures AllAdopted(now, t, {}, newKeys, newBoxes, SwitchedOff(servers[t]))
      {
        var off := SwitchedOff(servers[t]);
        assert AllAdopted(now, t, {}, keys, boxes, off);
        forall o | o in newBoxes[t] ensures Adopted(now, t, o, newKeys, newBoxes, off) {
          assert Adopted(now, t, o, keys, boxes, off);
          var k :| k in keys && At(keys[k], t, o) && Settled(now, keys[k], boxes, off);
          assert k in newKeys && At(newKeys[k], t, o) && Settled(now, newKeys[k], newBoxes, off);
        }
      }
    }
  }

  /** Of all boxes, only the one of server s differs: the old key may be gone from it, and one more be there. */
  ghost predicate BoxReset(boxes: Boxes, newBoxes: Boxes, s: Id, o: string) {
    BoxGrown(boxes, newBoxes, s) || (s in boxes && BoxGrown(WithoutRemoteKey(boxes, s, o), newBoxes, s))
  }

  /** No server, and no entry or reading of another key, changes; nor does any box but the key's own. */
  ghost predicate OnlyReset(db: DB, after: DB, boxes: Boxes, newBoxes: Boxes, p: Id)
    requires p in db.keys
  {
    && after.servers == db.servers
    && ((after.renewals == db.renewals && after.snapshots == db.snapshots) || HistoryLeft(db, after, p))
    && BoxReset(boxes, newBoxes, db.keys[p].serverID, db.keys[p].outlineID)
  }

  /** Deleting u's primary key costs nobody else theirs. */
  lemma OthersKeepPrimary(db: DB, u: Id, p: Id)
    requires Sound(db) && u in db.users && db.users[u].primaryKeyID == Some(p)
    ensures forall v <- db.users :: v != u ==> Store.DeleteKey(db, p).users[v] == db.users[v]
  {
    forall v <- db.users | v != u ensures Store.DeleteKey(db, p).users[v] == db.users[v] {
      assert PrimaryIsTheirs(db, u) && PrimaryIsTheirs(db, v);
    }
  }

  lemma AsBefore(now: Time, row: Key, old0: Key, u: Id, priceMmk: Option<int>)
    requires OnPlan(now, row, KeyPlan(old0.limitBytes, old0.endDate), Some(u), priceMmk) && row.name == old0.name
    ensures Recreated(row, old0, u, row.serverID) && row.priceMmk == priceMmk
  {
  }

  /** A key made and then priced: one key more, and no more out of step than before. */
  lemma AddedThenPriced(now: Time, db: DB, made: DB, after: DB, id: Id, boxes: Boxes, newBoxes: Boxes, lost: set<Place>)
    requires id !in db.keys && id in made.keys && made.keys == db.keys[id := made.keys[id]]
    requires id in after.keys && after.keys == made.keys[id := after.keys[id]]
    requires AlikeOnBox(made.keys[id], after.keys[id])
    requires KeptInStep(now, db.servers, db.servers, db.keys, made.keys, boxes, newBoxes, lost)
    ensures after.keys == db.keys[id := after.keys[id]] && RowsKept(db, after)
    ensures KeptInStep(now, db.servers, db.servers, db.keys, after.keys, boxes, newBoxes, lost)
  {
    forall k | k in made.keys ensures AlikeOnBox(made.keys[k], after.keys[k]) { }
    AlikeKeepsConverged(now, db.servers, db.keys, made.keys, after.keys, boxes, newBoxes, lost);
  }

  /** An adjustment is logged with nothing added and nothing owed. */
  predicate Adjusts(e: RenewalLog, id: Id, limitBytes: Option<int>, endDate: Option<Time>) {
    && e.keyID == id && e.addedGB == 0.0 && e.addedDays == 0 && e.paid && e.amountMmk.None?
    && e.newLimitBytes == limitBytes && e.newEndDate == endDate
  }

  class UserAPI {
    const keyAPI: KeyAPI
    const enforcer: Enforcer
    const repo: Repository
    const outline: Fleet

    constructor (keyAPI: KeyAPI)
      ensures this.keyAPI == keyAPI && enforcer == keyAPI.enforcer && repo == keyAPI.repo && outline == keyAPI.outline
    {
      this.keyAPI, this.enforcer, this.repo, this.outline := keyAPI, keyAPI.enforcer, keyAPI.repo, keyAPI.outline;
    }

    ghost predicate Valid()
      reads repo
    {
      keyAPI.enforcer == enforcer && keyAPI.repo == repo && keyAPI.outline == outline && keyAPI.Valid()
    }

    /** Renames a claimed key on its box, then locally; failures are ignored. */
    method RenameClaimedKey(id: Id, key: Key, name: string)
      requires Valid() && id in repo.keys && SameOutlineKey(repo.keys[id], key)
      modifies repo, outline
      ensures Valid() && id in repo.keys
      ensures repo.View() == old(repo.View()).(keys := repo.keys)
      ensures repo.keys == old(repo.keys) || repo.keys == old(repo.keys)[id := old(repo.keys[id]).(name := name)]
      ensures BoxRenamed(old(outline.boxes), outline.boxes, key.serverID, key.outlineID, name)
      ensures repo.history == old(repo.history) || repo.history == old(repo.history) + [repo.View()]
      ensures enforcer.Faults() >= old(enforcer.Faults())
      ensures StillOnBox(old(repo.keys), repo.keys, old(outline.boxes), outline.boxes, id)
    {
      var server := repo.GetServer(key.serverID);
      if server.Err? { return; }
      var err := outline.RenameAccessKey(key.serverID, key.outlineID, name);
      if err.Some? { return; }
      err := repo.SetKeyName(id, name);
    }

    /** Assigns a free key, then nominates it. */
    method AssignAndNominate(u: Id, id: Id) returns (ok: bool)
      requires Valid() && id in repo.keys && !Elsewhere(repo.keys[id], u)
      modifies repo
      ensures Valid() && repo.servers == old(repo.servers) && repo.renewals == old(repo.renewals)
      ensures repo.keys == old(repo.keys) || repo.keys == old(repo.keys)[id := old(repo.keys[id]).(userID := Some(u))]
      ensures ok ==> u in repo.users && repo.users[u].primaryKeyID == Some(id) && Holds(repo.View(), u, id)
      ensures u !in old(repo.users) ==> !ok && repo.View() == old(repo.View()) && repo.history == old(repo.history)
      ensures old(repo.history) <= repo.history
      ensures AlwaysOnlyMoves(old(repo.View()), repo.history, |old(repo.history)|, u, id)
      ensures OnlyMoves(old(repo.View()), repo.View(), u, id)
      ensures enforcer.Faults() >= old(enforcer.Faults())
      ensures enforcer.Faults() == old(enforcer.Faults()) ==> (ok <==> u in old(repo.users))
    {
      ghost var db := repo.View();
      AssignOnlyMoves(db, u, id);
      var err := repo.SetKeyUser(id, Some(u));
      if err.Some? { return false; }
      assert AlwaysOnlyMoves(db, repo.history, |old(repo.history)|, u, id);
      ok := Nominate(u, id, db, |old(repo.history)|);
    }

    /** Makes a key of theirs what their link leads to. */
    method Nominate(u: Id, target: Id, ghost db: DB, ghost n: nat) returns (ok: bool)
      requires Valid() && n <= |repo.history|
      requires u in db.users && u in repo.users && Holds(repo.View(), u, target)
      requires OnlyMoves(db, repo.View(), u, target) && AlwaysOnlyMoves(db, repo.history, n, u, target)
      modifies repo
      ensures Valid() && old(repo.history) <= repo.history
      ensures repo.keys == old(repo.keys) && repo.servers == old(repo.servers) && repo.renewals == old(repo.renewals)
      ensures OnlyMoves(db, repo.View(), u, target) && AlwaysOnlyMoves(db, repo.history, n, u, target)
      ensures ok ==> u in repo.users && repo.users[u].primaryKeyID == Some(target)
      ensures enforcer.Faults() == old(enforcer.Faults()) + if ok then 0 else 1
    {
      ghost var history := repo.history;
      NominateOnlyMoves(db, repo.View(), u, target);
      var err := repo.SetUserPrimaryKey(u, Some(target));
      ok := err.None?;
      MovesExtend(db, history, repo.history, n, u, target);
    }

    /** Hands a key to a user and makes it what their link leads to, unless somebody else holds it. */
    method ClaimFreeKey(u: Id, id: Id, newName: string) returns (ok: bool)
      requires Valid()
      modifies repo, outline
      ensures Valid() && repo.servers == old(repo.servers) && repo.renewals == old(repo.renewals)
      ensures id !in old(repo.keys) || Elsewhere(old(repo.keys[id]), u) || u !in old(repo.users) ==>
        !ok && repo.View() == old(repo.View())
      ensures ok ==> u in repo.users && repo.users[u].primaryKeyID == Some(id) && Holds(repo.View(), u, id)
      ensures old(repo.history) <= repo.history
      ensures AlwaysOnlyMoves(old(repo.View()), repo.history, |old(repo.history)|, u, id)
      ensures OnlyMoves(old(repo.View()), repo.View(), u, id)
      ensures OnlyTaken(old(repo.View()), repo.View(), u, id)
      ensures enforcer.Faults() >= old(enforcer.Faults())
      ensures enforcer.Faults() == old(enforcer.Faults()) ==>
        (ok <==> id in old(repo.keys) && !Elsewhere(old(repo.keys[id]), u) && u in old(repo.users))
      ensures StillOnBox(old(repo.keys), repo.keys, old(outline.boxes), outline.boxes, id)
      ensures ClaimedAlone(old(repo.keys), repo.keys, old(outline.boxes), outline.boxes, u, id, newName)
    {
      StartOnlyMoves(repo.View(), u, id);
      var key := repo.GetKey(id);
      if key.Err? || (key.value.userID.Some? && key.value.userID.value != u) { return false; }
      ok := HandOver(u, id, key.value, newName);
    }

    /** The claim itself, the key being free or already theirs. */
    method HandOver(u: Id, id: Id, key: Key, newName: string) returns (ok: bool)
      requires Valid() && id in repo.keys && !Elsewhere(repo.keys[id], u) && SameOutlineKey(repo.keys[id], key)
      modifies repo, outline
      ensures Valid() && repo.servers == old(repo.servers) && repo.renewals == old(repo.renewals)
      ensures u !in old(repo.users) ==> !ok && repo.View() == old(repo.View())
      ensures ok ==> u in repo.users && repo.users[u].primaryKeyID == Some(id) && Holds(repo.View(), u, id)
      ensures old(repo.history) <= repo.history
      ensures AlwaysOnlyMoves(old(repo.View()), repo.history, |old(repo.history)|, u, id)
      ensures OnlyMoves(old(repo.View()), repo.View(), u, id)
      ensures OnlyTaken(old(repo.View()), repo.View(), u, id)
      ensures enforcer.Faults() >= old(enforcer.Faults())
      ensures enforcer.Faults() == old(enforcer.Faults()) ==> (ok <==> u in old(repo.users))
      ensures StillOnBox(old(repo.keys), repo.keys, old(outline.boxes), outline.boxes, id)
      ensures ClaimedAlone(old(repo.keys), repo.keys, old(outline.boxes), outline.boxes, u, id, newName)
    {
      ok := AssignAndNominate(u, id);
      if ok { ok := ClaimTaken(u, id, key, newName, old(repo.View()), |old(repo.history)|); }
    }

    /** The rest of a claim, which only renames. */
    method ClaimTaken(u: Id, id: Id, key: Key, newName: string, ghost db: DB, ghost n: nat) returns (ok: bool)
      requires Valid() && id in repo.keys && SameOutlineKey(repo.keys[id], key) && n <= |repo.history|
      requires OnlyMoves(db, repo.View(), u, id) && OnlyTaken(db, repo.View(), u, id)
      requires AlwaysOnlyMoves(db, repo.history, n, u, id) && (id in db.keys ==> !Elsewhere(db.keys[id], u))
      modifies repo, outline
      ensures Valid() && id in repo.keys && old(repo.history) <= repo.history
      ensures repo.View() == old(repo.View()).(keys := repo.keys) && repo.keys[id].userID == old(repo.keys[id]).userID
      ensures repo.keys == old(repo.keys)
              || (newName != "" && repo.keys == old(repo.keys)[id := old(repo.keys[id]).(name := newName)])
      ensures outline.boxes == old(outline.boxes) || newName != ""
      ensures BoxRenamed(old(outline.boxes), outline.boxes, key.serverID, key.outlineID, newName)
      ensures OnlyMoves(db, repo.View(), u, id) && OnlyTaken(db, repo.View(), u, id)
      ensures AlwaysOnlyMoves(db, repo.history, n, u, id)
      ensures enforcer.Faults() >= old(enforcer.Faults())
      ensures enforcer.Faults() == old(enforcer.Faults()) ==> ok
      ensures StillOnBox(old(repo.keys), repo.keys, old(outline.boxes), outline.boxes, id)
    {
      ghost var now, history := repo.View(), repo.history;
      ok := FinishClaim(id, key, newName);
      EditOnlyMoves(db, now, repo.View(), u, id);
      MovesExtend(db, history, repo.history, n, u, id);
    }

    /** A new holder's key is renamed after them; that failing does not fail the claim. */
    method FinishClaim(id: Id, key: Key, newName: string) returns (ok: bool)
      requires Valid() && id in repo.keys && SameOutlineKey(repo.keys[id], key)
      modifies repo, outline
      ensures Valid() && id in repo.keys
      ensures repo.View() == old(repo.View()).(keys := repo.keys)
      ensures repo.keys == old(repo.keys)
              || (newName != "" && repo.keys == old(repo.keys)[id := old(repo.keys[id]).(name := newName)])
      ensures outline.boxes == old(outline.boxes) || newName != ""
      ensures BoxRenamed(old(outline.boxes), outline.boxes, key.serverID, key.outlineID, newName)
      ensures repo.history == old(repo.history) || repo.history == old(repo.history) + [repo.View()]
      ensures enforcer.Faults() >= old(enforcer.Faults())
      ensures enforcer.Faults() == old(enforcer.Faults()) ==> ok
      ensures StillOnBox(old(repo.keys), repo.keys, old(outline.boxes), outline.boxes, id)
    {
      if newName != "" && newName != key.name { RenameClaimedKey(id, key, newName); }
      var claimed := repo.GetKey(id);
      ok := claimed.Ok?;
    }

    // -------------------------------------------------------------- changing a holder's key

    /** Best-effort unlinking of the key the holder was on. */
    method ReleaseOld(u: Id, previous: Option<Id>, target: Id, ghost db: DB, ghost n: nat)
      requires Valid() && n <= |repo.history|
      requires Sound(db) && u in db.users && db.users[u].primaryKeyID == previous
      requires OnlyMoves(db, repo.View(), u, target) && AlwaysOnlyMoves(db, repo.history, n, u, target)
      requires repo.users[u].primaryKeyID == Some(target)
      modifies repo
      ensures Valid() && old(repo.history) <= repo.history
      ensures OnlyMoves(db, repo.View(), u, target) && AlwaysOnlyMoves(db, repo.history, n, u, target)
      ensures u in repo.users && repo.users[u].primaryKeyID == Some(target)
      ensures SameButHolders(old(repo.keys), repo.keys) && repo.renewals == old(repo.renewals)
      ensures target in old(repo.keys) ==> target in repo.keys && repo.keys[target] == old(repo.keys)[target]
      ensures enforcer.Faults() >= old(enforcer.Faults())
      ensures enforcer.Faults() == old(enforcer.Faults()) ==> Released(repo.keys, previous, target)
    {
      if previous.None? || previous.value == target { return; }
      ghost var now, history := repo.View(), repo.history;
      var err := repo.SetKeyUser(previous.value, None);
      if err.None? {
        ReleaseOnlyMoves(db, now, u, target, previous.value);
        MovesExtend(db, history, repo.history, n, u, target);
      }
    }

    /** The "change key" action onto a free key that already exists. */
    method ReplaceWithFreeKey(u: Id, previous: Option<Id>, id: Id) returns (ok: bool)
      requires Valid() && u in repo.users && repo.users[u].primaryKeyID == previous
      modifies repo, outline
      ensures Valid() && old(repo.history) <= repo.history
      ensures OnlyMoves(old(repo.View()), repo.View(), u, id)
      ensures AlwaysOnlyMoves(old(repo.View()), repo.history, |old(repo.history)|, u, id)
      ensures SameButHolders(old(repo.keys), repo.keys) && repo.renewals == old(repo.renewals)
      ensures outline.boxes == old(outline.boxes)
      ensures ok ==> u in repo.users && repo.users[u].primaryKeyID == Some(id)
      ensures enforcer.Faults() >= old(enforcer.Faults())
      ensures enforcer.Faults() == old(enforcer.Faults()) ==>
        && (ok <==> id in old(repo.keys) && !Elsewhere(old(repo.keys[id]), u))
        && (ok ==> Released(repo.keys, previous, id))
    {
      ok := ClaimFreeKey(u, id, "");
      ghost var claimed := repo.keys;
      assert SameButHolders(old(repo.keys), claimed);
      if ok {
        ReleaseOld(u, previous, id, old(repo.View()), |old(repo.history)|);
        SameButHoldersOn(old(repo.keys), claimed, repo.keys);
      }
    }

    /** ... and onto a key freshly provisioned on a chosen server. */
    method ReplaceWithNewKey(now: Time, u: Id, previous: Option<Id>, s: Id, server: Server, name: string, plan: KeyPlan)
      returns (ok: bool, ghost target: Id, ghost lost: set<Place>)
      requires Valid() && u in repo.users && repo.users[u].primaryKeyID == previous
      requires s in repo.servers && Live(repo.servers[s])
      modifies repo, outline
      ensures Valid() && old(repo.history) <= repo.history
      ensures OnlyMoves(old(repo.View()), repo.View(), u, target)
      ensures AlwaysOnlyMoves(old(repo.View()), repo.history, |old(repo.history)|, u, target)
      ensures repo.renewals == old(repo.renewals)
      ensures BoxGrown(old(outline.boxes), outline.boxes, s)
      ensures |lost| <= enforcer.Faults() - old(enforcer.Faults())
      ensures KeptInStep(now, repo.servers, repo.servers, old(repo.keys), repo.keys, old(outline.boxes), outline.boxes,
                         lost)
      ensures ok ==> u in repo.users && repo.users[u].primaryKeyID == Some(target)
      ensures ok ==> target in repo.keys && FreshOn(repo.keys[target], s, name, plan, Some(u), server.defaultPriceMmk)
      ensures enforcer.Faults() >= old(enforcer.Faults())
      ensures enforcer.Faults() == old(enforcer.Faults()) ==>
        && (ok || (server.maxKeys.Some? && |KeysOn(old(repo.keys), s)| >= server.maxKeys.value))
        && (ok ==> Released(repo.keys, previous, target))
    {
      ghost var db, faults := repo.View(), enforcer.Faults();
      var r, clean := keyAPI.ProvisionKey(now, s, server, name, plan, Some(u));
      target := if HasKey(r) then r.id else 0;
      if HasKey(r) { QuietOnlyMoves(db, repo.history, |old(repo.history)|, u, target); }
      QuietIsMove(db, repo.View(), u, target);
      ghost var provided := repo.keys;
      lost := ProvidedOrNot(now, repo.servers, db.keys, repo.keys, old(outline.boxes), outline.boxes, s, r,
                            enforcer.Faults() > faults);
      ok := r.Created?;
      if ok {
        ok := MoveOnto(u, previous, r.id, db, |old(repo.history)|);
        HoldersKeepConverged(now, repo.servers, db.keys, provided, repo.keys, old(outline.boxes), outline.boxes, lost);
      }
    }

    /** Nominates the key just made, then lets go of the old one. */
    method MoveOnto(u: Id, previous: Option<Id>, target: Id, ghost db: DB, ghost n: nat) returns (ok: bool)
      requires Valid() && n <= |repo.history|
      requires Sound(db) && u in db.users && db.users[u].primaryKeyID == previous
      requires OnlyMoves(db, repo.View(), u, target) && AlwaysOnlyMoves(db, repo.history, n, u, target)
      requires u in repo.users && Holds(repo.View(), u, target)
      modifies repo
      ensures Valid() && old(repo.history) <= repo.history
      ensures OnlyMoves(db, repo.View(), u, target) && AlwaysOnlyMoves(db, repo.history, n, u, target)
      ensures SameButHolders(old(repo.keys), repo.keys) && repo.renewals == old(repo.renewals)
      ensures target in repo.keys && repo.keys[target] == old(repo.keys)[target]
      ensures ok ==> u in repo.users && repo.users[u].primaryKeyID == Some(target)
      ensures enforcer.Faults() >= old(enforcer.Faults())
      ensures enforcer.Faults() == old(enforcer.Faults()) ==> ok && Released(repo.keys, previous, target)
    {
      ok := Nominate(u, target, db, n);
      if ok { ReleaseOld(u, previous, target, db, n); }
    }

    /**
      Puts a holder on a different key and releases the one they were on. At every state gone through, the
      holder's primary is the old key or the new one, and nobody else's record or key differs in any column. A
      fleet in step stays in step, but for the new key if a call failed.
    */
    method ReplaceUserKey(now: Time, u: Id, keyID: Option<Id>, serverID: Id, name: string, addGB: real, addDays: int)
      returns (ok: bool, ghost target: Id, ghost lost: set<Place>)
      requires Valid()
      modifies repo, outline
      ensures Valid() && old(repo.history) <= repo.history
      ensures OnlyMoves(old(repo.View()), repo.View(), u, target)
      ensures AlwaysOnlyMoves(old(repo.View()), repo.history, |old(repo.history)|, u, target)
      ensures repo.renewals == old(repo.renewals)
      ensures keyID.Some? ==> SameButHolders(old(repo.keys), repo.keys) && outline.boxes == old(outline.boxes)
      ensures BoxGrown(old(outline.boxes), outline.boxes, serverID)
      ensures |lost| <= enforcer.Faults() - old(enforcer.Faults())
      ensures KeptInStep(now, repo.servers, repo.servers, old(repo.keys), repo.keys, old(outline.boxes), outline.boxes,
                         lost)
      ensures ok ==> u in repo.users && repo.users[u].primaryKeyID == Some(target)
      ensures ok && keyID.None? ==>
        && serverID in repo.servers && addGB >= 0.0 && addDays >= 0 && target in repo.keys
        && u in old(repo.users)
        && MadeFor(enforcer.fl, now, repo.keys[target], Some(u), serverID, repo.servers[serverID],
                   if name == "" then old(repo.users[u]).name else name, addGB, addDays)
      ensures keyID.None? && (addGB < 0.0 || addDays < 0) ==> !ok && repo.View() == old(repo.View())
      ensures enforcer.Faults() >= old(enforcer.Faults())
      ensures enforcer.Faults() == old(enforcer.Faults()) ==>
        && (keyID.Some? ==>
              (ok <==> && u in old(repo.users) && keyID.value in old(repo.keys)
                       && !Elsewhere(old(repo.keys[keyID.value]), u)))
        && (CanTake(old(repo.keys), old(repo.servers), serverID) && addGB >= 0.0 && addDays >= 0 ==>
              keyID.None? && u in old(repo.users) ==> ok)
        && (ok ==> Released(repo.keys, old(repo.users[u]).primaryKeyID, target))
    {
      ok, target, lost := false, keyID.GetOr(0), {};
      NothingKeepsConverged(now, repo.servers, repo.keys, outline.boxes);
      StartOnlyMoves(repo.View(), u, target);
      var user := repo.GetUser(u);
      if user.Err? { return; }
      var previous := user.value.primaryKeyID;
      if keyID.Some? {
        ok := ReplaceWithFreeKey(u, previous, keyID.value);
        HoldersKeepConverged(now, repo.servers, old(repo.keys), old(repo.keys), repo.keys, old(outline.boxes),
                             outline.boxes, {});
        return;
      }
      var server := repo.GetServer(serverID);
      if server.Err? { return; }
      var keyName := if name == "" then user.value.name else name;
      ok, target, lost := ReplaceAccepted(now, u, previous, serverID, server.value, keyName, addGB, addDays);
    }

    /** Turns the allowance asked for down, or puts the holder on a key with it. */
    method ReplaceAccepted(now: Time, u: Id, previous: Option<Id>, s: Id, server: Server, name: string, addGB: real,
                           addDays: int)
      returns (ok: bool, ghost target: Id, ghost lost: set<Place>)
      requires Valid() && u in repo.users && repo.users[u].primaryKeyID == previous
      requires s in repo.servers && Live(repo.servers[s])
      modifies repo, outline
      ensures Valid() && old(repo.history) <= repo.history
      ensures OnlyMoves(old(repo.View()), repo.View(), u, target)
      ensures AlwaysOnlyMoves(old(repo.View()), repo.history, |old(repo.history)|, u, target)
      ensures repo.renewals == old(repo.renewals)
      ensures BoxGrown(old(outline.boxes), outline.boxes, s)
      ensures |lost| <= enforcer.Faults() - old(enforcer.Faults())
      ensures KeptInStep(now, repo.servers, repo.servers, old(repo.keys), repo.keys, old(outline.boxes), outline.boxes,
                         lost)
      ensures ok ==> u in repo.users && repo.users[u].primaryKeyID == Some(target)
      ensures ok ==>
        && addGB >= 0.0 && addDays >= 0 && target in repo.keys
        && MadeFor(enforcer.fl, now, repo.keys[target], Some(u), s, server, name, addGB, addDays)
      ensures addGB < 0.0 || addDays < 0 ==> !ok && repo.View() == old(repo.View())
      ensures enforcer.Faults() >= old(enforcer.Faults())
      ensures enforcer.Faults() == old(enforcer.Faults()) && addGB >= 0.0 && addDays >= 0 ==>
        && (ok || (server.maxKeys.Some? && |KeysOn(old(repo.keys), s)| >= server.maxKeys.value))
        && (ok ==> Released(repo.keys, previous, target))
    {
      ok, target, lost := false, 0, {};
      NothingKeepsConverged(now, repo.servers, repo.keys, outline.boxes);
      StartOnlyMoves(repo.View(), u, target);
      MoveAllots(enforcer.fl, now, server, addGB, addDays);
      var plan := ResolveMovePlan(enforcer.fl, now, server, addGB, addDays);
      if plan.None? { return; }
      ok, target, lost := ReplaceWithNewKey(now, u, previous, s, server, name, plan.value);
      if ok {
        MadeOnPlan(enforcer.fl, now, repo.keys[target], Some(u), s, server, name, addGB, addDays, plan.value);
      }
    }

    // -------------------------------------------------------------- linking and nominating

    method SetUserPrimaryKey(u: Id, id: Id) returns (ok: bool)
      requires Valid()
      modifies repo
      ensures Valid() && old(repo.history) <= repo.history
      ensures ok ==> u in old(repo.users) && Holds(old(repo.View()), u, id)
      ensures ok ==> repo.View() == Store.SetUserPrimaryKey(old(repo.View()), u, Some(id))
      ensures !ok ==> repo.View() == old(repo.View())
      ensures enforcer.Faults() >= old(enforcer.Faults())
      ensures enforcer.Faults() == old(enforcer.Faults()) ==>
        (ok <==> u in old(repo.users) && Holds(old(repo.View()), u, id))
    {
      var user := repo.GetUser(u);
      if user.Err? { return false; }
      var key := repo.GetKey(id);
      if key.Err? || key.value.userID != Some(u) { return false; }
      var err := repo.SetUserPrimaryKey(u, Some(id));
      ok := err.None?;
    }

    /** Assigns a key nobody else holds; it becomes the holder's primary only if they had none. */
    method LinkUserKey(u: Id, id: Id) returns (ok: bool)
      requires Valid()
      modifies repo
      ensures Valid() && old(repo.history) <= repo.history
      ensures id in old(repo.keys) && Elsewhere(old(repo.keys[id]), u) ==> !ok && repo.View() == old(repo.View())
      ensures ok ==> u in repo.users && Holds(repo.View(), u, id)
      ensures ok ==> u in old(repo.users)
      ensures ok ==> repo.users[u].primaryKeyID == Coalesce(old(repo.users[u]).primaryKeyID, Some(id))
      ensures OnlyTaken(old(repo.View()), repo.View(), u, id)
      ensures OnlyMoves(old(repo.View()), repo.View(), u, id) && repo.renewals == old(repo.renewals)
      ensures SameButHolders(old(repo.keys), repo.keys)
      ensures enforcer.Faults() >= old(enforcer.Faults())
      ensures enforcer.Faults() == old(enforcer.Faults()) ==>
        (ok <==> u in old(repo.users) && id in old(repo.keys) && !Elsewhere(old(repo.keys[id]), u))
    {
      StartOnlyMoves(repo.View(), u, id);
      var user := repo.GetUser(u);
      if user.Err? { return false; }
      var key := repo.GetKey(id);
      if key.Err? || (key.value.userID.Some? && key.value.userID.value != u) { return false; }
      ok := AssignAndAdopt(u, id);
    }

    method AssignAndAdopt(u: Id, id: Id) returns (ok: bool)
      requires Valid() && id in repo.keys && !Elsewhere(repo.keys[id], u) && u in repo.users
      modifies repo
      ensures Valid() && old(repo.history) <= repo.history
      ensures ok ==> u in repo.users && Holds(repo.View(), u, id)
      ensures ok ==> repo.users[u].primaryKeyID == Coalesce(old(repo.users[u]).primaryKeyID, Some(id))
      ensures OnlyTaken(old(repo.View()), repo.View(), u, id)
      ensures OnlyMoves(old(repo.View()), repo.View(), u, id) && repo.renewals == old(repo.renewals)
      ensures SameButHolders(old(repo.keys), repo.keys)
      ensures enforcer.Faults() >= old(enforcer.Faults())
      ensures enforcer.Faults() == old(enforcer.Faults()) ==> ok
    {
      ghost var db := repo.View();
      StartOnlyMoves(db, u, id);
      AssignOnlyMoves(db, u, id);
      var err := repo.SetKeyUser(id, Some(u));
      if err.Some? { return false; }
      ghost var mid := repo.View();
      ok := AdoptIfUnset(u, id, db);
      StillOnlyTaken(db, mid, repo.View(), u, id);
    }

    /** Detaches a key; if it was the holder's primary, their link leads nowhere until another is nominated. */
    method UnlinkUserKey(u: Id, id: Id) returns (ok: bool)
      requires Valid()
      modifies repo
      ensures Valid() && old(repo.history) <= repo.history
      ensures ok ==> Holds(old(repo.View()), u, id) && repo.View() == SetKeyUser(old(repo.View()), id, None)
      ensures !ok ==> repo.View() == old(repo.View())
      ensures enforcer.Faults() >= old(enforcer.Faults())
      ensures enforcer.Faults() == old(enforcer.Faults()) ==>
        (ok <==> u in old(repo.users) && Holds(old(repo.View()), u, id))
    {
      var user := repo.GetUser(u);
      if user.Err? { return false; }
      var key := repo.GetKey(id);
      if key.Err? || key.value.userID != Some(u) { return false; }
      var err := repo.SetKeyUser(id, None);
      ok := err.None?;
    }

    method DeleteUser(u: Id) returns (ok: bool)
      requires Valid()
      modifies repo
      ensures Valid() && old(repo.history) <= repo.history
      ensures repo.View() == if ok then Store.DeleteUser(old(repo.View()), u) else old(repo.View())
      ensures enforcer.Faults() >= old(enforcer.Faults())
      ensures enforcer.Faults() == old(enforcer.Faults()) ==> (ok <==> u in old(repo.users))
    {
      var err := repo.DeleteUser(u);
      ok := err.None?;
    }

    // -------------------------------------------------------------- giving a holder another key

    method CreateUserKey(now: Time, u: Id, s: Id, name: string, addGB: real, addDays: int)
      returns (r: Option<Id>, ghost id: Id, ghost lost: set<Place>)
      requires Valid()
      modifies repo, outline
      ensures Valid() && old(repo.history) <= repo.history
      ensures r.Some? ==>
        && u in old(repo.users) && u in repo.users && Holds(repo.View(), u, r.value) && r.value !in old(repo.keys)
        && repo.users[u].primaryKeyID
           == (if old(repo.users[u]).primaryKeyID.Some? then old(repo.users[u]).primaryKeyID else r)
        && s in repo.servers && PlanAccepted(addGB, addDays)
        && MadeFor(enforcer.fl, now, repo.keys[r.value], Some(u), s, repo.servers[s],
                   if name == "" then old(repo.users[u]).name else name, addGB, addDays)
      ensures r.Some? ==> r.value == id
      ensures RowsKept(old(repo.View()), repo.View()) && OnlyMoves(old(repo.View()), repo.View(), u, id)
      ensures repo.renewals == old(repo.renewals) && BoxGrown(old(outline.boxes), outline.boxes, s)
      ensures |lost| <= enforcer.Faults() - old(enforcer.Faults())
      ensures KeptInStep(now, repo.servers, repo.servers, old(repo.keys), repo.keys, old(outline.boxes), outline.boxes,
                         lost)
      ensures enforcer.Faults() >= old(enforcer.Faults())
      ensures enforcer.Faults() == old(enforcer.Faults()) ==>
        CanTake(old(repo.keys), old(repo.servers), s) && u in old(repo.users) ==>
          (r.Some? <==> PlanAccepted(addGB, addDays))
    {
      r, id, lost := None, 0, {};
      NothingKeepsConverged(now, repo.servers, repo.keys, outline.boxes);
      StartOnlyMoves(repo.View(), u, id);
      var user := repo.GetUser(u);
      var server := repo.GetServer(s);
      if user.Err? || server.Err? { return; }
      var keyName := if name == "" then user.value.name else name;
      r, id, lost := ProvisionAccepted(now, u, s, server.value, keyName, addGB, addDays);
    }

    /** Turns the allowance asked for down, or into a key on it. */
    method ProvisionAccepted(now: Time, u: Id, s: Id, server: Server, name: string, addGB: real, addDays: int)
      returns (r: Option<Id>, ghost id: Id, ghost lost: set<Place>)
      requires Valid() && u in repo.users && s in repo.servers && Live(repo.servers[s])
      modifies repo, outline
      ensures Valid() && old(repo.history) <= repo.history
      ensures r.Some? ==>
        && u in repo.users && Holds(repo.View(), u, r.value) && r.value !in old(repo.keys)
        && repo.users[u].primaryKeyID == Coalesce(old(repo.users[u]).primaryKeyID, r)
        && PlanAccepted(addGB, addDays)
        && MadeFor(enforcer.fl, now, repo.keys[r.value], Some(u), s, server, name, addGB, addDays)
      ensures r.Some? ==> r.value == id
      ensures RowsKept(old(repo.View()), repo.View()) && OnlyMoves(old(repo.View()), repo.View(), u, id)
      ensures repo.servers == old(repo.servers) && repo.renewals == old(repo.renewals)
      ensures BoxGrown(old(outline.boxes), outline.boxes, s)
      ensures |lost| <= enforcer.Faults() - old(enforcer.Faults())
      ensures KeptInStep(now, repo.servers, repo.servers, old(repo.keys), repo.keys, old(outline.boxes), outline.boxes,
                         lost)
      ensures enforcer.Faults() >= old(enforcer.Faults())
      ensures enforcer.Faults() == old(enforcer.Faults()) ==>
        CanTake(old(repo.keys), old(repo.servers), s) && old(repo.servers)[s] == server ==>
          (r.Some? <==> PlanAccepted(addGB, addDays))
    {
      r, id, lost := None, 0, {};
      NothingKeepsConverged(now, repo.servers, repo.keys, outline.boxes);
      StartOnlyMoves(repo.View(), u, id);
      PlanAllots(enforcer.fl, now, server, addGB, addDays);
      var plan := ResolveKeyPlan(enforcer.fl, now, server, addGB, addDays);
      if plan.None? { return; }
      r, id, lost := ProvisionFor(now, u, s, server, name, plan.value);
      if r.Some? {
        MadeOnPlan(enforcer.fl, now, repo.keys[id], Some(u), s, server, name, addGB, addDays, plan.value);
      }
    }

    /** Provisions a key for a holder; it becomes what their link leads to only if nothing else was. */
    method ProvisionFor(now: Time, u: Id, s: Id, server: Server, name: string, plan: KeyPlan)
      returns (r: Option<Id>, ghost id: Id, ghost lost: set<Place>)
      requires Valid() && u in repo.users && s in repo.servers && Live(repo.servers[s])
      modifies repo, outline
      ensures Valid() && old(repo.history) <= repo.history
      ensures r.Some? ==>
        && u in repo.users && Holds(repo.View(), u, r.value) && r.value !in old(repo.keys)
        && FreshOn(repo.keys[r.value], s, name, plan, Some(u), server.defaultPriceMmk)
        && repo.users[u].primaryKeyID == Coalesce(old(repo.users[u]).primaryKeyID, r)
      ensures r.Some? ==> r.value == id
      ensures RowsKept(old(repo.View()), repo.View()) && OnlyMoves(old(repo.View()), repo.View(), u, id)
      ensures repo.servers == old(repo.servers) && repo.renewals == old(repo.renewals)
      ensures BoxGrown(old(outline.boxes), outline.boxes, s)
      ensures |lost| <= enforcer.Faults() - old(enforcer.Faults())
      ensures KeptInStep(now, repo.servers, repo.servers, old(repo.keys), repo.keys, old(outline.boxes), outline.boxes,
                         lost)
      ensures enforcer.Faults() >= old(enforcer.Faults())
      ensures enforcer.Faults() == old(enforcer.Faults()) ==>
        CanTake(old(repo.keys), old(repo.servers), s) && old(repo.servers)[s] == server ==> r.Some?
    {
      r := None;
      ghost var db, faults := repo.View(), enforcer.Faults();
      var made, clean := keyAPI.ProvisionKey(now, s, server, name, plan, Some(u));
      id := if HasKey(made) then made.id else 0;
      QuietIsMove(db, repo.View(), u, id);
      lost := ProvidedOrNot(now, repo.servers, db.keys, repo.keys, old(outline.boxes), outline.boxes, s, made,
                            enforcer.Faults() > faults);
      if made.Created? {
        ghost var mid := repo.View();
        var ok := AdoptIfUnset(u, made.id, db);
        SameKeysKeepRows(db, mid, repo.View());
        if ok { r := Some(made.id); }
      }
    }

    /** Makes a key of theirs what their link leads to, unless something else is. */
    method AdoptIfUnset(u: Id, id: Id, ghost db: DB) returns (ok: bool)
      requires Valid() && u in db.users && u in repo.users && Holds(repo.View(), u, id)
      requires OnlyMoves(db, repo.View(), u, id)
      modifies repo
      ensures Valid() && old(repo.history) <= repo.history
      ensures repo.keys == old(repo.keys) && repo.renewals == old(repo.renewals)
      ensures ok ==>
        && u in repo.users && Holds(repo.View(), u, id)
        && repo.users[u].primaryKeyID == Coalesce(old(repo.users[u]).primaryKeyID, Some(id))
      ensures OnlyMoves(db, repo.View(), u, id)
      ensures enforcer.Faults() == old(enforcer.Faults()) + if ok then 0 else 1
    {
      NominateOnlyMoves(db, repo.View(), u, id);
      var err := repo.AdoptPrimaryKeyIfUnset(u, id);
      ok := err.None?;
    }

    // -------------------------------------------------------------- creating a holder

    /** Sets a claimed key's figures outright, logs it as an adjustment, and pushes it. */
    method ApplyKeyPlan(now: Time, id: Id, plan: KeyPlan) returns (ok: bool)
      requires Valid() && id in repo.keys
      modifies repo, outline
      ensures Valid() && old(repo.history) <= repo.history
      ensures repo.View() == old(repo.View()).(keys := repo.keys, renewals := repo.renewals)
      ensures id in repo.keys && repo.keys == old(repo.keys)[id := repo.keys[id]]
      ensures repo.keys[id].userID == old(repo.keys[id]).userID
      ensures ok ==> repo.keys[id].limitBytes == plan.limitBytes && repo.keys[id].endDate == plan.endDate
      ensures enforcer.Faults() >= old(enforcer.Faults())
      ensures enforcer.Faults() == old(enforcer.Faults()) ==>
        (ok <==> OnLiveBox(old(repo.keys), repo.servers, old(outline.boxes), id))
      ensures || (!ok && repo.renewals == old(repo.renewals))
              || (OneMoreEntry(old(repo.renewals), repo.renewals)
                  && Adjusts(repo.renewals[|old(repo.renewals)|], id, plan.limitBytes, plan.endDate))
      ensures LogsOnly(old(repo.renewals), repo.renewals, id)
      ensures EditPushed(now, repo.servers, id, old(repo.keys[id]), old(repo.keys), repo.keys, old(outline.boxes),
                         outline.boxes, enforcer.Faults() > old(enforcer.Faults()))
      ensures BoxTouched(old(repo.keys), id, old(outline.boxes), outline.boxes)
    {
      ghost var keys, boxes := repo.keys, outline.boxes;
      ok := RecordPlan(id, plan);
      ghost var planned := repo.keys[id];
      if ok { ok := keyAPI.PushFigures(now, id); }
      EditIsPushed(now, repo.servers, id, keys, planned, repo.keys, boxes, outline.boxes,
                   enforcer.Faults() > old(enforcer.Faults()));
    }

    /** Saves the figures, and then the adjustment. */
    method RecordPlan(id: Id, plan: KeyPlan) returns (ok: bool)
      requires Valid() && id in repo.keys
      modifies repo
      ensures Valid() && old(repo.history) <= repo.history
      ensures repo.View() == old(repo.View()).(keys := repo.keys, renewals := repo.renewals)
      ensures id in repo.keys && repo.keys == old(repo.keys)[id := repo.keys[id]]
      ensures var planned := old(repo.keys[id]).(limitBytes := plan.limitBytes, endDate := plan.endDate);
        repo.keys[id] == planned || (!ok && repo.keys[id] == old(repo.keys[id]))
      ensures if ok then OneMoreEntry(old(repo.renewals), repo.renewals)
                         && Adjusts(repo.renewals[|old(repo.renewals)|], id, plan.limitBytes, plan.endDate)
              else repo.renewals == old(repo.renewals)
      ensures LogsOnly(old(repo.renewals), repo.renewals, id)
      ensures enforcer.Faults() == old(enforcer.Faults()) + if ok then 0 else 1
    {
      var err := repo.SetKeyLimitAndEndDate(id, plan.limitBytes, plan.endDate);
      if err.Some? { return false; }
      err := repo.InsertRenewalLog(RenewalLog(id, 0.0, 0, plan.limitBytes, plan.endDate, true, None));
      ok := err.None?;
    }

    /** The second half of creating a user with an existing key. */
    method EquipWithFreeKey(now: Time, u: Id, id: Id, name: string, plan: KeyPlan) returns (ok: bool)
      requires Valid() && u in repo.users
      modifies repo, outline
      ensures Valid() && old(repo.history) <= repo.history
      ensures ok ==> u in repo.users && repo.users[u].primaryKeyID == Some(id) && Holds(repo.View(), u, id)
      ensures ok ==> repo.keys[id].limitBytes == plan.limitBytes && repo.keys[id].endDate == plan.endDate
      ensures OnlyMoves(old(repo.View()), repo.View(), u, id) && OnlyTaken(old(repo.View()), repo.View(), u, id)
      ensures id in old(repo.keys) && Elsewhere(old(repo.keys[id]), u) ==> !ok && repo.View() == old(repo.View())
      ensures enforcer.Faults() >= old(enforcer.Faults())
      ensures enforcer.Faults() == old(enforcer.Faults()) ==>
        OnLiveBox(old(repo.keys), old(repo.servers), old(outline.boxes), id) && !Elsewhere(old(repo.keys)[id], u) ==> ok
      ensures BoxTouched(old(repo.keys), id, old(outline.boxes), outline.boxes)
    {
      ok := ClaimFreeKey(u, id, name);
      ghost var keys, boxes := repo.keys, outline.boxes;
      assert BoxTouched(old(repo.keys), id, old(outline.boxes), boxes);
      if ok {
        ok := PlanClaimed(now, u, id, plan, old(repo.View()));
        TouchedAgain(old(repo.keys), keys, id, old(outline.boxes), boxes, outline.boxes);
      }
    }

    /** Puts the key just claimed on its plan, and reads it back. */
    method PlanClaimed(now: Time, u: Id, id: Id, plan: KeyPlan, ghost db: DB) returns (ok: bool)
      requires Valid() && id in repo.keys
      requires OnlyMoves(db, repo.View(), u, id) && OnlyTaken(db, repo.View(), u, id)
      requires id in db.keys ==> !Elsewhere(db.keys[id], u)
      modifies repo, outline
      ensures Valid() && old(repo.history) <= repo.history
      ensures repo.users == old(repo.users)
      ensures id in repo.keys && repo.keys[id].userID == old(repo.keys[id]).userID
      ensures ok ==> repo.keys[id].limitBytes == plan.limitBytes && repo.keys[id].endDate == plan.endDate
      ensures OnlyMoves(db, repo.View(), u, id) && OnlyTaken(db, repo.View(), u, id)
      ensures enforcer.Faults() >= old(enforcer.Faults())
      ensures enforcer.Faults() == old(enforcer.Faults()) ==>
        OnLiveBox(old(repo.keys), old(repo.servers), old(outline.boxes), id) ==> ok
      ensures BoxTouched(old(repo.keys), id, old(outline.boxes), outline.boxes)
    {
      ghost var claimed := repo.View();
      ok := ApplyKeyPlan(now, id, plan);
      EditOnlyMoves(db, claimed, repo.View(), u, id);
      if ok {
        var updated := repo.GetKey(id);
        ok := updated.Ok?;
      }
    }

    /** Best-effort removal of a user that could not be set up. */
    method DiscardUser(u: Id) returns (ghost gone: bool)
      requires Valid() && u in repo.users
      modifies repo
      ensures Valid() && old(repo.history) <= repo.history
      ensures repo.View() == if gone then Store.DeleteUser(old(repo.View()), u) else old(repo.View())
      ensures enforcer.Faults() >= old(enforcer.Faults()) + if gone then 0 else 1
    {
      var err := repo.DeleteUser(u);
      gone := err.None?;
    }

    /** The second half of creating a user with a fresh key. */
    method EquipWithNewKey(now: Time, u: Id, s: Id, server: Server, name: string, plan: KeyPlan)
      returns (made: bool, ok: bool, ghost id: Id)
      requires Valid() && u in repo.users && repo.users[u].primaryKeyID.None?
      modifies repo, outline
      ensures Valid() && old(repo.history) <= repo.history
      ensures ok ==> made && u in repo.users && repo.users[u].primaryKeyID == Some(id) && Holds(repo.View(), u, id)
      ensures ok ==> FreshOn(repo.keys[id], s, name, plan, Some(u), server.defaultPriceMmk)
      ensures !made ==> repo.users == old(repo.users)
      ensures OnlyMoves(old(repo.View()), repo.View(), u, id) && RowsKept(old(repo.View()), repo.View())
      ensures BoxGrown(old(outline.boxes), outline.boxes, s)
      ensures enforcer.Faults() >= old(enforcer.Faults())
      ensures enforcer.Faults() == old(enforcer.Faults()) && made ==> ok
      ensures enforcer.Faults() == old(enforcer.Faults()) ==>
        CanTake(old(repo.keys), old(repo.servers), s) && old(repo.servers)[s] == server ==> ok
    {
      ghost var db := repo.View();
      var r, clean := keyAPI.ProvisionKey(now, s, server, name, plan, Some(u));
      made, ok, id := r.Created?, false, if HasKey(r) then r.id else 0;
      QuietIsMove(db, repo.View(), u, id);
      if made {
        ghost var mid := repo.View();
        ok := AdoptIfUnset(u, r.id, db);
        SameKeysKeepRows(db, mid, repo.View());
      }
    }

    /** Equips the user just created with a free key, or takes the user back. */
    method GiveFreeKey(now: Time, u: Id, id: Id, name: string, plan: KeyPlan, ghost db: DB)
      returns (ok: bool, ghost undone: bool)
      requires Valid() && JustAdded(db, repo.View(), u)
      modifies repo, outline
      ensures Valid() && old(repo.history) <= repo.history
      ensures ok ==> u in repo.users && repo.users[u].primaryKeyID == Some(id) && Holds(repo.View(), u, id)
      ensures ok ==> repo.keys[id].limitBytes == plan.limitBytes && repo.keys[id].endDate == plan.endDate
      ensures ok ==> repo.users[u].name == old(repo.users[u]).name
      ensures forall v <- db.users :: v in repo.users && repo.users[v] == db.users[v]
      ensures RowsKeptBut(db, repo.View(), Some(id)) && BoxTouched(db.keys, id, old(outline.boxes), outline.boxes)
      ensures !ok && undone ==> repo.users == db.users && (id in db.keys ==> SameHolder(db, repo.View(), id))
      ensures enforcer.Faults() >= old(enforcer.Faults())
      ensures enforcer.Faults() == old(enforcer.Faults()) ==> ok || undone
      ensures enforcer.Faults() == old(enforcer.Faults()) ==>
        OnLiveBox(old(repo.keys), old(repo.servers), old(outline.boxes), id) && !Elsewhere(old(repo.keys)[id], u) ==> ok
    {
      undone := false;
      ghost var added := repo.View();
      ok := EquipWithFreeKey(now, u, id, name, plan);
      UsersAfter(db, added, repo.View(), u, id);
      TakenKeepsOthers(db, added, repo.View(), u, id);
      if !ok {
        ghost var equipped := repo.View();
        undone := DiscardUser(u);
        if undone { UserTakenBack(db, added, equipped, u, id); }
      }
    }

    /** Equips the user just created with a fresh key, or takes the user back; `made` says the key exists. */
    method GiveNewKey(now: Time, u: Id, s: Id, server: Server, name: string, plan: KeyPlan, ghost db: DB)
      returns (ok: bool, made: bool, ghost undone: bool)
      requires Valid() && JustAdded(db, repo.View(), u)
      modifies repo, outline
      ensures Valid() && old(repo.history) <= repo.history
      ensures ok ==>
        && u in repo.users && repo.users[u].primaryKeyID.Some? && repo.users[u].primaryKeyID.value in repo.keys
        && FreshOn(repo.keys[repo.users[u].primaryKeyID.value], s, name, plan, Some(u), server.defaultPriceMmk)
      ensures ok ==> repo.users[u].name == old(repo.users[u]).name
      ensures forall v <- db.users :: v in repo.users && repo.users[v] == db.users[v]
      ensures RowsKept(db, repo.View()) && BoxGrown(old(outline.boxes), outline.boxes, s)
      ensures !ok && undone ==> repo.users == db.users
      ensures !ok && made ==> !undone && u in repo.users
      ensures enforcer.Faults() >= old(enforcer.Faults())
      ensures enforcer.Faults() == old(enforcer.Faults()) ==> ok || undone
      ensures enforcer.Faults() == old(enforcer.Faults()) ==>
        CanTake(old(repo.keys), old(repo.servers), s) && old(repo.servers)[s] == server ==> ok
    {
      ghost var added := repo.View();
      ghost var id;
      made, ok, id := EquipWithNewKey(now, u, s, server, name, plan);
      UsersAfter(db, added, repo.View(), u, id);
      NewKeepsOthers(db, added, repo.View());
      undone := false;
      if !made {
        ghost var equipped := repo.View();
        undone := DiscardUser(u);
        if undone { NewKeyTakenBack(db, added, equipped, u, id); }
      }
    }

    /**
      Registers a holder and, optionally, gives them an existing free key or a fresh one. If the key cannot
      be given, the user is taken back: nobody was added, and no key has changed hands. The one exception is
      a fresh key that only failed to be nominated; that holder stays, with the key but without a primary.
    */
    method CreateUser(now: Time, name: string, keyID: Option<Id>, serverID: Option<Id>, keyName: string,
                      addGB: real, addDays: int)
      returns (r: Option<Id>, ghost undone: bool)
      requires Valid()
      modifies repo, outline
      ensures Valid() && old(repo.history) <= repo.history
      ensures r.Some? ==> r.value !in old(repo.users) && r.value in repo.users && repo.users[r.value].name == name
      ensures r.Some? && keyID.Some? ==> repo.users[r.value].primaryKeyID == keyID
      ensures r.Some? && keyID.None? ==> (repo.users[r.value].primaryKeyID.Some? <==> serverID.Some?)
      ensures r.Some? && (keyID.Some? || serverID.Some?) ==>
        GivenKey(enforcer.fl, now, old(repo.View()), repo.View(), r.value, name, keyID, serverID, keyName, addGB,
                 addDays)
      ensures forall v <- old(repo.users) :: v in repo.users && repo.users[v] == old(repo.users)[v]
      ensures RowsKeptBut(old(repo.View()), repo.View(), keyID)
      ensures if keyID.Some? then BoxTouched(old(repo.keys), keyID.value, old(outline.boxes), outline.boxes)
              else if serverID.Some? then BoxGrown(old(outline.boxes), outline.boxes, serverID.value)
              else outline.boxes == old(outline.boxes)
      ensures r.None? && undone ==>
        && repo.users == old(repo.users)
        && (keyID.Some? && keyID.value in old(repo.keys) ==> SameHolder(old(repo.View()), repo.View(), keyID.value))
      ensures enforcer.Faults() >= old(enforcer.Faults())
      ensures enforcer.Faults() == old(enforcer.Faults()) ==> r.Some? || undone
      ensures enforcer.Faults() == old(enforcer.Faults()) && PlanAccepted(addGB, addDays) ==>
        Equippable(old(repo.View()), old(outline.boxes), keyID, serverID) ==> r.Some?
    {
      r, undone := None, true;
      ghost var db := repo.View();
      var found, s, server := ChooseServer(keyID, serverID);
      var plan := if server.Some? then ResolveKeyPlan(enforcer.fl, now, server.value, addGB, addDays)
                  else Some(KeyPlan(None, None));
      if server.Some? { PlanAllots(enforcer.fl, now, server.value, addGB, addDays); }
      if !found || plan.None? { return; }
      r, undone := AddUser(now, name, keyID, s, server, keyName, plan.value);
      if r.Some? && server.Some? {
        GivenAsAsked(enforcer.fl, now, db, repo.View(), r.value, name, keyID, serverID, s, server.value, keyName, addGB,
                     addDays, plan.value);
      }
    }

    /** Creates the user, then gives them the key asked for. */
    method AddUser(now: Time, name: string, keyID: Option<Id>, s: Id, server: Option<Server>, keyName: string,
                   plan: KeyPlan)
      returns (r: Option<Id>, ghost undone: bool)
      requires Valid()
      modifies repo, outline
      ensures Valid() && old(repo.history) <= repo.history
      ensures r.Some? ==> r.value !in old(repo.users) && r.value in repo.users && repo.users[r.value].name == name
      ensures r.Some? && keyID.Some? ==> repo.users[r.value].primaryKeyID == keyID
      ensures r.Some? && keyID.None? ==> (repo.users[r.value].primaryKeyID.Some? <==> server.Some?)
      ensures r.Some? && keyID.Some? ==>
        && Holds(repo.View(), r.value, keyID.value)
        && repo.keys[keyID.value].limitBytes == plan.limitBytes && repo.keys[keyID.value].endDate == plan.endDate
      ensures r.Some? && keyID.None? && server.Some? ==>
        && repo.users[r.value].primaryKeyID.value in repo.keys
        && FreshOn(repo.keys[repo.users[r.value].primaryKeyID.value], s, if keyName == "" then name else keyName, plan,
                   r, server.value.defaultPriceMmk)
      ensures forall v <- old(repo.users) :: v in repo.users && repo.users[v] == old(repo.users)[v]
      ensures RowsKeptBut(old(repo.View()), repo.View(), keyID)
      ensures if keyID.Some? then BoxTouched(old(repo.keys), keyID.value, old(outline.boxes), outline.boxes)
              else if server.Some? then BoxGrown(old(outline.boxes), outline.boxes, s)
              else outline.boxes == old(outline.boxes)
      ensures r.None? && undone ==>
        && repo.users == old(repo.users)
        && (keyID.Some? && keyID.value in old(repo.keys) ==> SameHolder(old(repo.View()), repo.View(), keyID.value))
      ensures enforcer.Faults() >= old(enforcer.Faults())
      ensures enforcer.Faults() == old(enforcer.Faults()) ==>
        && (r.Some? || undone)
        && (Grantable(old(repo.View()), old(outline.boxes), keyID, s, server) ==> r.Some?)
    {
      r, undone := None, true;
      ghost var db := repo.View();
      var user := repo.CreateUser(name);
      if user.Err? { return; }
      r, undone := Equip(now, user.value, keyID, s, server, name, keyName, plan, db);
    }

    /** Gives the user just created the key asked for, if any. */
    method Equip(now: Time, u: Id, keyID: Option<Id>, s: Id, server: Option<Server>, name: string, keyName: string,
                 plan: KeyPlan, ghost db: DB)
      returns (r: Option<Id>, ghost undone: bool)
      requires Valid() && JustAdded(db, repo.View(), u)
      modifies repo, outline
      ensures Valid() && old(repo.history) <= repo.history
      ensures r.Some? ==> r.value == u && u in repo.users && repo.users[u].name == old(repo.users[u]).name
      ensures r.Some? && keyID.Some? ==> repo.users[u].primaryKeyID == keyID
      ensures r.Some? && keyID.None? ==> (repo.users[u].primaryKeyID.Some? <==> server.Some?)
      ensures r.Some? && keyID.Some? ==>
        && Holds(repo.View(), u, keyID.value)
        && repo.keys[keyID.value].limitBytes == plan.limitBytes && repo.keys[keyID.value].endDate == plan.endDate
      ensures r.Some? && keyID.None? && server.Some? ==>
        && repo.users[u].primaryKeyID.value in repo.keys
        && FreshOn(repo.keys[repo.users[u].primaryKeyID.value], s, if keyName == "" then name else keyName, plan,
                   Some(u), server.value.defaultPriceMmk)
      ensures forall v <- db.users :: v in repo.users && repo.users[v] == db.users[v]
      ensures RowsKeptBut(db, repo.View(), keyID)
      ensures if keyID.Some? then BoxTouched(db.keys, keyID.value, old(outline.boxes), outline.boxes)
              else if server.Some? then BoxGrown(old(outline.boxes), outline.boxes, s)
              else outline.boxes == old(outline.boxes)
      ensures r.None? && undone ==>
        && repo.users == db.users
        && (keyID.Some? && keyID.value in db.keys ==> SameHolder(db, repo.View(), keyID.value))
      ensures enforcer.Faults() >= old(enforcer.Faults())
      ensures enforcer.Faults() == old(enforcer.Faults()) ==>
        && (r.Some? || undone)
        && (CanEquip(old(repo.View()), old(outline.boxes), u, keyID, s, server) ==> r.Some?)
    {
      undone := true;
      var ok, made := true, false;
      if keyID.Some? {
        ok, undone := GiveFreeKey(now, u, keyID.value, name, plan, db);
      } else if server.Some? {
        ok, made, undone := GiveNewKey(now, u, s, server.value, if keyName == "" then name else keyName, plan, db);
      }
      r := if ok then Some(u) else None;
    }

    /** A claimed key already lives on a server; a fresh one needs it named. */
    method ChooseServer(keyID: Option<Id>, serverID: Option<Id>) returns (found: bool, s: Id, server: Option<Server>)
      requires Valid()
      modifies repo`faults
      ensures Valid() && repo.View() == old(repo.View()) && repo.history == old(repo.history)
      ensures found && (keyID.Some? || serverID.Some?) ==> server.Some?
      ensures keyID.None? && serverID.None? ==> server.None?
      ensures enforcer.Faults() >= old(enforcer.Faults())
      ensures server.Some? ==> s in repo.servers && server.value == repo.servers[s] && Live(repo.servers[s])
      ensures keyID.Some? && server.Some? ==> keyID.value in repo.keys && repo.keys[keyID.value].serverID == s
      ensures keyID.None? && serverID.Some? ==> s == serverID.value
      ensures enforcer.Faults() == old(enforcer.Faults()) ==> (found <==>
        if keyID.Some? then
          && keyID.value in repo.keys
          && var home := repo.keys[keyID.value].serverID; home in repo.servers && Live(repo.servers[home])
        else serverID.Some? ==> serverID.value in repo.servers && Live(repo.servers[serverID.value]))
    {
      found, s, server := true, serverID.GetOr(0), None;
      if keyID.Some? {
        var key := repo.GetKey(keyID.value);
        if key.Err? { return false, s, None; }
        s := key.value.serverID;
      } else if serverID.None? { return; }
      var row := repo.GetServer(s);
      found, server := row.Ok?, if row.Ok? then Some(row.value) else None;
    }

    // -------------------------------------------------------------- resetting a usage counter

    /** Carries a set price over to the recreated key; a failure is only logged. */
    method CarryPrice(id: Id, priceMmk: Option<int>) returns (ghost carried: bool)
      requires Valid() && id in repo.keys
      modifies repo
      ensures Valid() && old(repo.history) <= repo.history
      ensures repo.View() == old(repo.View()).(keys := repo.keys)
      ensures carried <== priceMmk.None?
      ensures repo.keys == old(repo.keys)[id := old(repo.keys[id]).(priceMmk :=
        if carried then Coalesce(priceMmk, old(repo.keys[id]).priceMmk) else old(repo.keys[id]).priceMmk)]
      ensures enforcer.Faults() >= old(enforcer.Faults())
      ensures enforcer.Faults() == old(enforcer.Faults()) ==> carried
    {
      carried := true;
      if priceMmk.Some? {
        var err := repo.SetKeyPrice(id, priceMmk);
        carried := err.None?;
      }
    }

    /** Provisions the replacement, carries the old price over if it was set, and nominates it. */
    method Recreate(now: Time, u: Id, s: Id, server: Server, old0: Key)
      returns (r: ResetOutcome, ghost carried: bool, ghost lost: set<Place>)
      requires Valid() && u in repo.users && s in repo.servers && Live(repo.servers[s])
      modifies repo, outline
      ensures Valid() && old(repo.history) <= repo.history
      ensures RowsKept(old(repo.View()), repo.View())
      ensures repo.View() == old(repo.View()).(keys := repo.keys, users := repo.users)
      ensures BoxGrown(old(outline.boxes), outline.boxes, s)
      ensures |lost| <= enforcer.Faults() - old(enforcer.Faults())
      ensures KeptInStep(now, repo.servers, repo.servers, old(repo.keys), repo.keys, old(outline.boxes), outline.boxes,
                         lost)
      ensures r.NotReplaced? || r.NotNominated? || r.ResetDone?
      ensures r.NotReplaced? && r.why.CeilingReached? ==>
        server.maxKeys.Some? && |KeysOn(old(repo.keys), s)| >= server.maxKeys.value
      ensures repo.users == if r.ResetDone? then old(repo.users)[u := old(repo.users[u]).(primaryKeyID := Some(r.id))]
                            else old(repo.users)
      ensures r.ResetDone? ==>
        && r.id !in old(repo.keys) && r.id in repo.keys && repo.keys == old(repo.keys)[r.id := repo.keys[r.id]]
        && Recreated(repo.keys[r.id], old0, u, s)
        && repo.keys[r.id].priceMmk ==
             if carried then Coalesce(old0.priceMmk, server.defaultPriceMmk) else server.defaultPriceMmk
      ensures enforcer.Faults() >= old(enforcer.Faults())
      ensures enforcer.Faults() == old(enforcer.Faults()) ==> carried || !r.ResetDone?
      ensures enforcer.Faults() == old(enforcer.Faults()) ==>
        CanTake(old(repo.keys), old(repo.servers), s) && old(repo.servers)[s] == server ==> r.ResetDone?
    {
      carried := false;
      ghost var db, faults := repo.View(), enforcer.Faults();
      var created, clean := keyAPI.ProvisionKey(now, s, server, old0.name, KeyPlan(old0.limitBytes, old0.endDate),
                                                Some(u));
      lost := ProvidedOrNot(now, repo.servers, db.keys, repo.keys, old(outline.boxes), outline.boxes, s, created,
                            enforcer.Faults() > faults);
      if !created.Created? { return NotReplaced(created), carried, lost; }
      ghost var made := repo.View();
      AsBefore(now, repo.keys[created.id], old0, u, server.defaultPriceMmk);
      r, carried := PutToUse(u, created.id, old0.priceMmk);
      AddedThenPriced(now, db, made, repo.View(), created.id, old(outline.boxes), outline.boxes, lost);
    }

    method PutToUse(u: Id, id: Id, priceMmk: Option<int>) returns (r: ResetOutcome, ghost carried: bool)
      requires Valid() && u in repo.users && Holds(repo.View(), u, id)
      modifies repo
      ensures Valid() && old(repo.history) <= repo.history
      ensures repo.View() == old(repo.View()).(keys := repo.keys, users := repo.users)
      ensures r == ResetDone(id) || r.NotNominated?
      ensures repo.users == if r.ResetDone? then old(repo.users)[u := old(repo.users[u]).(primaryKeyID := Some(id))]
                            else old(repo.users)
      ensures repo.keys == old(repo.keys)[id := old(repo.keys[id]).(priceMmk :=
        if carried then Coalesce(priceMmk, old(repo.keys[id]).priceMmk) else old(repo.keys[id]).priceMmk)]
      ensures enforcer.Faults() >= old(enforcer.Faults())
      ensures enforcer.Faults() == old(enforcer.Faults()) ==> carried && r.ResetDone?
    {
      carried := CarryPrice(id, priceMmk);
      var err := repo.SetUserPrimaryKey(u, Some(id));
      r := if err.None? then ResetDone(id) else NotNominated;
    }

    /** Deletes the holder's current key from its box and then from the records. */
    method RemoveCurrent(ghost now: Time, s: Id, id: Id, key: Key) returns (ok: bool)
      requires Valid() && id in repo.keys && repo.keys[id] == key && key.serverID == s
      modifies repo, outline
      ensures Valid() && old(repo.history) <= repo.history
      ensures repo.View() == if ok then Store.DeleteKey(old(repo.View()), id) else old(repo.View())
      ensures outline.boxes != old(outline.boxes) ==>
        s in old(outline.boxes) && outline.boxes == WithoutRemoteKey(old(outline.boxes), s, key.outlineID)
      ensures ok ==> outline.boxes != old(outline.boxes)
      ensures KeptInStep(now, repo.servers, repo.servers, old(repo.keys), repo.keys, old(outline.boxes), outline.boxes,
                         {})
      ensures enforcer.Faults() >= old(enforcer.Faults())
      ensures enforcer.Faults() == old(enforcer.Faults()) ==> (ok <==> Has(old(outline.boxes), s, key.outlineID))
    {
      var err := outline.DeleteAccessKey(s, key.outlineID);
      if err.Some? {
        RemovedKeepsConverged(now, repo.servers, repo.keys, repo.keys, old(outline.boxes), outline.boxes, id);
        return false;
      }
      err := repo.DeleteKey(id);
      ok := err.None?;
      RemovedKeepsConverged(now, repo.servers, old(repo.keys), repo.keys, old(outline.boxes), outline.boxes, id);
    }

    /** The key the holder's link leads to, and its server. */
    method CurrentKey(u: Id) returns (r: Result<(Id, Key, Server), ResetOutcome>)
      requires Valid()
      modifies repo`faults
      ensures Valid() && repo.View() == old(repo.View()) && repo.history == old(repo.history)
      ensures r.Ok? ==>
        var (p, key, server) := r.value;
        && u in repo.users && repo.users[u].primaryKeyID == Some(p) && p in repo.keys && repo.keys[p] == key
        && key.serverID in repo.servers && Live(repo.servers[key.serverID]) && repo.servers[key.serverID] == server
      ensures r.Err? ==> r.error.NoKey? || r.error.NotFoundNow?
      ensures enforcer.Faults() >= old(enforcer.Faults())
      ensures enforcer.Faults() == old(enforcer.Faults()) && u in repo.users && repo.users[u].primaryKeyID.Some? ==>
        OnLiveBox(repo.keys, repo.servers, outline.boxes, repo.users[u].primaryKeyID.value) ==> r.Ok?
    {
      var user := repo.GetUser(u);
      if user.Err? { return Err(NotFoundNow); }
      if user.value.primaryKeyID.None? { return Err(NoKey); }
      var p := user.value.primaryKeyID.value;
      var key := repo.GetKey(p);
      if key.Err? { return Err(NotFoundNow); }
      var server := repo.GetServer(key.value.serverID);
      if server.Err? { return Err(NotFoundNow); }
      r := Ok((p, key.value, server.value));
    }

    /**
      Recreates the holder's key to get a clean usage counter. Deleting the old key first frees its place, so
      a server within its ceiling never refuses the replacement. On success limit, end date and effective
      price carry over; the opt-in to automatic renewal does not.
    */
    method ResetUserKeyUsage(now: Time, u: Id)
      returns (r: ResetOutcome, ghost carried: bool, ghost lost: set<Place>)
      requires Valid()
      modifies repo, outline
      ensures Valid() && old(repo.history) <= repo.history
      ensures r.NotReplaced? || r.ResetDone? ==>
        && u in old(repo.users) && old(repo.users[u]).primaryKeyID.Some?
        && var p := old(repo.users[u]).primaryKeyID.value;
           p in old(repo.keys)
           && var key := old(repo.keys)[p];
              key.serverID in old(repo.servers)
              && var server := old(repo.servers)[key.serverID];
                 && (r.NotReplaced? && r.why.CeilingReached? ==>
                       server.maxKeys.Some? && |KeysOn(old(repo.keys), key.serverID)| > server.maxKeys.value)
                 && (r.ResetDone? ==>
                       && u in repo.users && repo.users[u].primaryKeyID == Some(r.id)
                       && r.id in repo.keys && repo.keys == (old(repo.keys) - {p})[r.id := repo.keys[r.id]]
                       && Recreated(repo.keys[r.id], key, u, key.serverID)
                       && (carried ==> Coalesce(repo.keys[r.id].priceMmk, server.defaultPriceMmk)
                                       == Coalesce(key.priceMmk, server.defaultPriceMmk)))
      ensures forall v {:trigger SameUser(old(repo.View()), repo.View(), v)} | v in old(repo.users) && v != u ::
        SameUser(old(repo.View()), repo.View(), v)
      ensures OthersKeepRows(old(repo.View()), repo.View(), u)
      ensures outline.boxes != old(outline.boxes) || repo.View() != old(repo.View()) ==>
        && u in old(repo.users) && old(repo.users[u]).primaryKeyID.Some?
        && var p := old(repo.users[u]).primaryKeyID.value;
           p in old(repo.keys) && OnlyReset(old(repo.View()), repo.View(), old(outline.boxes), outline.boxes, p)
      ensures |lost| <= enforcer.Faults() - old(enforcer.Faults())
      ensures KeptInStep(now, repo.servers, repo.servers, old(repo.keys), repo.keys, old(outline.boxes), outline.boxes,
                         lost)
      ensures enforcer.Faults() >= old(enforcer.Faults())
      ensures enforcer.Faults() == old(enforcer.Faults()) ==> carried || !r.ResetDone?
      ensures enforcer.Faults() == old(enforcer.Faults()) ==>
        u in old(repo.users) && old(repo.users[u]).primaryKeyID.Some? ==>
          Resettable(old(repo.View()), old(outline.boxes), old(repo.users[u]).primaryKeyID.value) ==> r.ResetDone?
    {
      carried, lost := false, {};
      ghost var db, boxes := repo.View(), outline.boxes;
      NothingKeepsConverged(now, repo.servers, repo.keys, outline.boxes);
      var current := CurrentKey(u);
      if current.Err? { return current.error, carried, lost; }
      var (p, key, server) := current.value;
      r, carried, lost := ResetKey(now, u, p, key, server);
    }

    /** The reset itself, the key and its server being known. */
    method ResetKey(now: Time, u: Id, p: Id, key: Key, server: Server)
      returns (r: ResetOutcome, ghost carried: bool, ghost lost: set<Place>)
      requires Valid() && IsPrimary(repo.View(), u, p) && p in repo.keys && repo.keys[p] == key
      requires key.serverID in repo.servers && repo.servers[key.serverID] == server && Live(server)
      modifies repo, outline
      ensures Valid() && old(repo.history) <= repo.history
      ensures r.NotRemoved? || r.NotReplaced? || r.NotNominated? || r.ResetDone?
      ensures r.NotReplaced? && r.why.CeilingReached? ==>
        server.maxKeys.Some? && |KeysOn(old(repo.keys), key.serverID)| > server.maxKeys.value
      ensures r.ResetDone? ==>
        && u in repo.users && repo.users[u].primaryKeyID == Some(r.id)
        && r.id in repo.keys && repo.keys == (old(repo.keys) - {p})[r.id := repo.keys[r.id]]
        && Recreated(repo.keys[r.id], key, u, key.serverID)
        && (carried ==> Coalesce(repo.keys[r.id].priceMmk, server.defaultPriceMmk)
                        == Coalesce(key.priceMmk, server.defaultPriceMmk))
      ensures forall v {:trigger SameUser(old(repo.View()), repo.View(), v)} | v in old(repo.users) && v != u ::
        SameUser(old(repo.View()), repo.View(), v)
      ensures OthersKeepRows(old(repo.View()), repo.View(), u)
      ensures OnlyReset(old(repo.View()), repo.View(), old(outline.boxes), outline.boxes, p)
      ensures |lost| <= enforcer.Faults() - old(enforcer.Faults())
      ensures KeptInStep(now, repo.servers, repo.servers, old(repo.keys), repo.keys, old(outline.boxes), outline.boxes,
                         lost)
      ensures enforcer.Faults() == old(enforcer.Faults()) ==>
        && (carried || !r.ResetDone?)
        && (Resettable(old(repo.View()), old(outline.boxes), p) ==> r.ResetDone?)
    {
      ghost var db, boxes := repo.View(), outline.boxes;
      var removed := RemoveCurrent(now, key.serverID, p, key);
      if !removed { return NotRemoved, false, {}; }
      r, carried, lost := MakeAnew(now, u, p, key, server, db, boxes);
    }

    /** The second half: the old key is gone, and its holder gets a new one like it. */
    method MakeAnew(now: Time, u: Id, p: Id, key: Key, server: Server, ghost db: DB, ghost boxes: Boxes)
      returns (r: ResetOutcome, ghost carried: bool, ghost lost: set<Place>)
      requires Valid() && Sound(db) && IsPrimary(db, u, p) && p in db.keys && db.keys[p] == key
      requires key.serverID in db.servers && db.servers[key.serverID] == server && Live(server)
      requires repo.View() == Store.DeleteKey(db, p)
      requires key.serverID in boxes && outline.boxes == WithoutRemoteKey(boxes, key.serverID, key.outlineID)
      requires KeptInStep(now, db.servers, db.servers, db.keys, repo.keys, boxes, outline.boxes, {})
      modifies repo, outline
      ensures Valid() && old(repo.history) <= repo.history
      ensures r.NotReplaced? || r.NotNominated? || r.ResetDone?
      ensures r.NotReplaced? && r.why.CeilingReached? ==>
        server.maxKeys.Some? && |KeysOn(db.keys, key.serverID)| > server.maxKeys.value
      ensures r.ResetDone? ==>
        && u in repo.users && repo.users[u].primaryKeyID == Some(r.id)
        && r.id in repo.keys && repo.keys == (db.keys - {p})[r.id := repo.keys[r.id]]
        && Recreated(repo.keys[r.id], key, u, key.serverID)
        && (carried ==> Coalesce(repo.keys[r.id].priceMmk, server.defaultPriceMmk)
                        == Coalesce(key.priceMmk, server.defaultPriceMmk))
      ensures forall v {:trigger SameUser(db, repo.View(), v)} | v in db.users && v != u :: SameUser(db, repo.View(), v)
      ensures OthersKeepRows(db, repo.View(), u) && OnlyReset(db, repo.View(), boxes, outline.boxes, p)
      ensures |lost| <= enforcer.Faults() - old(enforcer.Faults())
      ensures KeptInStep(now, db.servers, repo.servers, db.keys, repo.keys, boxes, outline.boxes, lost)
      ensures enforcer.Faults() == old(enforcer.Faults()) ==>
        && (carried || !r.ResetDone?)
        && ((server.maxKeys.Some? ==> |KeysOn(db.keys, key.serverID)| <= server.maxKeys.value) ==> r.ResetDone?)
    {
      OneLess(db.keys, key.serverID, p);
      OthersKeepPrimary(db, u, p);
      r, carried, lost := Recreate(now, u, key.serverID, server, key);
      DeletedThenKept(db, p, repo.View(), u);
    }
  }
}
