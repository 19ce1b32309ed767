/** Creating and deleting keys across the two stores, under a server's key ceiling. */
module KeyHandlers {
  import opened Wrappers
  import opened Calendar
  import opened Models
  import opened Store
  import opened Repositories
  import opened Outline
  import opened Policy
  import opened KillSwitch
  import opened Convergence
  import opened Enforcement

  // ---------------------------------------------------------------- the allowance of a new key

  /** The allowance a new key starts on. */
  datatype KeyPlan = KeyPlan(limitBytes: Option<int>, endDate: Option<Time>)

  /** A zero figure means one plan period; a positive one below the floor is rejected. */
  function PlanMinimums(addGB: real, addDays: int): Option<(real, int)> {
    if addGB < 0.0 || addDays < 0 then None
    else if 0.0 < addGB < MIN_PLAN_GB then None
    else if 0 < addDays < MIN_PLAN_DAYS then None
    else Some((if addGB == 0.0 then MIN_PLAN_GB else addGB, if addDays == 0 then MIN_PLAN_DAYS else addDays))
  }

  function ResolveKeyPlan(fl: Rounding, now: Time, server: Server, addGB: real, addDays: int): Option<KeyPlan> {
    var minimums := PlanMinimums(addGB, addDays);
    if minimums.None? then None
    else
      var (gb, days) := minimums.value;
      var granted := if addGB == 0.0 && server.defaultLimitBytes.Some?
                     then GBOfBytes(fl, server.defaultLimitBytes.value) else gb;
      Some(KeyPlan(Grant(fl, granted), if days > 0 then Some(now + days * DAY) else None))
  }

  /** A holder being moved keeps any positive allowance as it is, even below the floor. */
  function ResolveMovePlan(fl: Rounding, now: Time, server: Server, addGB: real, addDays: int): Option<KeyPlan> {
    if addGB < 0.0 || addDays < 0 then None
    else
      var defaults := ResolveKeyPlan(fl, now, server, 0.0, 0);
      if defaults.None? then None
      else Some(KeyPlan(if addGB > 0.0 then Grant(fl, addGB) else defaults.value.limitBytes,
                        if addDays > 0 then Some(now + addDays * DAY) else defaults.value.endDate))
  }

  /** A byte figure to within the one byte that turning it into GB and back may cost. */
  predicate Nearly(limit: Option<int>, bytes: int) { limit.Some? && bytes - 1 <= limit.value <= bytes }

  /**
    The quota and end date of a key somebody is put on: as asked for, or else the server's default, or 200 GB
    if it has none, and 30 days.
  */
  ghost predicate Allotted(fl: Rounding, now: Time, limitBytes: Option<int>, endDate: Option<Time>, server: Server,
                           addGB: real, addDays: int)
  {
    && (addGB > 0.0 ==> limitBytes == Some(BytesOfGB(fl, addGB)))
    && (addGB == 0.0 && RoundsToNearest(fl) ==>
          if server.defaultLimitBytes.None? then Nearly(limitBytes, 200_000_000_000)
          else 0 < server.defaultLimitBytes.value <= 0x8_0000_0000_0000 ==>
            Nearly(limitBytes, server.defaultLimitBytes.value))
    && endDate == Some(now + (if addDays > 0 then addDays else 30) * 86_400_000_000)
  }

  /** Nothing or at least a plan period's worth of either. */
  predicate PlanAccepted(addGB: real, addDays: int) {
    (addGB == 0.0 || addGB >= 200.0) && (addDays == 0 || addDays >= 30)
  }

  lemma PlanAllots(fl: Rounding, now: Time, server: Server, addGB: real, addDays: int)
    ensures ResolveKeyPlan(fl, now, server, addGB, addDays).Some? <==> PlanAccepted(addGB, addDays)
    ensures PlanMinimums(addGB, addDays).Some? <==> PlanAccepted(addGB, addDays)
    ensures
      var plan := ResolveKeyPlan(fl, now, server, addGB, addDays);
      plan.Some? ==> Allotted(fl, now, plan.value.limitBytes, plan.value.endDate, server, addGB, addDays)
  {
    if RoundsToNearest(fl) { DefaultIsNear(fl, server); }
  }

  lemma MoveAllots(fl: Rounding, now: Time, server: Server, addGB: real, addDays: int)
    ensures ResolveMovePlan(fl, now, server, addGB, addDays).Some? <==> addGB >= 0.0 && addDays >= 0
    ensures
      var plan := ResolveMovePlan(fl, now, server, addGB, addDays);
      plan.Some? ==> Allotted(fl, now, plan.value.limitBytes, plan.value.endDate, server, addGB, addDays)
  {
    PlanAllots(fl, now, server, 0.0, 0);
  }

  lemma DefaultIsNear(fl: Rounding, server: Server)
    requires RoundsToNearest(fl)
    ensures Nearly(Grant(fl, 200.0), 200_000_000_000)
    ensures server.defaultLimitBytes.Some? && 0 < server.defaultLimitBytes.value <= 0x8_0000_0000_0000 ==>
      Nearly(Grant(fl, GBOfBytes(fl, server.defaultLimitBytes.value)), server.defaultLimitBytes.value)
  {
    assert Within(200_000_000_000.0, fl(200_000_000_000.0));
    if server.defaultLimitBytes.Some? && 0 < server.defaultLimitBytes.value <= 0x8_0000_0000_0000 {
      GBRoundTrip(fl, server.defaultLimitBytes.value);
    }
  }

  /** A row just made: somebody's or nobody's, on its plan and at its price, unused and not opted in. */
  predicate FreshOn(row: Key, s: Id, name: string, plan: KeyPlan, userID: Option<Id>, priceMmk: Option<int>) {
    && row.serverID == s && row.name == name && row.userID == userID && row.priceMmk == priceMmk
    && row.limitBytes == plan.limitBytes && row.endDate == plan.endDate
    && row.usedBytes == 0 && !row.autoRenew
  }

  /** A key just made for somebody, column by column. */
  ghost predicate MadeFor(fl: Rounding, now: Time, row: Key, userID: Option<Id>, s: Id, server: Server, name: string,
                          addGB: real, addDays: int)
  {
    && row.serverID == s && row.userID == userID && row.name == name && row.usedBytes == 0 && !row.autoRenew
    && row.priceMmk == server.defaultPriceMmk
    && Allotted(fl, now, row.limitBytes, row.endDate, server, addGB, addDays)
  }

  lemma MadeOnPlan(fl: Rounding, now: Time, row: Key, userID: Option<Id>, s: Id, server: Server, name: string,
                   addGB: real, addDays: int, plan: KeyPlan)
    requires FreshOn(row, s, name, plan, userID, server.defaultPriceMmk)
    requires Allotted(fl, now, plan.limitBytes, plan.endDate, server, addGB, addDays)
    ensures MadeFor(fl, now, row, userID, s, server, name, addGB, addDays)
  {
  }

  /**
    A server default reaches a new key, a moved one and an automatic renewal alike, to within the one byte
    that turning it into GB and back may cost.
  */
  lemma DefaultSurvives(fl: Rounding, now: Time, servers: map<Id, Server>, s: Id, addDays: int)
    requires RoundsToNearest(fl)
    requires s in servers && Live(servers[s]) && servers[s].defaultLimitBytes.Some?
    requires 0 < servers[s].defaultLimitBytes.value <= 0x8_0000_0000_0000
    requires addDays == 0 || addDays >= MIN_PLAN_DAYS
    ensures
      var bytes := servers[s].defaultLimitBytes.value;
      var plan := ResolveKeyPlan(fl, now, servers[s], 0.0, addDays);
      var move := ResolveMovePlan(fl, now, servers[s], 0.0, addDays);
      && plan.Some? && plan.value.limitBytes.Some? && bytes - 1 <= plan.value.limitBytes.value <= bytes
      && move.Some? && move.value.limitBytes == plan.value.limitBytes
      && Grant(fl, AutoGB(fl, servers, s)) == plan.value.limitBytes
  {
  }

  // ---------------------------------------------------------------- both stores or neither

  function KeysOn(keys: map<Id, Key>, s: Id): set<Id> { set k | k in keys && keys[k].serverID == s }

  /** One key more, the same in both stores: a new row, and a new key on the box it names. */
  ghost predicate KeyAdded(keys: map<Id, Key>, newKeys: map<Id, Key>, boxes: Boxes, newBoxes: Boxes, s: Id, id: Id) {
    && id !in keys && id in newKeys && newKeys == keys[id := newKeys[id]]
    && newKeys[id].serverID == s
    && var o := newKeys[id].outlineID;
       && s in boxes && o !in boxes[s] && Has(newBoxes, s, o) && newBoxes == WithKey(boxes, s, o, newBoxes[s][o])
       && newKeys[id].access == newBoxes[s][o].access
  }

  /** Every state of the history from position n on is quiet but for key id. */
  ghost predicate AllQuiet(db: DB, history: seq<DB>, n: nat, id: Id) {
    forall i {:trigger Quiet(db, history[i], id)} | n <= i < |history| :: Quiet(db, history[i], id)
  }

  /** The row of a key just provisioned: on its plan, at the server's default price, held by userID. */
  predicate OnPlan(now: Time, row: Key, plan: KeyPlan, userID: Option<Id>, priceMmk: Option<int>) {
    StartsOn(row, plan, userID, priceMmk) || row == Reconciled(now, Blank(row, plan, userID, priceMmk))
  }

  function Blank(row: Key, plan: KeyPlan, userID: Option<Id>, priceMmk: Option<int>): Key {
    NewRow(row.serverID, row.outlineID, row.name, row.access, row.token)
    .(limitBytes := plan.limitBytes, endDate := plan.endDate, userID := userID, priceMmk := priceMmk)
  }

  predicate StartsOn(row: Key, plan: KeyPlan, userID: Option<Id>, priceMmk: Option<int>) {
    row == Blank(row, plan, userID, priceMmk)
  }

  lemma StaysOnPlan(now: Time, row: Key, after: Key, plan: KeyPlan, userID: Option<Id>, priceMmk: Option<int>)
    requires StartsOn(row, plan, userID, priceMmk) && (after == row || after == Reconciled(now, row))
    ensures OnPlan(now, after, plan, userID, priceMmk)
  {
  }

  /** A key just provisioned; what else was in step still is, and so is the new key unless something was missed. */
  ghost predicate Provided(now: Time, servers: map<Id, Server>, keys: map<Id, Key>, newKeys: map<Id, Key>,
                           boxes: Boxes, newBoxes: Boxes, s: Id, id: Id, missed: bool)
  {
    && KeyAdded(keys, newKeys, boxes, newBoxes, s, id)
    && KeptInStep(now, servers, servers, keys, newKeys, boxes, newBoxes, Among(missed, newKeys[id]))
  }

  lemma AddingKeepsConverged(now: Time, servers: map<Id, Server>, keys: map<Id, Key>, newKeys: map<Id, Key>,
                             boxes: Boxes, newBoxes: Boxes, s: Id, id: Id, missed: bool)
    requires KeyAdded(keys, newKeys, boxes, newBoxes, s, id)
    requires !missed && s in servers && Live(servers[s]) ==>
      Settled(now, newKeys[id], newBoxes, SwitchedOff(servers[s]))
    ensures Provided(now, servers, keys, newKeys, boxes, newBoxes, s, id, missed)
  {
    var lost := Among(missed, newKeys[id]);
    if Converged(now, servers, keys, boxes) {
      forall t | t in servers && Live(servers[t])
        ensures AllAdopted(now, t, lost, newKeys, newBoxes, SwitchedOff(servers[t]))
      {
        var off := SwitchedOff(servers[t]);
        assert AllAdopted(now, t, {}, keys, boxes, off);
        forall o | o in newBoxes[t] && (t, o) !in lost ensures Adopted(now, t, o, newKeys, newBoxes, off) {
          if At(newKeys[id], t, o) {
            assert Settled(now, newKeys[id], newBoxes, off);
          } else {
            assert Adopted(now, t, o, keys, boxes, off);
            var k :| k in keys && At(keys[k], t, o) && Settled(now, keys[k], boxes, off);
            assert k in newKeys && At(newKeys[k], t, o) && Settled(now, newKeys[k], newBoxes, off);
          }
        }
      }
    }
  }

  /** A key left on a box without a row is out of step, and nothing else is. */
  lemma GrownKeepsConverged(now: Time, servers: map<Id, Server>, keys: map<Id, Key>, boxes: Boxes, newBoxes: Boxes,
                            s: Id)
    returns (lost: set<Place>)
    requires BoxGrown(boxes, newBoxes, s)
    ensures |lost| <= 1 && (newBoxes == boxes ==> lost == {})
    ensures KeptInStep(now, servers, servers, keys, keys, boxes, newBoxes, lost)
  {
    lost := {};
    if newBoxes != boxes {
      var p :| p !in boxes[s] && Has(newBoxes, s, p) && newBoxes == WithKey(boxes, s, p, newBoxes[s][p]);
      lost := {(s, p)};
      if Converged(now, servers, keys, boxes) {
        forall t | t in servers && Live(servers[t])
          ensures AllAdopted(now, t, lost, keys, newBoxes, SwitchedOff(servers[t]))
        {
          var off := SwitchedOff(servers[t]);
          assert AllAdopted(now, t, {}, keys, boxes, off);
          forall o | o in newBoxes[t] && (t, o) !in lost ensures Adopted(now, t, o, keys, newBoxes, off) {
            assert Adopted(now, t, o, keys, boxes, off);
            var k :| k in keys && At(keys[k], t, o) && Settled(now, keys[k], boxes, off);
            assert k in keys && At(keys[k], t, o) && Settled(now, keys[k], newBoxes, off);
          }
        }
      }
    }
  }

  predicate SameButHolder(a: Key, b: Key) { b == a.(userID := b.userID) }

  /** The same rows, whoever holds the keys. */
  ghost predicate SameButHolders(keys: map<Id, Key>, newKeys: map<Id, Key>) {
    newKeys.Keys == keys.Keys && forall k {:trigger SameButHolder(keys[k], newKeys[k])} | k in keys ::
      SameButHolder(keys[k], newKeys[k])
  }

  lemma SameButHoldersOn(keys0: map<Id, Key>, keys: map<Id, Key>, newKeys: map<Id, Key>)
    requires SameButHolders(keys0, keys) && SameButHolders(keys, newKeys)
    ensures SameButHolders(keys0, newKeys)
  {
    forall k | k in keys0 ensures SameButHolder(keys0[k], newKeys[k]) {
      assert SameButHolder(keys0[k], keys[k]) && SameButHolder(keys[k], newKeys[k]);
    }
  }

  /** Who holds a key, its name, price and opt-in play no part in what its box enforces. */
  predicate AlikeOnBox(a: Key, b: Key) {
    b == a.(userID := b.userID, name := b.name, priceMmk := b.priceMmk, autoRenew := b.autoRenew)
  }

  ghost predicate AllAlike(keys: map<Id, Key>, newKeys: map<Id, Key>) {
    newKeys.Keys == keys.Keys && forall k {:trigger AlikeOnBox(keys[k], newKeys[k])} | k in keys ::
      AlikeOnBox(keys[k], newKeys[k])
  }

  lemma AlikeKeepsConverged(now: Time, servers: map<Id, Server>, keys0: map<Id, Key>, keys: map<Id, Key>,
                            newKeys: map<Id, Key>, boxes0: Boxes, boxes: Boxes, lost: set<Place>)
    requires KeptInStep(now, servers, servers, keys0, keys, boxes0, boxes, lost) && AllAlike(keys, newKeys)
    ensures KeptInStep(now, servers, servers, keys0, newKeys, boxes0, boxes, lost)
  {
    if Converged(now, servers, keys0, boxes0) {
      forall t | t in servers && Live(servers[t])
        ensures AllAdopted(now, t, lost, newKeys, boxes, SwitchedOff(servers[t]))
      {
        var off := SwitchedOff(servers[t]);
        assert AllAdopted(now, t, lost, keys, boxes, off);
        forall o | o in boxes[t] && (t, o) !in lost ensures Adopted(now, t, o, newKeys, boxes, off) {
          assert Adopted(now, t, o, keys, boxes, off);
          var k :| k in keys && At(keys[k], t, o) && Settled(now, keys[k], boxes, off);
          assert AlikeOnBox(keys[k], newKeys[k]);
          assert k in newKeys && At(newKeys[k], t, o) && Settled(now, newKeys[k], boxes, off);
        }
      }
    }
  }

  lemma HoldersKeepConverged(now: Time, servers: map<Id, Server>, keys0: map<Id, Key>, keys: map<Id, Key>,
                             newKeys: map<Id, Key>, boxes0: Boxes, boxes: Boxes, lost: set<Place>)
    requires KeptInStep(now, servers, servers, keys0, keys, boxes0, boxes, lost) && SameButHolders(keys, newKeys)
    ensures KeptInStep(now, servers, servers, keys0, newKeys, boxes0, boxes, lost)
  {
    forall k | k in keys ensures AlikeOnBox(keys[k], newKeys[k]) { assert SameButHolder(keys[k], newKeys[k]); }
    AlikeKeepsConverged(now, servers, keys0, keys, newKeys, boxes0, boxes, lost);
  }

  /** Whatever a provisioning comes to, at most one key falls out of step, and none if no call failed. */
  lemma ProvidedOrNot(now: Time, servers: map<Id, Server>, keys: map<Id, Key>, newKeys: map<Id, Key>, boxes: Boxes,
                      newBoxes: Boxes, s: Id, r: Provisioned, missed: bool)
    returns (lost: set<Place>)
    requires HasKey(r) ==> Provided(now, servers, keys, newKeys, boxes, newBoxes, s, r.id, missed)
    requires !HasKey(r) ==> newKeys == keys && BoxGrown(boxes, newBoxes, s) && (!missed ==> newBoxes == boxes)
    ensures |lost| <= if missed then 1 else 0
    ensures BoxGrown(boxes, newBoxes, s) && KeptInStep(now, servers, servers, keys, newKeys, boxes, newBoxes, lost)
  {
    if HasKey(r) {
      lost := Among(missed, newKeys[r.id]);
    } else {
      lost := GrownKeepsConverged(now, servers, keys, boxes, newBoxes, s);
    }
  }

  lemma TakenBack(boxes: Boxes, s: Id, o: string, key: RemoteKey)
    requires s in boxes && o !in boxes[s]
    ensures WithoutRemoteKey(WithKey(boxes, s, o, key), s, o) == boxes
  {
    assert boxes[s][o := key] - {o} == boxes[s];
  }

  lemma AddedThenPushed(keys0: map<Id, Key>, keys: map<Id, Key>, newKeys: map<Id, Key>,
                        boxes0: Boxes, boxes: Boxes, newBoxes: Boxes, s: Id, id: Id)
    requires KeyAdded(keys0, keys, boxes0, boxes, s, id)
    requires id in newKeys && newKeys == keys[id := newKeys[id]] && SameOutlineKey(newKeys[id], keys[id])
    requires newKeys[id].access == keys[id].access
    requires newBoxes == boxes || exists limit ::
      Has(boxes, s, keys[id].outlineID) && newBoxes == WithLimit(boxes, s, keys[id].outlineID, limit)
    ensures KeyAdded(keys0, newKeys, boxes0, newBoxes, s, id)
  {
    var o := keys[id].outlineID;
    assert keys0[id := keys[id]][id := newKeys[id]] == keys0[id := newKeys[id]];
    assert boxes[s][o := newBoxes[s][o]] == boxes0[s][o := newBoxes[s][o]];
    assert newBoxes == boxes0[s := boxes0[s][o := newBoxes[s][o]]];
  }

  lemma AddingIsQuiet(db: DB, after: DB, id: Id)
    requires after == db.(keys := after.keys)
    requires id !in db.keys && id in after.keys && after.keys == db.keys[id := after.keys[id]]
    ensures Quiet(db, after, id)
  {
  }

  /** A key added, and then passed over or not. */
  lemma AddedThenKept(now: Time, db: DB, mid: DB, after: DB, boxes: Boxes, midBoxes: Boxes, newBoxes: Boxes,
                      s: Id, id: Id, missed: bool)
    requires KeyAdded(db.keys, mid.keys, boxes, midBoxes, s, id)
    requires mid == db.(keys := mid.keys) && after == db.(keys := after.keys)
    requires id in after.keys && after.keys == mid.keys[id := after.keys[id]]
    requires SameOutlineKey(after.keys[id], mid.keys[id]) && after.keys[id].access == mid.keys[id].access
    requires newBoxes == midBoxes || exists limit ::
      Has(midBoxes, s, mid.keys[id].outlineID) && newBoxes == WithLimit(midBoxes, s, mid.keys[id].outlineID, limit)
    requires !missed && s in db.servers && Live(db.servers[s]) ==>
      Settled(now, after.keys[id], newBoxes, SwitchedOff(db.servers[s]))
    ensures Provided(now, db.servers, db.keys, after.keys, boxes, newBoxes, s, id, missed)
    ensures Quiet(db, mid, id) && Quiet(db, after, id)
  {
    AddedThenPushed(db.keys, mid.keys, after.keys, boxes, midBoxes, newBoxes, s, id);
    AddingKeepsConverged(now, db.servers, db.keys, after.keys, boxes, newBoxes, s, id, missed);
    AddingIsQuiet(db, mid, id);
    AddingIsQuiet(db, after, id);
  }

  lemma OneMore(keys: map<Id, Key>, newKeys: map<Id, Key>, s: Id, id: Id)
    requires id !in keys && id in newKeys && newKeys == keys[id := newKeys[id]] && newKeys[id].serverID == s
    ensures |KeysOn(newKeys, s)| == |KeysOn(keys, s)| + 1
  {
    assert KeysOn(newKeys, s) == KeysOn(keys, s) + {id};
  }

  lemma OneLess(keys: map<Id, Key>, s: Id, id: Id)
    requires id in keys && keys[id].serverID == s
    ensures |KeysOn(keys - {id}, s)| == |KeysOn(keys, s)| - 1
  {
    assert KeysOn(keys - {id}, s) == KeysOn(keys, s) - {id};
  }

  /** How provisioning ends; the key exists in the first three cases. */
  datatype Provisioned =
    | Created(id: Id)
    | LimitNotPushed(id: Id)
    | NotReadBack(id: Id)
    | CeilingReached
    | Unreachable
    | NotRecorded
    | LookupFailed

  predicate HasKey(p: Provisioned) { p.Created? || p.LimitNotPushed? || p.NotReadBack? }

  /** Nothing on record changes but that key id is there now. */
  ghost predicate Quiet(db: DB, after: DB, id: Id) {
    && after == db.(keys := after.keys) && after.keys.Keys <= db.keys.Keys + {id}
    && RowsKept(db, after)
  }

  ghost predicate RowsKept(db: DB, after: DB) {
    forall k {:trigger SameRow(db, after, k)} | k in db.keys :: SameRow(db, after, k)
  }

  predicate SameRow(db: DB, after: DB, k: Id)
    requires k in db.keys
  {
    k in after.keys && after.keys[k] == db.keys[k]
  }

  /** At most one key more is on server s's box. */
  ghost predicate BoxGrown(boxes: Boxes, newBoxes: Boxes, s: Id) {
    || newBoxes == boxes
    || (s in boxes && exists o ::
           o !in boxes[s] && Has(newBoxes, s, o) && newBoxes == WithKey(boxes, s, o, newBoxes[s][o]))
  }

  // ---------------------------------------------------------------- editing a key

  /** The key exists, on the box of a live server. */
  predicate OnLiveBox(keys: map<Id, Key>, servers: map<Id, Server>, boxes: Boxes, id: Id) {
    && id in keys && keys[id].serverID in servers && Live(servers[keys[id].serverID])
    && Has(boxes, keys[id].serverID, keys[id].outlineID)
  }

  /** Absolute edits; what is not given is left as it is. */
  datatype KeyEdit = KeyEdit(
    limitGB: Option<real>, endDate: Option<Time>, priceMmk: Option<int>, clearPrice: bool,
    autoRenew: Option<bool>, billable: bool, paid: bool)
  {
    predicate ChangesPlan() { limitGB.Some? || endDate.Some? }

    predicate Valid() {
      && (limitGB.Some? ==> limitGB.value > 0.0)
      && (priceMmk.Some? ==> priceMmk.value >= 0)
      && (ChangesPlan() || priceMmk.Some? || clearPrice || autoRenew.Some?)
    }
  }

  function EditedPlan(fl: Rounding, key: Key, e: KeyEdit): Key {
    key.(limitBytes := if e.limitGB.Some? then Some(BytesOfGB(fl, e.limitGB.value)) else key.limitBytes,
         endDate := Coalesce(e.endDate, key.endDate))
  }

  function EditedPrice(key: Key, e: KeyEdit): Option<int> {
    if e.clearPrice then None else Coalesce(e.priceMmk, key.priceMmk)
  }

  /** The row once everything has gone through. */
  function Edited(fl: Rounding, now: Time, key: Key, e: KeyEdit): Key {
    var planned := if e.ChangesPlan() then Reconciled(now, EditedPlan(fl, key, e)) else key;
    planned.(priceMmk := EditedPrice(key, e), autoRenew := e.autoRenew.GetOr(key.autoRenew))
  }

  /** A price, or failing that the default of a live server: COALESCE(keys.price_mmk, servers.default_price_mmk). */
  function Worth(price: Option<int>, servers: map<Id, Server>, s: Id): Option<int> {
    Coalesce(price, if s in servers && Live(servers[s]) then servers[s].defaultPriceMmk else None)
  }

  /** What a sale is logged for: what the key is going to be worth. */
  function Billed(key: Key, e: KeyEdit, servers: map<Id, Server>): Option<int> {
    if e.billable then Worth(EditedPrice(key, e), servers, key.serverID) else None
  }

  function EditEntry(fl: Rounding, id: Id, key: Key, e: KeyEdit, amount: Option<int>): RenewalLog {
    var planned := EditedPlan(fl, key, e);
    RenewalLog(id, 0.0, 0, planned.limitBytes, planned.endDate, e.billable ==> e.paid, amount)
  }

  /** An edit is refused unless it asks for something, a quota above zero and no price below it. */
  predicate EditAccepted(e: KeyEdit) {
    && (e.limitGB.Some? || e.endDate.Some? || e.priceMmk.Some? || e.clearPrice || e.autoRenew.Some?)
    && !(e.limitGB.Some? && e.limitGB.value <= 0.0) && !(e.priceMmk.Some? && e.priceMmk.value < 0)
  }

  /** Column by column: what is given is set, what is not is kept, and clearing a price goes before setting one. */
  predicate EditedTo(fl: Rounding, before: Key, after: Key, e: KeyEdit) {
    && after.limitBytes == (if e.limitGB.Some? then Some(BytesOfGB(fl, e.limitGB.value)) else before.limitBytes)
    && after.endDate == (if e.endDate.Some? then e.endDate else before.endDate)
    && after.priceMmk == PriceToBe(before, e)
    && after.autoRenew == (if e.autoRenew.Some? then e.autoRenew.value else before.autoRenew)
    && after == before.(limitBytes := after.limitBytes, endDate := after.endDate, priceMmk := after.priceMmk,
                        autoRenew := after.autoRenew, enabled := after.enabled, status := after.status)
  }

  function PriceToBe(before: Key, e: KeyEdit): Option<int> {
    if e.clearPrice then None else if e.priceMmk.Some? then e.priceMmk else before.priceMmk
  }

  /** The entry for an edited plan: nothing added; a sale at the price to be, or that of its live server; else free. */
  predicate SaleLogged(fl: Rounding, entry: RenewalLog, id: Id, before: Key, e: KeyEdit, servers: map<Id, Server>,
                       known: bool)
  {
    && entry.keyID == id && entry.addedGB == 0.0 && entry.addedDays == 0 && entry.paid == (!e.billable || e.paid)
    && entry.newLimitBytes == (if e.limitGB.Some? then Some(BytesOfGB(fl, e.limitGB.value)) else before.limitBytes)
    && entry.newEndDate == (if e.endDate.Some? then e.endDate else before.endDate)
    && (if !e.billable then entry.amountMmk.None?
        else if PriceToBe(before, e).Some? then entry.amountMmk == PriceToBe(before, e)
        else if before.serverID in servers && servers[before.serverID].deletedAt.None?
        then entry.amountMmk == servers[before.serverID].defaultPriceMmk || (!known && entry.amountMmk.None?)
        else entry.amountMmk.None?)
  }

  /** The amount an edit may be logged at: a server that could not be looked up counts as one without a default. */
  predicate MayBill(key: Key, e: KeyEdit, amount: Option<int>, servers: map<Id, Server>) {
    amount == Billed(key, e, servers) || (e.billable && amount.None? && EditedPrice(key, e).None?)
  }

  /** At most one entry is logged, for this edit. */
  ghost predicate LogsEdit(fl: Rounding, renewals: seq<RenewalLog>, newRenewals: seq<RenewalLog>, id: Id, key: Key,
                           e: KeyEdit, servers: map<Id, Server>)
  {
    || newRenewals == renewals
    || exists amount ::
         MayBill(key, e, amount, servers) && newRenewals == renewals + [EditEntry(fl, id, key, e, amount)]
  }

  /**
    An entry is right about what the key is worth afterwards exactly if the new price was saved and was the
    one billed, or the amount is what the key was worth all along.
  */
  predicate BillExact(key: Key, row: Key, e: KeyEdit, amount: Option<int>, servers: map<Id, Server>) {
    amount == Worth(row.priceMmk, servers, key.serverID) <==>
      || (row.priceMmk == EditedPrice(key, e) && amount == Billed(key, e, servers))
      || amount == Worth(key.priceMmk, servers, key.serverID)
  }

  /** ... whatever calls fail and wherever the edit stops, as long as the price is the old or the new one. */
  lemma BillIsExact(key: Key, row: Key, e: KeyEdit, amount: Option<int>, servers: map<Id, Server>)
    requires e.billable && MayBill(key, e, amount, servers)
    requires row.priceMmk == key.priceMmk || row.priceMmk == EditedPrice(key, e)
    ensures BillExact(key, row, e, amount, servers)
  {
  }

  /** What a plan edit leaves that gets through to Postgres but finds no key to push to. */
  function Misbilled(fl: Rounding, db: DB, id: Id, e: KeyEdit): DB
    requires id in db.keys
  {
    db.(keys := db.keys[id := EditedPlan(fl, db.keys[id], e)],
        renewals := db.renewals + [EditEntry(fl, id, db.keys[id], e, Billed(db.keys[id], e, db.servers))])
  }

  /** The price 5 raised to 9, billed, on a key missing from its box: 9 is on record, and the key is worth 5. */
  lemma BillCanMislead(fl: Rounding) returns (db: DB, boxes: Boxes, id: Id, e: KeyEdit)
    ensures Sound(db) && id in db.keys && !OnLiveBox(db.keys, db.servers, boxes, id)
    ensures e.Valid() && e.ChangesPlan() && e.billable
    ensures
      var after := Misbilled(fl, db, id, e);
      && after.renewals[|after.renewals| - 1].amountMmk == Some(9)
      && Worth(after.keys[id].priceMmk, after.servers, after.keys[id].serverID) == Some(5)
  {
    var server := Server("s", "url", "cert", None, None, None, None, None, None, None, false);
    var key := Key(3, "1", "k", "ss", 0, None, None, Some(5), true, Active, None, "t", false);
    id := 7;
    db := DB(map[3 := server], map[7 := key], map[], [], []);
    boxes := map[3 := map[]];
    e := KeyEdit(Some(200.0), None, Some(9), false, None, true, true);
  }

  /** What editing a plan does to a server is a run of acts, and puts no more than this key out of step. */
  ghost predicate EditPushed(now: Time, servers: map<Id, Server>, id: Id, key: Key, keys: map<Id, Key>,
                             newKeys: map<Id, Key>, boxes: Boxes, newBoxes: Boxes, missed: bool)
  {
    && LedBy(Renewing, now, servers, id, keys, newKeys, boxes, newBoxes)
    && KeptInStep(now, servers, servers, keys, newKeys, boxes, newBoxes, Among(missed, key))
  }

  lemma EditIsPushed(now: Time, servers: map<Id, Server>, id: Id, keys: map<Id, Key>, row: Key, newKeys: map<Id, Key>,
                     boxes: Boxes, newBoxes: Boxes, missed: bool)
    requires id in keys && id in newKeys && newKeys == keys[id := newKeys[id]]
    requires row == keys[id].(limitBytes := row.limitBytes, endDate := row.endDate, priceMmk := row.priceMmk)
    requires PassedOver(now, OffAt(servers, row.serverID), row, newKeys[id], boxes, newBoxes)
    requires !missed && row.serverID in servers && Live(servers[row.serverID]) ==>
      Settled(now, newKeys[id], newBoxes, SwitchedOff(servers[row.serverID]))
    ensures EditPushed(now, servers, id, keys[id], keys, newKeys, boxes, newBoxes, missed)
  {
    RenewedIsLed(now, servers, id, keys, row, newKeys[id], boxes, newBoxes);
    RenewKeepsConverged(now, id, servers, keys, newKeys, boxes, newBoxes, missed);
  }

  /** With every call through, the entry is right exactly if the key was on a live box or the price is no matter. */
  predicate BilledOnBox(db: DB, after: DB, boxes: Boxes, id: Id, e: KeyEdit)
    requires id in db.keys && id in after.keys
  {
    var key, amount := db.keys[id], Billed(db.keys[id], e, db.servers);
    && after.renewals != [] && after.renewals[..|after.renewals| - 1] == db.renewals
    && after.renewals[|after.renewals| - 1].amountMmk == amount
    && (e.billable ==>
          (amount == Worth(after.keys[id].priceMmk, db.servers, key.serverID) <==>
             OnLiveBox(db.keys, db.servers, boxes, id) || amount == Worth(key.priceMmk, db.servers, key.serverID)))
  }

  lemma LogIsExact(fl: Rounding, renewals: seq<RenewalLog>, newRenewals: seq<RenewalLog>, id: Id, key: Key, row: Key,
                   e: KeyEdit, servers: map<Id, Server>)
    requires LogsEdit(fl, renewals, newRenewals, id, key, e, servers)
    requires row.priceMmk == key.priceMmk || row.priceMmk == EditedPrice(key, e)
    ensures e.billable && |newRenewals| > |renewals| ==>
      BillExact(key, row, e, newRenewals[|newRenewals| - 1].amountMmk, servers)
  {
    if e.billable && |newRenewals| > |renewals| {
      BillIsExact(key, row, e, newRenewals[|newRenewals| - 1].amountMmk, servers);
    }
  }

  /** Price and opt-in play no part in what a box enforces. */
  lemma TermsKeepConverged(now: Time, id: Id, servers: map<Id, Server>, keys: map<Id, Key>, planned: map<Id, Key>,
                           newKeys: map<Id, Key>, boxes: Boxes, newBoxes: Boxes, missed: bool, nowMissed: bool)
    requires id in keys && id in planned && id in newKeys && planned == keys[id := planned[id]]
    requires newKeys == planned[id := newKeys[id]]
    requires newKeys[id] == planned[id].(priceMmk := newKeys[id].priceMmk, autoRenew := newKeys[id].autoRenew)
    requires KeptInStep(now, servers, servers, keys, planned, boxes, newBoxes, Among(missed, keys[id]))
    requires missed ==> nowMissed
    ensures KeptInStep(now, servers, servers, keys, newKeys, boxes, newBoxes, Among(nowMissed, keys[id]))
  {
    AlikeKeepsConverged(now, servers, keys, planned, newKeys, boxes, newBoxes, Among(missed, keys[id]));
    if Converged(now, servers, keys, boxes) {
      ConvergedLess(now, servers, newKeys, newBoxes, Among(missed, keys[id]), Among(nowMissed, keys[id]));
    }
  }

  lemma LoseMore(now: Time, servers: map<Id, Server>, keys: map<Id, Key>, boxes: Boxes, lost: set<Place>)
    ensures KeptInStep(now, servers, servers, keys, keys, boxes, boxes, lost)
  {
    if Converged(now, servers, keys, boxes) { ConvergedLess(now, servers, keys, boxes, {}, lost); }
  }

  lemma ConvergedLess(now: Time, servers: map<Id, Server>, keys: map<Id, Key>, boxes: Boxes, lost: set<Place>,
                      more: set<Place>)
    requires ConvergedBut(now, servers, keys, boxes, {}, lost) && lost <= more
    ensures ConvergedBut(now, servers, keys, boxes, {}, more)
  {
    forall s | s in servers && Live(servers[s]) ensures AllAdopted(now, s, more, keys, boxes, SwitchedOff(servers[s])) {
      assert AllAdopted(now, s, lost, keys, boxes, SwitchedOff(servers[s]));
      AdoptedBut(now, s, lost, more, keys, boxes, SwitchedOff(servers[s]));
    }
  }

  /** How the plan part of an edit may leave both stores. */
  ghost predicate PlanDone(fl: Rounding, now: Time, db: DB, after: DB, boxes: Boxes, newBoxes: Boxes, id: Id,
                           e: KeyEdit, ok: bool, newFaults: int)
    requires id in db.keys
  {
    var key := db.keys[id];
    && id in after.keys && after == db.(keys := db.keys[id := after.keys[id]], renewals := after.renewals)
    && (ok ==> after.keys[id] == if e.ChangesPlan() then Reconciled(now, EditedPlan(fl, key, e)) else key)
    && after.keys[id].priceMmk == key.priceMmk
    && EditKept(fl, now, db, after, boxes, newBoxes, id, e, ok, newFaults)
  }

  /** ... and the whole of it. */
  ghost predicate EditDone(fl: Rounding, now: Time, db: DB, after: DB, boxes: Boxes, newBoxes: Boxes, id: Id,
                           e: KeyEdit, ok: bool, newFaults: int)
    requires id in db.keys
  {
    var key := db.keys[id];
    && id in after.keys && after == db.(keys := db.keys[id := after.keys[id]], renewals := after.renewals)
    && (ok ==> after.keys[id] == Edited(fl, now, key, e))
    && (after.keys[id].priceMmk == key.priceMmk || after.keys[id].priceMmk == EditedPrice(key, e))
    && EditKept(fl, now, db, after, boxes, newBoxes, id, e, ok, newFaults)
  }

  /** What an edit logs, when it succeeds, and what stays in step. */
  ghost predicate EditKept(fl: Rounding, now: Time, db: DB, after: DB, boxes: Boxes, newBoxes: Boxes, id: Id,
                           e: KeyEdit, ok: bool, newFaults: int)
    requires id in db.keys
  {
    var key := db.keys[id];
    && newFaults >= 0
    && (newFaults == 0 ==>
          && (ok <==> e.ChangesPlan() ==> OnLiveBox(db.keys, db.servers, boxes, id))
          && (!ok ==> after == Misbilled(fl, db, id, e))
          && (e.ChangesPlan() ==>
                after.renewals == db.renewals + [EditEntry(fl, id, key, e, Billed(key, e, db.servers))]))
    && (!e.ChangesPlan() ==> after.renewals == db.renewals && newBoxes == boxes)
    && LogsEdit(fl, db.renewals, after.renewals, id, key, e, db.servers)
    && KeptInStep(now, db.servers, db.servers, db.keys, after.keys, boxes, newBoxes, Among(newFaults > 0, key))
  }

  predicate TermsDone(db: DB, after: DB, id: Id, e: KeyEdit, ok: bool, newFaults: int)
    requires id in db.keys
  {
    var row := db.keys[id];
    && id in after.keys && after == db.(keys := db.keys[id := after.keys[id]])
    && TermsOf(row, after.keys[id], EditedPrice(row, e), e.autoRenew.GetOr(row.autoRenew))
    && (ok ==> after.keys[id] == row.(priceMmk := EditedPrice(row, e), autoRenew := e.autoRenew.GetOr(row.autoRenew)))
    && newFaults >= if ok then 0 else 1
  }

  lemma PlanFails(fl: Rounding, now: Time, db: DB, after: DB, boxes: Boxes, newBoxes: Boxes, id: Id, e: KeyEdit,
                  newFaults: int)
    requires id in db.keys && PlanDone(fl, now, db, after, boxes, newBoxes, id, e, false, newFaults)
    ensures EditDone(fl, now, db, after, boxes, newBoxes, id, e, false, newFaults)
  {
  }

  lemma TermsFollow(fl: Rounding, now: Time, db: DB, mid: DB, after: DB, boxes: Boxes, newBoxes: Boxes, id: Id,
                    e: KeyEdit, faults: int, ok: bool, moreFaults: int)
    requires id in db.keys && PlanDone(fl, now, db, mid, boxes, newBoxes, id, e, true, faults)
    requires TermsDone(mid, after, id, e, ok, moreFaults)
    ensures EditDone(fl, now, db, after, boxes, newBoxes, id, e, ok, faults + moreFaults)
  {
    TermsInStep(fl, now, db, mid, after, boxes, newBoxes, id, e, faults, ok, moreFaults);
    assert db.keys[id := mid.keys[id]][id := after.keys[id]] == db.keys[id := after.keys[id]];
  }

  lemma TermsInStep(fl: Rounding, now: Time, db: DB, mid: DB, after: DB, boxes: Boxes, newBoxes: Boxes, id: Id,
                    e: KeyEdit, faults: int, ok: bool, moreFaults: int)
    requires id in db.keys && PlanDone(fl, now, db, mid, boxes, newBoxes, id, e, true, faults)
    requires TermsDone(mid, after, id, e, ok, moreFaults)
    ensures KeptInStep(now, db.servers, db.servers, db.keys, after.keys, boxes, newBoxes,
                       Among(faults + moreFaults > 0, db.keys[id]))
  {
    assert after.keys[id] == mid.keys[id].(priceMmk := after.keys[id].priceMmk, autoRenew := after.keys[id].autoRenew);
    TermsKeepConverged(now, id, db.servers, db.keys, mid.keys, after.keys, boxes, newBoxes, faults > 0,
                       faults + moreFaults > 0);
  }

  lemma EntrySays(fl: Rounding, id: Id, key: Key, e: KeyEdit, amount: Option<int>, servers: map<Id, Server>,
                  known: bool)
    requires MayBill(key, e, amount, servers) && (known ==> amount == Billed(key, e, servers))
    ensures SaleLogged(fl, EditEntry(fl, id, key, e, amount), id, key, e, servers, known)
  {
  }

  lemma EditSays(fl: Rounding, now: Time, db: DB, after: DB, boxes: Boxes, newBoxes: Boxes, id: Id, e: KeyEdit,
                 ok: bool, newFaults: int)
    requires id in db.keys && EditDone(fl, now, db, after, boxes, newBoxes, id, e, ok, newFaults)
    ensures ok ==> EditedTo(fl, db.keys[id], after.keys[id], e)
    ensures after.renewals == db.renewals || (
      && OneMoreEntry(db.renewals, after.renewals)
      && SaleLogged(fl, after.renewals[|db.renewals|], id, db.keys[id], e, db.servers, newFaults == 0))
  {
    var key := db.keys[id];
    if after.renewals != db.renewals {
      var amount :| MayBill(key, e, amount, db.servers)
                    && after.renewals == db.renewals + [EditEntry(fl, id, key, e, amount)];
      assert after.renewals[|db.renewals|].amountMmk == amount;
      if newFaults == 0 {
        assert after.renewals[|db.renewals|] == EditEntry(fl, id, key, e, Billed(key, e, db.servers));
      }
      EntrySays(fl, id, key, e, amount, db.servers, newFaults == 0);
    }
  }

  lemma EditMeans(fl: Rounding, now: Time, db: DB, after: DB, boxes: Boxes, newBoxes: Boxes, id: Id, e: KeyEdit,
                  ok: bool, newFaults: int)
    requires id in db.keys && EditDone(fl, now, db, after, boxes, newBoxes, id, e, ok, newFaults)
    ensures e.billable && |after.renewals| > |db.renewals| ==>
      BillExact(db.keys[id], after.keys[id], e, after.renewals[|after.renewals| - 1].amountMmk, db.servers)
    ensures newFaults == 0 && e.ChangesPlan() ==> BilledOnBox(db, after, boxes, id, e)
  {
    LogIsExact(fl, db.renewals, after.renewals, id, db.keys[id], after.keys[id], e, db.servers);
  }

  /** Nothing else than this row's price and opt-in differ from `planned`. */
  predicate TermsOf(planned: Key, row: Key, price: Option<int>, autoRenew: bool) {
    || row == planned
    || row == planned.(priceMmk := price)
    || row == planned.(priceMmk := price, autoRenew := autoRenew)
  }

  class KeyAPI {
    const enforcer: Enforcer
    const repo: Repository
    const outline: Fleet

    constructor (enforcer: Enforcer)
      ensures this.enforcer == enforcer && repo == enforcer.repo && outline == enforcer.outline
    {
      this.enforcer, this.repo, this.outline := enforcer, enforcer.repo, enforcer.outline;
    }

    ghost predicate Valid()
      reads repo
    {
      enforcer.repo == repo && enforcer.outline == outline && repo.Valid()
    }

    /** There is a live server to make a key on, and a holder to make it for if one is named. */
    predicate Attachable(s: Id, userID: Option<Id>)
      reads repo
    {
      s in repo.servers && Live(repo.servers[s]) && (userID.Some? ==> userID.value in repo.users)
    }

    /** Best-effort removal of a key that could not be adopted locally. */
    method DiscardRemoteKey(s: Id, outlineID: string) returns (ghost gone: bool)
      requires Valid() && Has(outline.boxes, s, outlineID)
      modifies repo`faults, outline
      ensures Valid() && repo.View() == old(repo.View())
      ensures gone ==> outline.boxes == WithoutRemoteKey(old(outline.boxes), s, outlineID)
      ensures outline.boxes == old(outline.boxes) || outline.boxes == WithoutRemoteKey(old(outline.boxes), s, outlineID)
      ensures !gone ==> enforcer.Faults() > old(enforcer.Faults()) || s !in repo.servers || !Live(repo.servers[s])
      ensures enforcer.Faults() >= old(enforcer.Faults())
    {
      var server := repo.GetServer(s);
      if server.Err? { return false; }
      var err := outline.DeleteAccessKey(s, outlineID);
      gone := err.None?;
    }

    /** Creates the key on the box, then records it; a key that cannot be recorded is taken back. */
    method CreateInBoth(s: Id, server: Server, name: string, plan: KeyPlan, userID: Option<Id>)
      returns (r: Result<Id, Provisioned>, ghost clean: bool)
      requires Valid()
      modifies repo, outline
      ensures Valid()
      ensures r.Ok? ==>
        && KeyAdded(old(repo.keys), repo.keys, old(outline.boxes), outline.boxes, s, r.value)
        && StartsOn(repo.keys[r.value], plan, userID, server.defaultPriceMmk) && repo.keys[r.value].name == name
        && repo.Committed(InsertKey(r.value, repo.keys[r.value]))
      ensures r.Err? ==> repo.View() == old(repo.View()) && repo.history == old(repo.history)
      ensures r.Err? ==> r.error == Unreachable || r.error == NotRecorded
      ensures r.Ok? ==> clean && enforcer.Faults() == old(enforcer.Faults())
      ensures r.Ok? ==> repo.View() == old(repo.View()).(keys := repo.keys)
      ensures r.Err? && Attachable(s, userID) ==> enforcer.Faults() > old(enforcer.Faults())
      ensures r.Err? && clean ==> outline.boxes == old(outline.boxes)
      ensures r.Err? ==> BoxGrown(old(outline.boxes), outline.boxes, s)
      ensures !clean ==> enforcer.Faults() >= old(enforcer.Faults()) + 2 || !Attachable(s, userID)
      ensures enforcer.Faults() >= old(enforcer.Faults())
    {
      clean := true;
      var created, err := outline.CreateAccessKey(s, name);
      if created.Some? {
        TakenBack(old(outline.boxes), s, created.value, outline.boxes[s][created.value]);
      }
      if err.Some? {
        if created.Some? { clean := DiscardRemoteKey(s, created.value); }
        return Err(Unreachable), clean;
      }
      var remote := outline.boxes[s][created.value];
      var key := repo.CreateKey(s, created.value, remote.name, remote.access, plan.limitBytes, plan.endDate,
                                userID, server.defaultPriceMmk);
      if key.Err? {
        clean := DiscardRemoteKey(s, created.value);
        return Err(NotRecorded), clean;
      }
      r := Ok(key.value);
    }

    method ReachedCeiling(s: Id, server: Server) returns (r: Result<bool, Error>)
      requires Valid()
      modifies repo`faults
      ensures Valid() && repo.View() == old(repo.View()) && repo.history == old(repo.history)
      ensures enforcer.Faults() == old(enforcer.Faults()) + if r.Err? then 1 else 0
      ensures r.Ok? ==> (r.value <==> server.maxKeys.Some? && |KeysOn(repo.keys, s)| >= server.maxKeys.value)
    {
      r := Ok(false);
      if server.maxKeys.Some? {
        var count := repo.CountKeysByServer(s);
        assert KeysOn(repo.keys, s) == set k | k in repo.keys && repo.keys[k].serverID == s;
        r := if count.Ok? then Ok(count.value >= server.maxKeys.value) else Err(count.error);
      }
    }

    /** One code path decides what Outline should enforce, here as in the tick. */
    method PushInitialLimit(now: Time, id: Id) returns (r: Provisioned)
      requires Valid() && id in repo.keys
      modifies repo, outline
      ensures Valid()
      ensures repo.View() == old(repo.View()).(keys := repo.keys)
      ensures HasKey(r) && r.id == id && id in repo.keys
      ensures repo.keys == old(repo.keys)[id := repo.keys[id]]
      ensures repo.keys[id] == old(repo.keys[id]) || repo.keys[id] == Reconciled(now, old(repo.keys[id]))
      ensures var s, o := repo.keys[id].serverID, repo.keys[id].outlineID;
        outline.boxes == old(outline.boxes) || exists limit ::
          Has(old(outline.boxes), s, o) && outline.boxes == WithLimit(old(outline.boxes), s, o, limit)
      ensures repo.history == old(repo.history) || repo.history == old(repo.history) + [repo.View()]
      ensures enforcer.Faults() >= old(enforcer.Faults())
      ensures var key := old(repo.keys)[id];
        Attachable(key.serverID, None) && Has(old(outline.boxes), key.serverID, key.outlineID) ==>
          r.Created? || enforcer.Faults() > old(enforcer.Faults())
      ensures var s := repo.keys[id].serverID;
        enforcer.Faults() == old(enforcer.Faults()) && s in repo.servers && Live(repo.servers[s]) ==>
          Settled(now, repo.keys[id], outline.boxes, SwitchedOff(repo.servers[s]))
    {
      var err := enforcer.ReconcileKeyByID(now, id);
      if err.Some? { return LimitNotPushed(id); }
      var created := repo.GetKey(id);
      r := if created.Ok? then Created(id) else NotReadBack(id);
    }

    /** The key ends up in both stores or, as long as a clean-up that was needed went through, in neither. */
    method CreateAndPush(now: Time, s: Id, server: Server, name: string, plan: KeyPlan, userID: Option<Id>)
      returns (r: Provisioned, ghost clean: bool)
      requires Valid()
      modifies repo, outline
      ensures Valid()
      ensures repo.View() == old(repo.View()).(keys := repo.keys)
      ensures HasKey(r) ==>
        && Provided(now, repo.servers, old(repo.keys), repo.keys, old(outline.boxes), outline.boxes, s, r.id,
                    enforcer.Faults() > old(enforcer.Faults()))
        && OnPlan(now, repo.keys[r.id], plan, userID, server.defaultPriceMmk) && repo.keys[r.id].name == name
      ensures !HasKey(r) ==>
        && repo.keys == old(repo.keys) && repo.history == old(repo.history)
        && BoxGrown(old(outline.boxes), outline.boxes, s) && (clean ==> outline.boxes == old(outline.boxes))
      ensures !clean ==> enforcer.Faults() >= old(enforcer.Faults()) + 2 || !Attachable(s, userID)
      ensures enforcer.Faults() >= old(enforcer.Faults())
      ensures !HasKey(r) ==> r.Unreachable? || r.NotRecorded?
      ensures enforcer.Faults() == old(enforcer.Faults()) && Attachable(s, userID) ==> r.Created?
      ensures HasKey(r) ==> AllQuiet(old(repo.View()), repo.history, |old(repo.history)|, r.id)
      ensures old(repo.history) <= repo.history
    {
      var id;
      id, clean := CreateInBoth(s, server, name, plan, userID);
      if id.Err? { return id.error, clean; }
      AddingIsQuiet(old(repo.View()), repo.View(), id.value);
      r := PushNew(now, s, id.value, plan, userID, server.defaultPriceMmk, old(repo.View()), old(outline.boxes),
                   |old(repo.history)|);
    }

    /** The first push of a key just added to both stores. */
    method PushNew(now: Time, s: Id, id: Id, plan: KeyPlan, userID: Option<Id>, priceMmk: Option<int>, ghost db: DB,
                   ghost boxes0: Boxes, ghost n: nat)
      returns (r: Provisioned)
      requires Valid() && n <= |repo.history| && repo.View() == db.(keys := repo.keys)
      requires KeyAdded(db.keys, repo.keys, boxes0, outline.boxes, s, id)
      requires StartsOn(repo.keys[id], plan, userID, priceMmk) && AllQuiet(db, repo.history, n, id)
      modifies repo, outline
      ensures Valid() && old(repo.history) <= repo.history && repo.View() == db.(keys := repo.keys)
      ensures HasKey(r) && r.id == id
      ensures Provided(now, db.servers, db.keys, repo.keys, boxes0, outline.boxes, s, id,
                       enforcer.Faults() > old(enforcer.Faults()))
      ensures OnPlan(now, repo.keys[id], plan, userID, priceMmk) && repo.keys[id].name == old(repo.keys[id]).name
      ensures enforcer.Faults() >= old(enforcer.Faults())
      ensures enforcer.Faults() == old(enforcer.Faults()) && Attachable(s, None) ==> r.Created?
      ensures AllQuiet(db, repo.history, n, id)
    {
      ghost var mid, boxes := repo.View(), outline.boxes;
      r := PushInitialLimit(now, id);
      StaysOnPlan(now, mid.keys[id], repo.keys[id], plan, userID, priceMmk);
      AddedThenKept(now, db, mid, repo.View(), boxes0, boxes, outline.boxes, s, id,
                    enforcer.Faults() > old(enforcer.Faults()));
    }

    /** The server's ceiling is checked first, against the rows on record. */
    method ProvisionKey(now: Time, s: Id, server: Server, name: string, plan: KeyPlan, userID: Option<Id>)
      returns (r: Provisioned, ghost clean: bool)
      requires Valid()
      modifies repo, outline
      ensures Valid()
      ensures repo.View() == old(repo.View()).(keys := repo.keys)
      ensures HasKey(r) ==>
        && Provided(now, repo.servers, old(repo.keys), repo.keys, old(outline.boxes), outline.boxes, s, r.id,
                    enforcer.Faults() > old(enforcer.Faults()))
        && OnPlan(now, repo.keys[r.id], plan, userID, server.defaultPriceMmk)
        && FreshOn(repo.keys[r.id], s, name, plan, userID, server.defaultPriceMmk)
        && (server.maxKeys.Some? ==> |KeysOn(repo.keys, s)| <= server.maxKeys.value)
      ensures !HasKey(r) ==>
        && repo.keys == old(repo.keys) && repo.history == old(repo.history)
        && BoxGrown(old(outline.boxes), outline.boxes, s) && (clean ==> outline.boxes == old(outline.boxes))
      ensures !clean ==> enforcer.Faults() >= old(enforcer.Faults()) + 2 || !Attachable(s, userID)
      ensures enforcer.Faults() >= old(enforcer.Faults())
      ensures r.CeilingReached? ==> server.maxKeys.Some? && |KeysOn(old(repo.keys), s)| >= server.maxKeys.value
      ensures enforcer.Faults() == old(enforcer.Faults()) && Attachable(s, userID) ==> r.Created? || r.CeilingReached?
      ensures HasKey(r) ==> AllQuiet(old(repo.View()), repo.history, |old(repo.history)|, r.id)
      ensures old(repo.history) <= repo.history
    {
      var full := ReachedCeiling(s, server);
      if full.Err? { return LookupFailed, true; }
      if full.value { return CeilingReached, true; }
      r, clean := CreateAndPush(now, s, server, name, plan, userID);
      if HasKey(r) { OneMore(old(repo.keys), repo.keys, s, r.id); }
    }

    /**
      Deletes a key from its box, then from the records. Unless forced, a key whose box was not seen to drop
      it stays on record, so that it cannot go on working unseen.
    */
    method DeleteKey(id: Id, force: bool) returns (ok: bool)
      requires Valid()
      modifies repo, outline
      ensures Valid()
      ensures ok ==> id in old(repo.keys) && repo.View() == Store.DeleteKey(old(repo.View()), id)
      ensures ok ==> Removed(old(repo.View()), repo.View(), id)
      ensures !ok ==> repo.View() == old(repo.View())
      ensures ok ==>
        var key := old(repo.keys)[id];
        && key.serverID in old(repo.servers) && Live(old(repo.servers)[key.serverID])
        && (!force ==> Has(old(outline.boxes), key.serverID, key.outlineID))
        && (!force ==> outline.boxes == WithoutRemoteKey(old(outline.boxes), key.serverID, key.outlineID))
      ensures outline.boxes == old(outline.boxes) || (
        && id in old(repo.keys)
        && var key := old(repo.keys)[id];
           key.serverID in old(outline.boxes)
           && outline.boxes == WithoutRemoteKey(old(outline.boxes), key.serverID, key.outlineID))
      ensures enforcer.Faults() == old(enforcer.Faults()) ==>
        (ok <==>
          && id in old(repo.keys)
          && var key := old(repo.keys)[id];
             && key.serverID in old(repo.servers) && Live(old(repo.servers)[key.serverID])
             && (force || Has(old(outline.boxes), key.serverID, key.outlineID)))
    {
      var key := repo.GetKey(id);
      if key.Err? { return false; }
      var server := repo.GetServer(key.value.serverID);
      if server.Err? { return false; }
      var err := outline.DeleteAccessKey(key.value.serverID, key.value.outlineID);
      if err.Some? && !force { return false; }
      err := repo.DeleteKey(id);
      ok := err.None?;
    }

    // -------------------------------------------------------------- editing a key

    /** The amount a plan change is billed at; a server that cannot be looked up counts as without default. */
    method AmountOf(key: Key, e: KeyEdit) returns (amount: Option<int>)
      requires Valid()
      modifies repo`faults
      ensures Valid() && repo.View() == old(repo.View()) && enforcer.Faults() >= old(enforcer.Faults())
      ensures MayBill(key, e, amount, repo.servers)
      ensures enforcer.Faults() == old(enforcer.Faults()) ==> amount == Billed(key, e, repo.servers)
    {
      amount := if e.billable then EditedPrice(key, e) else None;
      if e.billable && amount.None? {
        var server := repo.GetServer(key.serverID);
        if server.Ok? { amount := server.value.defaultPriceMmk; }
      }
    }

    /** Saves the new figures and logs the adjustment. */
    method SaveFigures(id: Id, key: Key, e: KeyEdit) returns (ok: bool)
      requires Valid() && id in repo.keys && repo.keys[id] == key
      modifies repo
      ensures Valid() && repo.users == old(repo.users) && repo.servers == old(repo.servers)
      ensures repo.snapshots == old(repo.snapshots)
      ensures repo.keys == old(repo.keys) || repo.keys == old(repo.keys)[id := EditedPlan(enforcer.fl, key, e)]
      ensures ok ==> repo.keys == old(repo.keys)[id := EditedPlan(enforcer.fl, key, e)]
      ensures LogsEdit(enforcer.fl, old(repo.renewals), repo.renewals, id, key, e, repo.servers)
      ensures enforcer.Faults() >= old(enforcer.Faults()) + if ok then 0 else 1
      ensures enforcer.Faults() == old(enforcer.Faults()) ==>
        repo.renewals == old(repo.renewals) + [EditEntry(enforcer.fl, id, key, e, Billed(key, e, repo.servers))]
    {
      var planned := EditedPlan(enforcer.fl, key, e);
      var err := repo.SetKeyLimitAndEndDate(id, planned.limitBytes, planned.endDate);
      if err.Some? { return false; }
      var amount := AmountOf(key, e);
      err := repo.InsertRenewalLog(EditEntry(enforcer.fl, id, key, e, amount));
      ok := err.None?;
    }

    /** Pushes a row as it stands. */
    method PushFigures(now: Time, id: Id) returns (ok: bool)
      requires Valid() && id in repo.keys
      modifies repo, outline
      ensures Valid() && repo.users == old(repo.users) && repo.servers == old(repo.servers)
      ensures repo.renewals == old(repo.renewals) && repo.snapshots == old(repo.snapshots)
      ensures old(repo.history) <= repo.history
      ensures id in repo.keys && repo.keys == old(repo.keys)[id := repo.keys[id]]
      ensures repo.keys[id] == if ok then Reconciled(now, old(repo.keys[id])) else old(repo.keys[id])
      ensures PassedOver(now, OffAt(repo.servers, old(repo.keys[id]).serverID), old(repo.keys[id]), repo.keys[id],
                         old(outline.boxes), outline.boxes)
      ensures enforcer.Faults() >= old(enforcer.Faults())
      ensures enforcer.Faults() == old(enforcer.Faults()) ==>
        && (ok <==> OnLiveBox(old(repo.keys), repo.servers, old(outline.boxes), id))
        && (!ok ==> outline.boxes == old(outline.boxes))
      ensures var s := old(repo.keys[id]).serverID;
        enforcer.Faults() == old(enforcer.Faults()) && s in repo.servers && Live(repo.servers[s]) ==>
          Settled(now, repo.keys[id], outline.boxes, SwitchedOff(repo.servers[s]))
    {
      var err := enforcer.ReconcileKeyByID(now, id);
      ok := err.None?;
    }

    /** ... and pushes them. */
    method SavePlan(now: Time, id: Id, key: Key, e: KeyEdit) returns (ok: bool)
      requires Valid() && id in repo.keys && repo.keys[id] == key
      modifies repo, outline
      ensures Valid() && repo.users == old(repo.users) && repo.servers == old(repo.servers)
      ensures repo.snapshots == old(repo.snapshots)
      ensures id in repo.keys && repo.keys == old(repo.keys)[id := repo.keys[id]]
      ensures PlanSaved(now, key, repo.keys[id], e, ok, enforcer.Faults() - old(enforcer.Faults()))
      ensures LogsEdit(enforcer.fl, old(repo.renewals), repo.renewals, id, key, e, repo.servers)
      ensures enforcer.Faults() == old(enforcer.Faults()) ==>
        && repo.renewals == old(repo.renewals) + [EditEntry(enforcer.fl, id, key, e, Billed(key, e, repo.servers))]
        && (ok <==> OnLiveBox(old(repo.keys), repo.servers, old(outline.boxes), id))
        && (!ok ==> outline.boxes == old(outline.boxes))
      ensures EditPushed(now, repo.servers, id, key, old(repo.keys), repo.keys, old(outline.boxes), outline.boxes,
                         enforcer.Faults() > old(enforcer.Faults()))
    {
      ghost var keys, boxes := repo.keys, outline.boxes;
      ok := SaveFigures(id, key, e);
      ghost var saved := repo.keys;
      if ok { ok := PushFigures(now, id); }
      EditIsPushed(now, repo.servers, id, keys, saved[id], repo.keys, boxes, outline.boxes,
                   enforcer.Faults() > old(enforcer.Faults()));
    }

    /** How far saving the plan may get: not at all, to the new figures, or to the caches as well. */
    predicate PlanSaved(now: Time, key: Key, row: Key, e: KeyEdit, ok: bool, newFaults: int) {
      var planned := EditedPlan(enforcer.fl, key, e);
      && newFaults >= 0
      && (if ok then row == Reconciled(now, planned)
          else row == planned || (row == key && newFaults > 0))
    }

    /** Price and opt-in are local bookkeeping. */
    method SaveTerms(id: Id, e: KeyEdit) returns (ok: bool)
      requires Valid() && id in repo.keys
      modifies repo
      ensures Valid() && repo.users == old(repo.users) && repo.servers == old(repo.servers)
      ensures repo.renewals == old(repo.renewals) && repo.snapshots == old(repo.snapshots)
      ensures id in repo.keys && repo.keys == old(repo.keys)[id := repo.keys[id]]
      ensures var before := old(repo.keys[id]);
        && TermsOf(before, repo.keys[id], EditedPrice(before, e), e.autoRenew.GetOr(before.autoRenew))
        && (ok ==> repo.keys[id] == before.(priceMmk := EditedPrice(before, e),
                                            autoRenew := e.autoRenew.GetOr(before.autoRenew)))
      ensures enforcer.Faults() >= old(enforcer.Faults()) + if ok then 0 else 1
    {
      ok := SavePrice(id, e);
      if ok && e.autoRenew.Some? {
        var err := repo.SetKeyAutoRenew(id, e.autoRenew.value);
        ok := err.None?;
      }
    }

    method SavePrice(id: Id, e: KeyEdit) returns (ok: bool)
      requires Valid() && id in repo.keys
      modifies repo
      ensures Valid() && repo.users == old(repo.users) && repo.servers == old(repo.servers)
      ensures repo.renewals == old(repo.renewals) && repo.snapshots == old(repo.snapshots)
      ensures repo.keys ==
        if ok then old(repo.keys)[id := old(repo.keys[id]).(priceMmk := EditedPrice(old(repo.keys[id]), e))]
        else old(repo.keys)
      ensures enforcer.Faults() == old(enforcer.Faults()) + if ok then 0 else 1
    {
      var err := None;
      if e.clearPrice {
        err := repo.SetKeyPrice(id, None);
      } else if e.priceMmk.Some? {
        err := repo.SetKeyPrice(id, e.priceMmk);
      }
      ok := err.None?;
    }

    /** The part of an edit that goes to the box, if it has one. */
    method PlanPart(now: Time, id: Id, key: Key, e: KeyEdit) returns (ok: bool)
      requires Valid() && id in repo.keys && repo.keys[id] == key
      modifies repo, outline
      ensures Valid()
      ensures PlanDone(enforcer.fl, now, old(repo.View()), repo.View(), old(outline.boxes), outline.boxes, id, e, ok,
                       enforcer.Faults() - old(enforcer.Faults()))
    {
      NothingKeepsConverged(now, repo.servers, repo.keys, outline.boxes);
      ok := true;
      if e.ChangesPlan() { ok := SavePlan(now, id, key, e); }
    }

    /** The price and the opt-in, after which the row is read back. */
    method TermsPart(id: Id, e: KeyEdit) returns (ok: bool)
      requires Valid() && id in repo.keys
      modifies repo
      ensures Valid()
      ensures TermsDone(old(repo.View()), repo.View(), id, e, ok, enforcer.Faults() - old(enforcer.Faults()))
    {
      ok := SaveTerms(id, e);
      if ok {
        var updated := repo.GetKey(id);
        ok := updated.Ok?;
      }
    }

    /** The plan first, then the rest. */
    method EditFound(now: Time, id: Id, key: Key, e: KeyEdit) returns (ok: bool)
      requires Valid() && id in repo.keys && repo.keys[id] == key
      modifies repo, outline
      ensures Valid()
      ensures EditDone(enforcer.fl, now, old(repo.View()), repo.View(), old(outline.boxes), outline.boxes, id, e, ok,
                       enforcer.Faults() - old(enforcer.Faults()))
    {
      ghost var db, boxes, faults := repo.View(), outline.boxes, enforcer.Faults();
      ok := PlanPart(now, id, key, e);
      ghost var mid, missed := repo.View(), enforcer.Faults() - faults;
      if ok {
        ok := TermsPart(id, e);
        TermsFollow(enforcer.fl, now, db, mid, repo.View(), boxes, outline.boxes, id, e, missed, ok,
                    enforcer.Faults() - faults - missed);
      } else {
        PlanFails(enforcer.fl, now, db, mid, boxes, outline.boxes, id, e, missed);
      }
    }

    /**
      Absolute edits to one key. With every call through it succeeds unless the edit is invalid or a changed
      plan has no key on a live box to be pushed to; the sale is then on record at a price the key has not
      been put on. In general an entry logged is right about what the key is worth afterwards exactly if the
      price billed was saved, or makes no difference.
    */
    method UpdateKey(now: Time, id: Id, e: KeyEdit) returns (ok: bool)
      requires Valid()
      modifies repo, outline
      ensures Valid() && repo.users == old(repo.users) && repo.servers == old(repo.servers)
      ensures id !in old(repo.keys) || !e.Valid() ==> !ok && repo.View() == old(repo.View())
      ensures id in old(repo.keys) ==> id in repo.keys && repo.keys == old(repo.keys)[id := repo.keys[id]]
      ensures ok ==> EditAccepted(e) && EditedTo(enforcer.fl, old(repo.keys)[id], repo.keys[id], e)
      ensures ok ==> repo.keys[id] == Edited(enforcer.fl, now, old(repo.keys)[id], e)
      ensures id in old(repo.keys) && repo.renewals != old(repo.renewals) ==>
        && OneMoreEntry(old(repo.renewals), repo.renewals)
        && SaleLogged(enforcer.fl, repo.renewals[|old(repo.renewals)|], id, old(repo.keys)[id], e, repo.servers,
                      enforcer.Faults() == old(enforcer.Faults()))
      ensures enforcer.Faults() >= old(enforcer.Faults())
      ensures enforcer.Faults() == old(enforcer.Faults()) ==>
        (ok <==> id in old(repo.keys) && EditAccepted(e)
                 && (e.ChangesPlan() ==> OnLiveBox(old(repo.keys), repo.servers, old(outline.boxes), id)))
      ensures !e.ChangesPlan() ==> repo.renewals == old(repo.renewals) && outline.boxes == old(outline.boxes)
      ensures id in old(repo.keys) ==>
        LogsEdit(enforcer.fl, old(repo.renewals), repo.renewals, id, old(repo.keys)[id], e, repo.servers)
      ensures id in old(repo.keys) && e.billable && |repo.renewals| > |old(repo.renewals)| ==>
        BillExact(old(repo.keys)[id], repo.keys[id], e, repo.renewals[|repo.renewals| - 1].amountMmk, repo.servers)
      ensures enforcer.Faults() == old(enforcer.Faults()) && id in old(repo.keys) && e.Valid() && e.ChangesPlan() ==>
        && BilledOnBox(old(repo.View()), repo.View(), old(outline.boxes), id, e)
        && (!ok ==> repo.View() == Misbilled(enforcer.fl, old(repo.View()), id, e))
      ensures id in old(repo.keys) ==>
        KeptInStep(now, repo.servers, repo.servers, old(repo.keys), repo.keys, old(outline.boxes), outline.boxes,
                   Among(enforcer.Faults() > old(enforcer.Faults()), old(repo.keys)[id]))
    {
      ghost var db, boxes, faults := repo.View(), outline.boxes, enforcer.Faults();
      var key := repo.GetKey(id);
      if key.Err? || !e.Valid() {
        if id in repo.keys {
          LoseMore(now, repo.servers, repo.keys, boxes, Among(enforcer.Faults() > faults, repo.keys[id]));
        }
        return false;
      }
      ok := EditFound(now, id, key.value, e);
      EditSays(enforcer.fl, now, db, repo.View(), boxes, outline.boxes, id, e, ok, enforcer.Faults() - faults);
      EditMeans(enforcer.fl, now, db, repo.View(), boxes, outline.boxes, id, e, ok, enforcer.Faults() - faults);
    }
  }
}
