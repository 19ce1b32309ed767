/**
  The enforcer's passes as relations between the two stores: what reconciling, syncing, tripping and
  renewing may change, and why passes in sequence leave the whole fleet in step with its rows.
*/
module Convergence {
  import opened Wrappers
  import opened Calendar
  import opened Models
  import opened Store
  import opened Repositories
  import opened Outline
  import opened Policy
  import opened KillSwitch
  import opened Usage

  // ---------------------------------------------------------------- the two stores side by side

  /** Where a key lives: its server and its id on that server's box. */
  type Place = (Id, string)

  function PlaceOf(key: Key): Place { (key.serverID, key.outlineID) }

  predicate At(key: Key, server: Id, outlineID: string) { key.serverID == server && key.outlineID == outlineID }

  /** If the key exists on its box, the box enforces the desired limit and the stored flag agrees. */
  predicate Settled(now: Time, key: Key, boxes: Boxes, off: bool) {
    Has(boxes, key.serverID, key.outlineID) ==> HeldTo(now, key, boxes[key.serverID][key.outlineID].limit, off)
  }

  predicate SwitchedOff(server: Server) { server.bandwidthDisabledAt.Some? }

  predicate OffAt(servers: map<Id, Server>, s: Id) { s in servers && SwitchedOff(servers[s]) }

  /** What was done about key k was a run of acts on its server. */
  ghost predicate LedBy(kind: Kind, now: Time, servers: map<Id, Server>, k: Id,
                        keys: map<Id, Key>, newKeys: map<Id, Key>, boxes: Boxes, newBoxes: Boxes)
  {
    k in keys ==>
      var s := keys[k].serverID;
      Leads(kind, now, SiteOf(s, OffAt(servers, s), keys, boxes), SiteOf(s, OffAt(servers, s), newKeys, newBoxes))
  }

  lemma RenewedIsLed(now: Time, servers: map<Id, Server>, k: Id, keys: map<Id, Key>, row: Key, after: Key,
                     boxes: Boxes, newBoxes: Boxes)
    requires k in keys
    requires row == keys[k].(limitBytes := row.limitBytes, endDate := row.endDate, priceMmk := row.priceMmk)
    requires PassedOver(now, OffAt(servers, row.serverID), row, after, boxes, newBoxes)
    ensures LedBy(Renewing, now, servers, k, keys, keys[k := after], boxes, newBoxes)
  {
    RenewalIsActs(now, row.serverID, OffAt(servers, row.serverID), keys, boxes, k, row, after, newBoxes);
  }

  predicate LimitAside(a: RemoteKey, b: RemoteKey) { a.name == b.name && a.access == b.access }

  /** Only enforced limits differ, and only on server s. */
  ghost predicate LimitsOnly(before: Boxes, after: Boxes, s: Id) {
    if s in before && s in after then
      && after == before[s := after[s]]
      && after[s].Keys == before[s].Keys
      && forall o {:trigger LimitAside(before[s][o], after[s][o])} | o in before[s] ::
        LimitAside(before[s][o], after[s][o])
    else after == before
  }

  predicate RowStep(now: Time, before: Key, after: Key, s: Id) {
    after == before || (before.serverID == s && after == Reconciled(now, before))
  }

  /** Only rows of server s differ, and each of those is as it was or brought up to date. */
  ghost predicate RowsReconciled(now: Time, before: map<Id, Key>, after: map<Id, Key>, s: Id) {
    && after.Keys == before.Keys
    && forall k {:trigger RowStep(now, before[k], after[k], s)} | k in before :: RowStep(now, before[k], after[k], s)
  }

  /** A row synced onto server s: its policy kept, or none yet when the key was not known before. */
  predicate SyncedRow(s: Id, before: map<Id, Key>, k: Id, row: Key) {
    if k in before then SamePolicy(row, before[k]) && (before[k].serverID != s ==> row == before[k])
    else SamePolicy(row, NewRow(s, row.outlineID, "", "", row.token))
  }

  /** Syncing changes no row's limit, end date, holder, price or token, and touches server s only. */
  ghost predicate PolicyKept(before: map<Id, Key>, after: map<Id, Key>, s: Id) {
    && before.Keys <= after.Keys
    && forall k {:trigger SyncedRow(s, before, k, after[k])} | k in after :: SyncedRow(s, before, k, after[k])
  }

  /** The key o of server s's box is known locally, and settled. */
  ghost predicate Adopted(now: Time, s: Id, o: string, keys: map<Id, Key>, boxes: Boxes, off: bool) {
    exists k :: k in keys && At(keys[k], s, o) && Settled(now, keys[k], boxes, off)
  }

  /** How one pass over one key can end. */
  ghost predicate ReconcileOutcome(now: Time, key: Key, after: Key, boxes: Boxes, newBoxes: Boxes, off: bool,
                                   newFaults: int, err: Option<Error>)
  {
    var pushed := Has(boxes, key.serverID, key.outlineID) &&
                  newBoxes == WithLimit(boxes, key.serverID, key.outlineID, DesiredLimit(now, key, off));
    match err
    case None => newFaults == 0 && pushed && after == Reconciled(now, key)
    case Some(NotFound) =>
      newFaults == 0 && !Has(boxes, key.serverID, key.outlineID) && newBoxes == boxes && after == key
    case Some(Unavailable) => newFaults == 1 && (pushed || newBoxes == boxes) && after == key
    case Some(Refused) => false
  }

  lemma SweepStart(now: Time, s: Id, off: bool, ids: seq<Id>, keys: map<Id, Key>, boxes: Boxes)
    requires forall j | 0 <= j < |ids| :: ids[j] in keys && keys[ids[j]].serverID == s
    ensures Swept(now, s, off, ids, 0, {}, keys, keys, boxes, boxes)
  {
    LeadsNowhere(Passing, now, SiteOf(s, off, keys, boxes));
  }

  /** Every row of the server agrees with its box, those that `failed` aside. */
  ghost predicate AllSettled(now: Time, s: Id, failed: set<Place>, keys: map<Id, Key>, boxes: Boxes, off: bool) {
    forall k {:trigger Settled(now, keys[k], boxes, off)} | k in keys && keys[k].serverID == s ::
      PlaceOf(keys[k]) !in failed ==> Settled(now, keys[k], boxes, off)
  }

  /** The first n of a server's keys have been gone over, those that `failed` aside. */
  ghost predicate Swept(now: Time, s: Id, off: bool, ids: seq<Id>, n: nat, failed: set<Place>,
                        keys0: map<Id, Key>, keys: map<Id, Key>, boxes0: Boxes, boxes: Boxes)
    requires n <= |ids|
  {
    && GoneOver(now, s, off, ids, n, failed, keys0, keys, boxes0, boxes)
    && Leads(Passing, now, SiteOf(s, off, keys0, boxes0), SiteOf(s, off, keys, boxes))
  }

  ghost predicate GoneOver(now: Time, s: Id, off: bool, ids: seq<Id>, n: nat, failed: set<Place>,
                           keys0: map<Id, Key>, keys: map<Id, Key>, boxes0: Boxes, boxes: Boxes)
    requires n <= |ids|
  {
    && RowsReconciled(now, keys0, keys, s) && LimitsOnly(boxes0, boxes, s)
    && (forall j | 0 <= j < |ids| :: ids[j] in keys && keys[ids[j]].serverID == s)
    && (forall j | n <= j < |ids| :: keys[ids[j]] == keys0[ids[j]])
    && (forall j {:trigger Settled(now, keys[ids[j]], boxes, off)} | 0 <= j < n ::
          PlaceOf(keys[ids[j]]) !in failed ==> Settled(now, keys[ids[j]], boxes, off))
  }

  function NewlyFailed(key: Key, err: Option<Error>): set<Place> {
    if err == Some(Unavailable) then {PlaceOf(key)} else {}
  }

  lemma SweepStep(now: Time, s: Id, off: bool, ids: seq<Id>, n: nat, failed: set<Place>,
                  keys0: map<Id, Key>, keys: map<Id, Key>, boxes0: Boxes, boxes: Boxes,
                  after: Key, newBoxes: Boxes, newFaults: int, err: Option<Error>)
    requires n < |ids| && Swept(now, s, off, ids, n, failed, keys0, keys, boxes0, boxes)
    requires forall j | 0 <= j < |ids| && j != n :: ids[j] != ids[n] && !SameOutlineKey(keys[ids[j]], keys[ids[n]])
    requires ReconcileOutcome(now, keys[ids[n]], after, boxes, newBoxes, off, newFaults, err)
    ensures Swept(now, s, off, ids, n + 1, failed + NewlyFailed(keys[ids[n]], err),
                  keys0, keys[ids[n] := after], boxes0, newBoxes)
  {
    PassLeads(Passing, now, s, off, keys0, keys, boxes0, boxes, ids[n], after, newBoxes, newFaults, err);
    GoneOverStep(now, s, off, ids, n, failed, keys0, keys, boxes0, boxes, after, newBoxes, newFaults, err);
  }

  lemma PassLeads(kind: Kind, now: Time, s: Id, off: bool, keys0: map<Id, Key>, keys: map<Id, Key>, boxes0: Boxes,
                  boxes: Boxes, k: Id, after: Key, newBoxes: Boxes, newFaults: int, err: Option<Error>)
    requires Leads(kind, now, SiteOf(s, off, keys0, boxes0), SiteOf(s, off, keys, boxes))
    requires k in keys && keys[k].serverID == s
    requires ReconcileOutcome(now, keys[k], after, boxes, newBoxes, off, newFaults, err)
    ensures Leads(kind, now, SiteOf(s, off, keys0, boxes0), SiteOf(s, off, keys[k := after], newBoxes))
  {
    var a := PassIsAct(now, s, off, keys, boxes, k, after, newBoxes);
    LeadsFurther(kind, now, SiteOf(s, off, keys0, boxes0), SiteOf(s, off, keys, boxes), a);
  }

  lemma GoneOverStep(now: Time, s: Id, off: bool, ids: seq<Id>, n: nat, failed: set<Place>,
                     keys0: map<Id, Key>, keys: map<Id, Key>, boxes0: Boxes, boxes: Boxes,
                     after: Key, newBoxes: Boxes, newFaults: int, err: Option<Error>)
    requires n < |ids| && GoneOver(now, s, off, ids, n, failed, keys0, keys, boxes0, boxes)
    requires forall j | 0 <= j < |ids| && j != n :: ids[j] != ids[n] && !SameOutlineKey(keys[ids[j]], keys[ids[n]])
    requires ReconcileOutcome(now, keys[ids[n]], after, boxes, newBoxes, off, newFaults, err)
    ensures GoneOver(now, s, off, ids, n + 1, failed + NewlyFailed(keys[ids[n]], err),
                     keys0, keys[ids[n] := after], boxes0, newBoxes)
  {
    var id, key := ids[n], keys[ids[n]];
    forall k | k in keys0 ensures RowStep(now, keys0[k], keys[id := after][k], s) {
      assert RowStep(now, keys0[k], keys[k], s);
    }
    LimitsOnlyStep(s, key.outlineID, boxes0, boxes, newBoxes);
    assert err != Some(Unavailable) ==> Settled(now, after, newBoxes, off);
    forall j | 0 <= j < n && PlaceOf(keys[ids[j]]) !in failed ensures Settled(now, keys[ids[j]], newBoxes, off) {
      assert Settled(now, keys[ids[j]], boxes, off);
    }
  }

  lemma SweepEnd(now: Time, s: Id, off: bool, ids: seq<Id>, failed: set<Place>,
                 keys0: map<Id, Key>, keys: map<Id, Key>, boxes0: Boxes, boxes: Boxes)
    requires Swept(now, s, off, ids, |ids|, failed, keys0, keys, boxes0, boxes)
    requires Enumerates(ids, set k | k in keys0 && keys0[k].serverID == s)
    ensures AllSettled(now, s, failed, keys, boxes, off)
  {
    forall k | k in keys && keys[k].serverID == s && PlaceOf(keys[k]) !in failed
      ensures Settled(now, keys[k], boxes, off) {
      assert RowStep(now, keys0[k], keys[k], s);
      assert k in ids;
      var j :| 0 <= j < |ids| && ids[j] == k;
      assert Settled(now, keys[ids[j]], boxes, off);
    }
  }

  /** The first n of a box's keys have been synced, those that `failed` aside. */
  ghost predicate Synced(now: Time, s: Id, off: bool, ids: seq<string>, n: nat, failed: set<Place>,
                         keys0: map<Id, Key>, keys: map<Id, Key>, boxes0: Boxes, boxes: Boxes)
    requires n <= |ids|
  {
    && PolicyKept(keys0, keys, s) && LimitsOnly(boxes0, boxes, s)
    && AdoptedUpTo(now, s, off, ids, n, failed, keys, boxes)
    && Leads(Syncing, now, SiteOf(s, off, keys0, boxes0), SiteOf(s, off, keys, boxes))
  }

  ghost predicate AdoptedUpTo(now: Time, s: Id, off: bool, ids: seq<string>, n: nat, failed: set<Place>,
                              keys: map<Id, Key>, boxes: Boxes)
    requires n <= |ids|
  {
    forall j {:trigger Adopted(now, s, ids[j], keys, boxes, off)} | 0 <= j < n ::
      (s, ids[j]) !in failed ==> Adopted(now, s, ids[j], keys, boxes, off)
  }

  /** Syncing one more key: one row of its own, at most one limit of its own. */
  ghost predicate KeySynced(now: Time, s: Id, o: string, keys: map<Id, Key>, newKeys: map<Id, Key>,
                            boxes: Boxes, newBoxes: Boxes, off: bool, id: Id, ok: bool)
  {
    && (newBoxes == boxes || exists limit :: Has(boxes, s, o) && newBoxes == WithLimit(boxes, s, o, limit))
    && Leads(Syncing, now, SiteOf(s, off, keys, boxes), SiteOf(s, off, newKeys, newBoxes))
    && (|| (!ok && newKeys == keys && newBoxes == boxes)
        || (&& id in newKeys && newKeys == keys[id := newKeys[id]]
            && At(newKeys[id], s, o) && SyncedRow(s, keys, id, newKeys[id])
            && (ok ==> Settled(now, newKeys[id], newBoxes, off))))
  }

  lemma SyncStep(now: Time, s: Id, off: bool, ids: seq<string>, n: nat, failed: set<Place>,
                 keys0: map<Id, Key>, keys: map<Id, Key>, boxes0: Boxes, boxes: Boxes,
                 newKeys: map<Id, Key>, newBoxes: Boxes, id: Id, ok: bool)
    requires n < |ids| && Synced(now, s, off, ids, n, failed, keys0, keys, boxes0, boxes)
    requires forall j | 0 <= j < n :: ids[j] != ids[n]
    requires KeySynced(now, s, ids[n], keys, newKeys, boxes, newBoxes, off, id, ok)
    ensures Synced(now, s, off, ids, n + 1, failed + (if ok then {} else {(s, ids[n])}), keys0, newKeys, boxes0,
                   newBoxes)
  {
    PolicyStep(s, keys0, keys, newKeys, id);
    LimitsOnlyStep(s, ids[n], boxes0, boxes, newBoxes);
    LeadsOn(Syncing, now, SiteOf(s, off, keys0, boxes0), SiteOf(s, off, keys, boxes),
            SiteOf(s, off, newKeys, newBoxes));
    AdoptedStep(now, s, off, ids, n, failed, keys, boxes, newKeys, newBoxes, id, ok);
  }

  /** A key adopted, or not even that, and not pushed. */
  lemma AdoptedOnly(now: Time, s: Id, o: string, off: bool, name: string, access: string, used: int,
                    keys: map<Id, Key>, newKeys: map<Id, Key>, boxes: Boxes, id: Id)
    requires newKeys == keys || (id in newKeys && newKeys == keys[id := newKeys[id]] && At(newKeys[id], s, o)
                                 && AdoptedAs(s, o, name, access, used, keys, id, newKeys[id]))
    ensures KeySynced(now, s, o, keys, newKeys, boxes, boxes, off, id, false)
  {
    LeadsNowhere(Syncing, now, SiteOf(s, off, keys, boxes));
    if newKeys != keys { AdoptionIsActs(now, s, o, off, name, access, used, keys, boxes, id, newKeys[id]); }
  }

  /** A key adopted and then passed over. */
  lemma AdoptedThenPassed(now: Time, s: Id, o: string, off: bool, name: string, access: string, used: int,
                          keys: map<Id, Key>, mid: map<Id, Key>, after: Key, boxes: Boxes, newBoxes: Boxes, id: Id,
                          newFaults: int, err: Option<Error>)
    requires id in mid && mid == keys[id := mid[id]] && At(mid[id], s, o) && Has(boxes, s, o)
    requires AdoptedAs(s, o, name, access, used, keys, id, mid[id])
    requires ReconcileOutcome(now, mid[id], after, boxes, newBoxes, off, newFaults, err)
    ensures KeySynced(now, s, o, keys, keys[id := after], boxes, newBoxes, off, id, err.None?)
    ensures mid[id := after] == keys[id := after] && after.usedBytes == mid[id].usedBytes
    ensures SyncedRow(s, keys, id, after) && At(after, s, o)
  {
    AdoptionIsActs(now, s, o, off, name, access, used, keys, boxes, id, mid[id]);
    PassLeads(Syncing, now, s, off, keys, mid, boxes, boxes, id, after, newBoxes, newFaults, err);
    assert mid[id := after] == keys[id := after];
  }

  lemma PolicyStep(s: Id, keys0: map<Id, Key>, keys: map<Id, Key>, newKeys: map<Id, Key>, id: Id)
    requires PolicyKept(keys0, keys, s)
    requires newKeys == keys ||
      (id in newKeys && newKeys == keys[id := newKeys[id]] && SyncedRow(s, keys, id, newKeys[id]))
    ensures PolicyKept(keys0, newKeys, s)
  {
    forall k | k in newKeys ensures SyncedRow(s, keys0, k, newKeys[k]) {
      assert k in keys ==> SyncedRow(s, keys0, k, keys[k]);
    }
  }

  lemma AdoptedStep(now: Time, s: Id, off: bool, ids: seq<string>, n: nat, failed: set<Place>, keys: map<Id, Key>,
                    boxes: Boxes, newKeys: map<Id, Key>, newBoxes: Boxes, id: Id, ok: bool)
    requires n < |ids| && AdoptedUpTo(now, s, off, ids, n, failed, keys, boxes)
    requires forall j | 0 <= j < n :: ids[j] != ids[n]
    requires KeySynced(now, s, ids[n], keys, newKeys, boxes, newBoxes, off, id, ok)
    ensures AdoptedUpTo(now, s, off, ids, n + 1, failed + (if ok then {} else {(s, ids[n])}), newKeys, newBoxes)
  {
    forall j | 0 <= j < n && (s, ids[j]) !in failed ensures Adopted(now, s, ids[j], newKeys, newBoxes, off) {
      assert Adopted(now, s, ids[j], keys, boxes, off);
      var k :| k in keys && At(keys[k], s, ids[j]) && Settled(now, keys[k], boxes, off);
      assert k in newKeys && At(newKeys[k], s, ids[j]) && Settled(now, newKeys[k], newBoxes, off);
    }
  }

  lemma LimitsOnlyStep(s: Id, o: string, boxes0: Boxes, boxes: Boxes, newBoxes: Boxes)
    requires LimitsOnly(boxes0, boxes, s)
    requires newBoxes == boxes || exists limit :: Has(boxes, s, o) && newBoxes == WithLimit(boxes, s, o, limit)
    ensures LimitsOnly(boxes0, newBoxes, s)
  {
    if s in boxes0 {
      forall p | p in boxes0[s] ensures LimitAside(boxes0[s][p], newBoxes[s][p]) {
        assert LimitAside(boxes0[s][p], boxes[s][p]);
      }
    }
  }

  lemma KeepAll(now: Time, s: Id, off: bool, ids: seq<string>, keys: map<Id, Key>, boxes: Boxes)
    ensures Synced(now, s, off, ids, 0, {}, keys, keys, boxes, boxes)
  {
    LeadsNowhere(Syncing, now, SiteOf(s, off, keys, boxes));
  }

  /** A snapshot of one remote key's counter, and the same figure on its row. */
  predicate MeteredKey(now: Time, s: Id, metrics: map<string, int>, remotes: map<string, RemoteKey>, o: string,
                       keys: map<Id, Key>, snapshot: UsageSnapshot)
  {
    var used := UsageForKey(metrics, o);
    && snapshot.keyID.Some? && snapshot.keyID.value in keys
    && (o in metrics ==> used == metrics[o])
    && At(keys[snapshot.keyID.value], s, o) && keys[snapshot.keyID.value].usedBytes == used
    && o in remotes && keys[snapshot.keyID.value].name == remotes[o].name
    && keys[snapshot.keyID.value].access == remotes[o].access
    && snapshot == UsageSnapshot(s, snapshot.keyID, used, now)
  }

  /** The first n of a box's counters are on record: a snapshot each, in order, and the rows' own figures. */
  ghost predicate Metered(now: Time, s: Id, metrics: map<string, int>, remotes: map<string, RemoteKey>,
                          ids: seq<string>, n: nat, keys: map<Id, Key>,
                          snapshots0: seq<UsageSnapshot>, snapshots: seq<UsageSnapshot>)
    requires n <= |ids|
  {
    && |snapshots| == |snapshots0| + n && snapshots0 <= snapshots
    && var added := snapshots[|snapshots0|..];
       forall j {:trigger MeteredKey(now, s, metrics, remotes, ids[j], keys, added[j])} | 0 <= j < n ::
         MeteredKey(now, s, metrics, remotes, ids[j], keys, added[j])
  }

  lemma MeterStep(now: Time, s: Id, metrics: map<string, int>, remotes: map<string, RemoteKey>, ids: seq<string>,
                  n: nat, keys: map<Id, Key>, newKeys: map<Id, Key>,
                  snapshots0: seq<UsageSnapshot>, snapshots: seq<UsageSnapshot>, id: Id)
    requires n < |ids| && Metered(now, s, metrics, remotes, ids, n, keys, snapshots0, snapshots)
    requires forall j | 0 <= j < n :: ids[j] != ids[n]
    requires id in newKeys && newKeys == keys[id := newKeys[id]] && SyncedRow(s, keys, id, newKeys[id])
    requires At(newKeys[id], s, ids[n]) && newKeys[id].usedBytes == UsageForKey(metrics, ids[n])
    requires ids[n] in remotes
    requires newKeys[id].name == remotes[ids[n]].name && newKeys[id].access == remotes[ids[n]].access
    ensures Metered(now, s, metrics, remotes, ids, n + 1, newKeys, snapshots0,
                    snapshots + [UsageSnapshot(s, Some(id), UsageForKey(metrics, ids[n]), now)])
  {
    var longer := snapshots + [UsageSnapshot(s, Some(id), UsageForKey(metrics, ids[n]), now)];
    var added, longerAdded := snapshots[|snapshots0|..], longer[|snapshots0|..];
    forall j | 0 <= j < n + 1 ensures MeteredKey(now, s, metrics, remotes, ids[j], newKeys, longerAdded[j]) {
      if j < n { assert MeteredKey(now, s, metrics, remotes, ids[j], keys, added[j]); }
    }
  }

  lemma MeterNone(now: Time, s: Id, metrics: map<string, int>, remotes: map<string, RemoteKey>, ids: seq<string>,
                  keys: map<Id, Key>, snapshots: seq<UsageSnapshot>)
    ensures Metered(now, s, metrics, remotes, ids, 0, keys, snapshots, snapshots)
  {
  }

  /** Every key of the box is known locally and settled, the `lost` ones aside. */
  ghost predicate AllAdopted(now: Time, s: Id, lost: set<Place>, keys: map<Id, Key>, boxes: Boxes, off: bool) {
    s in boxes && forall o {:trigger Adopted(now, s, o, keys, boxes, off)} | o in boxes[s] && (s, o) !in lost ::
      Adopted(now, s, o, keys, boxes, off)
  }

  /** Only the outcome of the last sync of server s was noted. */
  predicate SyncMarked(before: map<Id, Server>, after: map<Id, Server>, s: Id) {
    s in before && s in after && after == before[s := before[s].(syncFailed := after[s].syncFailed)]
  }

  lemma SyncEnd(now: Time, s: Id, off: bool, ids: seq<string>, failed: set<Place>,
                keys0: map<Id, Key>, keys: map<Id, Key>, boxes0: Boxes, boxes: Boxes)
    requires s in boxes0 && Enumerates(ids, boxes0[s].Keys)
    requires Synced(now, s, off, ids, |ids|, failed, keys0, keys, boxes0, boxes)
    ensures AllAdopted(now, s, failed, keys, boxes, off)
  {
  }

  // ---------------------------------------------------------------- the whole fleet

  /**
    Apart from the servers `unreached` and the keys `lost`, every key on the box of every live server has a
    row, and is under the limit that row calls for.
  */
  ghost predicate ConvergedBut(now: Time, servers: map<Id, Server>, keys: map<Id, Key>, boxes: Boxes,
                               unreached: set<Id>, lost: set<Place>)
  {
    forall s {:trigger AllAdopted(now, s, lost, keys, boxes, SwitchedOff(servers[s]))} |
      s in servers && Live(servers[s]) && s !in unreached ::
        AllAdopted(now, s, lost, keys, boxes, SwitchedOff(servers[s]))
  }

  /** The whole fleet is in step with its rows. */
  ghost predicate Converged(now: Time, servers: map<Id, Server>, keys: map<Id, Key>, boxes: Boxes) {
    ConvergedBut(now, servers, keys, boxes, {}, {})
  }

  /** ... so that, rows being unique, no such row of such a server is out of step with its box. */
  lemma ConvergedRowsSettled(now: Time, db: DB, boxes: Boxes, unreached: set<Id>, lost: set<Place>, k: Id)
    requires Sound(db) && ConvergedBut(now, db.servers, db.keys, boxes, unreached, lost)
    requires k in db.keys && db.keys[k].serverID in db.servers && Live(db.servers[db.keys[k].serverID])
    requires db.keys[k].serverID !in unreached && PlaceOf(db.keys[k]) !in lost
    ensures Settled(now, db.keys[k], boxes, SwitchedOff(db.servers[db.keys[k].serverID]))
  {
    var s, o := db.keys[k].serverID, db.keys[k].outlineID;
    assert AllAdopted(now, s, lost, db.keys, boxes, SwitchedOff(db.servers[s]));
    if Has(boxes, s, o) {
      assert Adopted(now, s, o, db.keys, boxes, SwitchedOff(db.servers[s]));
      var j :| j in db.keys && At(db.keys[j], s, o) && Settled(now, db.keys[j], boxes, SwitchedOff(db.servers[s]));
      assert SameOutlineKey(db.keys[j], db.keys[k]);
    }
  }

  /** What happens on one server leaves the others adopted. */
  lemma AdoptedElsewhere(now: Time, s: Id, t: Id, lost: set<Place>, newLost: set<Place>,
                         keys: map<Id, Key>, newKeys: map<Id, Key>, boxes: Boxes, newBoxes: Boxes, off: bool)
    requires s != t && AllAdopted(now, t, lost, keys, boxes, off) && LimitsOnly(boxes, newBoxes, s) && lost <= newLost
    requires forall k | k in keys && keys[k].serverID == t :: k in newKeys && newKeys[k] == keys[k]
    ensures AllAdopted(now, t, newLost, newKeys, newBoxes, off)
  {
    forall o | o in newBoxes[t] && (t, o) !in newLost ensures Adopted(now, t, o, newKeys, newBoxes, off) {
      assert Adopted(now, t, o, keys, boxes, off);
      var k :| k in keys && At(keys[k], t, o) && Settled(now, keys[k], boxes, off);
      assert k in newKeys && At(newKeys[k], t, o) && Settled(now, newKeys[k], newBoxes, off);
    }
  }

  // ---------------------------------------------------------------- the kill switch

  /** A sweep may trip this server: it has a cap, is not tripped, and was not re-enabled this month. */
  predicate MayTrip(now: Time, server: Server) {
    && server.bandwidthLimitBytes.Some? && server.bandwidthDisabledAt.None?
    && (server.bandwidthReenabledAt.Some? ==> !SameMonth(server.bandwidthReenabledAt.value, now))
  }

  function Tripped(now: Time, server: Server): Server { server.(bandwidthDisabledAt := Some(now)) }

  predicate CapReached(server: Server, used: int) {
    server.bandwidthLimitBytes.Some? && used >= server.bandwidthLimitBytes.value - BANDWIDTH_DISABLE_MARGIN_BYTES
  }

  /** One server as one sweep may leave it. */
  predicate TripStep(now: Time, before: Server, after: Server) {
    after == before || (Live(before) && MayTrip(now, before) && after == Tripped(now, before))
  }

  ghost predicate TripsOnly(now: Time, before: map<Id, Server>, after: map<Id, Server>) {
    after.Keys == before.Keys && forall s {:trigger TripStep(now, before[s], after[s])} | s in before ::
      TripStep(now, before[s], after[s])
  }

  /**
    A sweep with every call through trips a live server with a cap that is not tripped, was not re-enabled this
    month, and has come within 2 GB of the cap; with snapshots for the whole month it trips no other.
  */
  predicate Checked(now: Time, snapshots: seq<UsageSnapshot>, s: Id, before: Server, after: Server) {
    && (after == before || after == before.(bandwidthDisabledAt := Some(now)))
    && (after != before ==> ReadyToTrip(now, before))
    && (ReadyToTrip(now, before) && NearCap(now, snapshots, s, before) ==>
          after == before.(bandwidthDisabledAt := Some(now)))
    && (MeteredSince(snapshots, s, StartOfMonth(now)) && !NearCap(now, snapshots, s, before) ==> after == before)
  }

  predicate ReadyToTrip(now: Time, server: Server) {
    && server.deletedAt.None? && server.bandwidthDisabledAt.None?
    && (server.bandwidthReenabledAt.None?
        || Year(server.bandwidthReenabledAt.value) != Year(now)
        || Month(server.bandwidthReenabledAt.value) != Month(now))
  }

  predicate NearCap(now: Time, snapshots: seq<UsageSnapshot>, s: Id, server: Server) {
    && server.bandwidthLimitBytes.Some?
    && UsageInRange(snapshots, s, StartOfMonth(now), now) >= server.bandwidthLimitBytes.value - 2_000_000_000
  }

  /** The server's own total was on record at or before t. */
  predicate MeteredSince(snapshots: seq<UsageSnapshot>, s: Id, t: Time) {
    exists i :: 0 <= i < |snapshots|
      && snapshots[i].serverID == s && snapshots[i].keyID.None? && snapshots[i].recordedAt <= t
  }

  /** A server left alone, and one that was tripped. */
  lemma LeftAlone(now: Time, snapshots: seq<UsageSnapshot>, s: Id, server: Server)
    requires !MayTrip(now, server) || !NearCap(now, snapshots, s, server)
    ensures Checked(now, snapshots, s, server, server)
  {
  }

  lemma TrippedRightly(now: Time, snapshots: seq<UsageSnapshot>, s: Id, server: Server)
    requires Live(server) && MayTrip(now, server)
    requires MeteredSince(snapshots, s, StartOfMonth(now)) ==> NearCap(now, snapshots, s, server)
    ensures Checked(now, snapshots, s, server, server.(bandwidthDisabledAt := Some(now)))
  {
  }

  /** The servers in `done` have had their turn in the sweep; the others are as they were. */
  ghost predicate AllChecked(now: Time, snapshots: seq<UsageSnapshot>, done: set<Id>, skipped: set<Id>,
                             rows: map<Id, Server>, servers: map<Id, Server>)
  {
    && servers.Keys == rows.Keys
    && forall s {:trigger TurnTaken(now, snapshots, done, skipped, s, rows[s], servers[s])} | s in rows ::
         TurnTaken(now, snapshots, done, skipped, s, rows[s], servers[s])
  }

  predicate TurnTaken(now: Time, snapshots: seq<UsageSnapshot>, done: set<Id>, skipped: set<Id>, s: Id,
                      before: Server, after: Server)
  {
    if s in skipped then after == before
    else if s in done then Checked(now, snapshots, s, before, after)
    else after == before
  }

  lemma CheckedMore(now: Time, snapshots: seq<UsageSnapshot>, done: set<Id>, skipped: set<Id>, s: Id, missed: bool,
                    rows: map<Id, Server>, servers: map<Id, Server>, newServers: map<Id, Server>)
    requires AllChecked(now, snapshots, done, skipped, rows, servers) && s !in done && s !in skipped
    requires s in servers && s in newServers && newServers == servers[s := newServers[s]]
    requires if missed then newServers[s] == servers[s] else Checked(now, snapshots, s, servers[s], newServers[s])
    ensures AllChecked(now, snapshots, done + {s}, skipped + (if missed then {s} else {}), rows, newServers)
  {
    assert TurnTaken(now, snapshots, done, skipped, s, rows[s], servers[s]);
    var nowSkipped := skipped + if missed then {s} else {};
    forall t | t in rows ensures TurnTaken(now, snapshots, done + {s}, nowSkipped, t, rows[t], newServers[t]) {
      assert TurnTaken(now, snapshots, done, skipped, t, rows[t], servers[t]);
    }
  }

  lemma CheckedAll(now: Time, snapshots: seq<UsageSnapshot>, done: set<Id>, skipped: set<Id>,
                   rows: map<Id, Server>, servers: map<Id, Server>)
    requires AllChecked(now, snapshots, done, skipped, rows, servers)
    requires forall s <- rows :: Live(rows[s]) ==> s in done
    ensures forall s <- rows :: s !in skipped ==> s in servers && Checked(now, snapshots, s, rows[s], servers[s])
  {
    forall s <- rows | s !in skipped ensures s in servers && Checked(now, snapshots, s, rows[s], servers[s]) {
      assert TurnTaken(now, snapshots, done, skipped, s, rows[s], servers[s]);
    }
  }

  /** The next sweep at the same instant would find this server due. */
  predicate Due(now: Time, snapshots: seq<UsageSnapshot>, s: Id, server: Server) {
    ReadyToTrip(now, server) && NearCap(now, snapshots, s, server)
  }

  lemma CheckedIsNotDue(now: Time, snapshots: seq<UsageSnapshot>, s: Id, before: Server, after: Server)
    requires Checked(now, snapshots, s, before, after)
    ensures !Due(now, snapshots, s, after)
  {
  }

  lemma TripsOnlyStep(now: Time, s: Id, rows: map<Id, Server>, servers: map<Id, Server>, newServers: map<Id, Server>)
    requires TripsOnly(now, rows, servers)
    requires s in servers && servers[s] == rows[s]
    requires s in newServers && newServers == servers[s := newServers[s]] && TripStep(now, servers[s], newServers[s])
    ensures TripsOnly(now, rows, newServers)
  {
  }

  lemma SweptNothing(now: Time, s: Id, keys: map<Id, Key>, boxes: Boxes)
    ensures RowsReconciled(now, keys, keys, s) && LimitsOnly(boxes, boxes, s)
  {
  }

  /** One sweep may leave a row as it was or, on a server just tripped, brought up to date and at zero. */
  predicate RowSwept(now: Time, servers0: map<Id, Server>, servers: map<Id, Server>, before: Key, after: Key,
                     boxes: Boxes, unpushed: set<Id>, lost: set<Place>)
  {
    var s := before.serverID;
    || (after == before && !JustTripped(servers0, servers, s))
    || (&& JustTripped(servers0, servers, s) && (after == before || after == Reconciled(now, before))
        && (s !in unpushed && PlaceOf(before) !in lost ==> Settled(now, after, boxes, true)))
  }

  predicate JustTripped(servers0: map<Id, Server>, servers: map<Id, Server>, s: Id) {
    s in servers0 && s in servers && servers[s] != servers0[s]
  }

  /** ... and a box as it was or, on a server just tripped, with other limits. */
  predicate BoxSwept(servers0: map<Id, Server>, servers: map<Id, Server>, boxes0: Boxes, boxes: Boxes, s: Id) {
    s in boxes0 ==>
      && s in boxes && boxes[s].Keys == boxes0[s].Keys
      && (JustTripped(servers0, servers, s) || boxes[s] == boxes0[s])
  }

  /** One sweep over the whole fleet: only servers that trip, their rows and their boxes are touched. */
  ghost predicate FleetSwept(now: Time, servers0: map<Id, Server>, servers: map<Id, Server>,
                             keys0: map<Id, Key>, keys: map<Id, Key>, boxes0: Boxes, boxes: Boxes,
                             unpushed: set<Id>, lost: set<Place>)
  {
    && TripsOnly(now, servers0, servers) && keys.Keys == keys0.Keys && boxes.Keys == boxes0.Keys
    && (forall k {:trigger RowSwept(now, servers0, servers, keys0[k], keys[k], boxes, unpushed, lost)} | k in keys0 ::
          RowSwept(now, servers0, servers, keys0[k], keys[k], boxes, unpushed, lost))
    && (forall s {:trigger BoxSwept(servers0, servers, boxes0, boxes, s)} ::
          BoxSwept(servers0, servers, boxes0, boxes, s))
  }

  lemma FleetSweepStart(now: Time, servers: map<Id, Server>, keys: map<Id, Key>, boxes: Boxes)
    ensures FleetSwept(now, servers, servers, keys, keys, boxes, boxes, {}, {})
  {
    assert forall s <- servers :: TripStep(now, servers[s], servers[s]);
  }

  /** How one server's turn in the sweep may leave it. */
  ghost predicate ServerSwept(now: Time, s: Id, before: Server, after: Server, keys: map<Id, Key>,
                              newKeys: map<Id, Key>, boxes: Boxes, newBoxes: Boxes, pushed: bool, failed: set<Place>)
  {
    && TripStep(now, before, after)
    && RowsReconciled(now, keys, newKeys, s) && LimitsOnly(boxes, newBoxes, s)
    && (after == before ==> newKeys == keys && newBoxes == boxes)
    && (after != before && pushed ==> AllSettled(now, s, failed, newKeys, newBoxes, true))
    && (after != before ==> Leads(Passing, now, SiteOf(s, true, keys, boxes), SiteOf(s, true, newKeys, newBoxes)))
  }

  lemma FleetSweepStep(now: Time, s: Id, servers0: map<Id, Server>, servers: map<Id, Server>,
                       newServers: map<Id, Server>, keys0: map<Id, Key>, keys: map<Id, Key>, newKeys: map<Id, Key>,
                       boxes0: Boxes, boxes: Boxes, newBoxes: Boxes,
                       unpushed: set<Id>, lost: set<Place>, pushed: bool, failed: set<Place>)
    requires FleetSwept(now, servers0, servers, keys0, keys, boxes0, boxes, unpushed, lost)
    requires s in servers0 && s in servers && servers[s] == servers0[s]
    requires s in newServers && newServers == servers[s := newServers[s]]
    requires ServerSwept(now, s, servers[s], newServers[s], keys, newKeys, boxes, newBoxes, pushed, failed)
    ensures FleetSwept(now, servers0, newServers, keys0, newKeys, boxes0, newBoxes,
                       unpushed + (if pushed then {} else {s}), lost + failed)
  {
    TripsOnlyStep(now, s, servers0, servers, newServers);
    var nowUnpushed := unpushed + if pushed then {} else {s};
    forall k | k in keys0
      ensures RowSwept(now, servers0, newServers, keys0[k], newKeys[k], newBoxes, nowUnpushed, lost + failed)
    {
      assert RowSwept(now, servers0, servers, keys0[k], keys[k], boxes, unpushed, lost);
      assert RowStep(now, keys[k], newKeys[k], s);
      if keys0[k].serverID == s && newServers[s] != servers[s] && pushed && PlaceOf(keys0[k]) !in failed {
        assert Settled(now, newKeys[k], newBoxes, true);
      }
    }
    forall t ensures BoxSwept(servers0, newServers, boxes0, newBoxes, t) {
      assert BoxSwept(servers0, servers, boxes0, boxes, t);
    }
  }

  /** Pushing all keys of one server again, after its switch may have moved, keeps the fleet in step. */
  lemma RepushKeepsConverged(now: Time, s: Id, servers: map<Id, Server>, row: Server, keys: map<Id, Key>,
                             newKeys: map<Id, Key>, boxes: Boxes, newBoxes: Boxes, unreached: set<Id>, lost: set<Place>,
                             pushed: bool, failed: set<Place>)
    requires ConvergedBut(now, servers, keys, boxes, unreached, lost)
    requires s in servers && (Live(row) ==> Live(servers[s]))
    requires RowsReconciled(now, keys, newKeys, s) && LimitsOnly(boxes, newBoxes, s)
    requires pushed ==> AllSettled(now, s, failed, newKeys, newBoxes, SwitchedOff(row))
    ensures ConvergedBut(now, servers[s := row], newKeys, newBoxes, unreached + (if pushed then {} else {s}),
                         lost + failed)
  {
    var after, nowUnreached := servers[s := row], unreached + if pushed then {} else {s};
    forall t | t in after && Live(after[t]) && t !in nowUnreached
      ensures AllAdopted(now, t, lost + failed, newKeys, newBoxes, SwitchedOff(after[t]))
    {
      assert AllAdopted(now, t, lost, keys, boxes, SwitchedOff(servers[t]));
      if t == s {
        AdoptedAfterPush(now, s, lost, failed, keys, newKeys, boxes, newBoxes, SwitchedOff(servers[s]),
                         SwitchedOff(row));
      } else {
        forall k | k in keys && keys[k].serverID == t ensures k in newKeys && newKeys[k] == keys[k] {
          assert RowStep(now, keys[k], newKeys[k], s);
        }
        AdoptedElsewhere(now, s, t, lost, lost + failed, keys, newKeys, boxes, newBoxes, SwitchedOff(servers[t]));
      }
    }
  }

  lemma AdoptedAfterPush(now: Time, s: Id, lost: set<Place>, failed: set<Place>, keys: map<Id, Key>,
                         newKeys: map<Id, Key>, boxes: Boxes, newBoxes: Boxes, off: bool, newOff: bool)
    requires AllAdopted(now, s, lost, keys, boxes, off)
    requires RowsReconciled(now, keys, newKeys, s) && LimitsOnly(boxes, newBoxes, s)
    requires AllSettled(now, s, failed, newKeys, newBoxes, newOff)
    ensures AllAdopted(now, s, lost + failed, newKeys, newBoxes, newOff)
  {
    forall o | o in newBoxes[s] && (s, o) !in lost + failed ensures Adopted(now, s, o, newKeys, newBoxes, newOff) {
      assert Adopted(now, s, o, keys, boxes, off);
      var k :| k in keys && At(keys[k], s, o) && Settled(now, keys[k], boxes, off);
      assert RowStep(now, keys[k], newKeys[k], s);
      assert k in newKeys && At(newKeys[k], s, o) && Settled(now, newKeys[k], newBoxes, newOff);
    }
  }

  /** Bringing caches up to date, however often, leaves the place and the desired limit of a key. */
  lemma SameTarget(now: Time, s: Id, key: Key, mid: Key, after: Key, boxes: Boxes, newBoxes: Boxes)
    requires RowStep(now, key, mid, s) && RowStep(now, mid, after, s)
    requires Settled(now, key, boxes, false)
    ensures PlaceOf(after) == PlaceOf(key)
    ensures Settled(now, after, newBoxes, false) && Has(boxes, key.serverID, key.outlineID)
            && Has(newBoxes, key.serverID, key.outlineID) ==>
      newBoxes[key.serverID][key.outlineID].limit == boxes[key.serverID][key.outlineID].limit
  {
  }

  /**
    A trip and a re-enable at one instant: whatever became of the pushes to zero, every key that was in step before
    and was reached by the pushes afterwards is exactly as it was, and if that is all of them, so is every box.
  */
  lemma TripThenReenable(now: Time, s: Id, before: Server, tripped: Server, keys0: map<Id, Key>, keys1: map<Id, Key>,
                         keys2: map<Id, Key>, boxes0: Boxes, boxes1: Boxes, boxes2: Boxes, pushed: bool,
                         missed: set<Place>, lost: set<Place>, failed: set<Place>)
    requires AllAdopted(now, s, lost, keys0, boxes0, false)
    requires ServerSwept(now, s, before, tripped, keys0, keys1, boxes0, boxes1, pushed, missed)
    requires RowsReconciled(now, keys1, keys2, s) && LimitsOnly(boxes1, boxes2, s)
    requires AllSettled(now, s, failed, keys2, boxes2, false)
    ensures s in boxes2 && boxes2[s].Keys == boxes0[s].Keys
    ensures forall o | o in boxes0[s] && (s, o) !in lost + failed :: boxes2[s][o] == boxes0[s][o]
    ensures lost + failed == {} ==> boxes2 == boxes0
  {
    forall o | o in boxes0[s] && (s, o) !in lost + failed ensures boxes2[s][o] == boxes0[s][o] {
      assert Adopted(now, s, o, keys0, boxes0, false);
      var k :| k in keys0 && At(keys0[k], s, o) && Settled(now, keys0[k], boxes0, false);
      assert RowStep(now, keys0[k], keys1[k], s) && RowStep(now, keys1[k], keys2[k], s);
      assert LimitAside(boxes0[s][o], boxes1[s][o]) && LimitAside(boxes1[s][o], boxes2[s][o]);
      SameTarget(now, s, keys0[k], keys1[k], keys2[k], boxes0, boxes2);
    }
    if lost + failed == {} { assert boxes2[s] == boxes0[s]; }
  }

  /** A sweep in which some calls failed puts no more out of step than those calls were about. */
  lemma SweepKeepsConverged(now: Time, servers0: map<Id, Server>, servers: map<Id, Server>,
                            keys0: map<Id, Key>, keys: map<Id, Key>, boxes0: Boxes, boxes: Boxes,
                            unreached: set<Id>, lost: set<Place>, unpushed: set<Id>, failed: set<Place>)
    requires ConvergedBut(now, servers0, keys0, boxes0, unreached, lost)
    requires FleetSwept(now, servers0, servers, keys0, keys, boxes0, boxes, unpushed, failed)
    ensures ConvergedBut(now, servers, keys, boxes, unreached + unpushed, lost + failed)
  {
    forall s | s in servers && Live(servers[s]) && s !in unreached + unpushed
      ensures AllAdopted(now, s, lost + failed, keys, boxes, SwitchedOff(servers[s]))
    {
      assert TripStep(now, servers0[s], servers[s]);
      var off, newOff := SwitchedOff(servers0[s]), SwitchedOff(servers[s]);
      assert AllAdopted(now, s, lost, keys0, boxes0, SwitchedOff(servers0[s]));
      assert BoxSwept(servers0, servers, boxes0, boxes, s);
      forall o | o in boxes[s] && (s, o) !in lost + failed ensures Adopted(now, s, o, keys, boxes, newOff) {
        assert Adopted(now, s, o, keys0, boxes0, off);
        var k :| k in keys0 && At(keys0[k], s, o) && Settled(now, keys0[k], boxes0, off);
        assert RowSwept(now, servers0, servers, keys0[k], keys[k], boxes, unpushed, failed);
        assert k in keys && At(keys[k], s, o) && Settled(now, keys[k], boxes, newOff);
      }
    }
  }

  // ---------------------------------------------------------------- renewals

  /** The allowance an automatic renewal grants: the server's own default, or the plan floor without one. */
  function AutoGB(fl: Rounding, servers: map<Id, Server>, s: Id): real {
    if s in servers && Live(servers[s]) && servers[s].defaultLimitBytes.Some?
    then GBOfBytes(fl, servers[s].defaultLimitBytes.value) else MIN_PLAN_GB
  }

  /** How far a renewal got. */
  datatype RenewOutcome = Done | PushFailed | Failed

  /** An entry for a renewal as asked for: what the key now has, and its own price or else its server's default. */
  predicate LoggedAs(e: RenewalLog, id: Id, row: Key, server: Server, addGB: real, addDays: int, paid: bool) {
    && e.keyID == id && e.addedGB == addGB && e.addedDays == addDays && e.paid == paid
    && e.newLimitBytes == row.limitBytes && e.newEndDate == row.endDate
    && e.amountMmk == if row.priceMmk.Some? then row.priceMmk else server.defaultPriceMmk
  }

  /** Renewals are only ever appended, at most one of them. */
  predicate OneMoreEntry(renewals: seq<RenewalLog>, newRenewals: seq<RenewalLog>) {
    |newRenewals| == |renewals| + 1 && newRenewals[..|renewals|] == renewals
  }

  /** A row some way through a renewal: limit and end date come first, then the price, then the caches. */
  predicate PartlyRenewed(now: Time, key: Key, row: Key, servers: map<Id, Server>, grant: Option<int>, addDays: int) {
    var (limit, end) := RenewalTarget(now, key, grant, addDays);
    var extended := key.(limitBytes := limit, endDate := end);
    || row == key
    || row == extended
    || WhollyRenewed(now, key, row, servers, grant, addDays)
  }

  predicate WhollyRenewed(now: Time, key: Key, row: Key, servers: map<Id, Server>, grant: Option<int>, addDays: int) {
    && key.serverID in servers && Live(servers[key.serverID])
    && var renewed := Renewed(now, key, servers[key.serverID], grant, addDays);
       row == renewed || row == Reconciled(now, renewed)
  }

  /** What that comes to, column by column. */
  lemma RenewalMeans(fl: Rounding, now: Time, key: Key, row: Key, servers: map<Id, Server>, addGB: real, addDays: int)
    requires WhollyRenewed(now, key, row, servers, Grant(fl, addGB), addDays)
    ensures ToppedUp(fl, now, key, row, addGB, addDays)
    ensures PriceCaughtUp(key.priceMmk, row.priceMmk, servers[key.serverID].defaultPriceMmk)
    ensures row == key.(limitBytes := row.limitBytes, endDate := row.endDate, priceMmk := row.priceMmk,
                        enabled := row.enabled, status := row.status)
  {
  }

  /** Wherever a renewal stops, the row is a renewed one as far as it got, caches aside. */
  lemma StoppedRenewal(now: Time, key: Key, row: Key, servers: map<Id, Server>, grant: Option<int>, addDays: int,
                       server: Server)
    returns (far: Extent)
    requires PartlyRenewed(now, key, row, servers, grant, addDays)
    requires key.serverID in servers && Live(servers[key.serverID]) ==> server == servers[key.serverID]
    ensures row == RenewedAsFar(now, key, server, grant, addDays, far).(enabled := row.enabled, status := row.status)
  {
    var (limit, end) := RenewalTarget(now, key, grant, addDays);
    far := if row == key then Unsaved
           else if row == key.(limitBytes := limit, endDate := end) then Extended
           else Repriced;
  }

  /** What a renewal does to the key rows, and, when every call got through, all the way to the new target. */
  ghost predicate RenewSaved(now: Time, id: Id, keys: map<Id, Key>, newKeys: map<Id, Key>,
                             servers: map<Id, Server>, grant: Option<int>, addDays: int, newFaults: int)
  {
    && newFaults >= 0
    && (if id in keys then
          && id in newKeys && newKeys == keys[id := newKeys[id]]
          && PartlyRenewed(now, keys[id], newKeys[id], servers, grant, addDays)
          && (newFaults == 0 ==>
                (newKeys[id].limitBytes, newKeys[id].endDate) == RenewalTarget(now, keys[id], grant, addDays))
        else newKeys == keys)
  }

  /** A renewal is logged at most once, always when it went through, and for what the key was then worth. */
  ghost predicate RenewLogged(renewals: seq<RenewalLog>, newRenewals: seq<RenewalLog>, id: Id, keys: map<Id, Key>,
                              servers: map<Id, Server>, addGB: real, addDays: int, paid: bool, r: RenewOutcome)
  {
    || (r.Failed? && newRenewals == renewals)
    || (id in keys && keys[id].serverID in servers && Live(servers[keys[id].serverID])
        && OneMoreEntry(renewals, newRenewals)
        && LoggedAs(newRenewals[|renewals|], id, keys[id], servers[keys[id].serverID], addGB, addDays, paid))
  }

  /** A renewal pushes at most the key's own limit; with every call through, a live server's key ends settled. */
  ghost predicate RenewPushed(now: Time, id: Id, keys: map<Id, Key>, servers: map<Id, Server>,
                              boxes: Boxes, newBoxes: Boxes, newFaults: int)
  {
    && newFaults >= 0
    && (if id in keys then
          var s, o := keys[id].serverID, keys[id].outlineID;
          && (newBoxes == boxes || exists limit :: Has(boxes, s, o) && newBoxes == WithLimit(boxes, s, o, limit))
          && (newFaults == 0 && s in servers && Live(servers[s]) ==>
                Settled(now, keys[id], newBoxes, SwitchedOff(servers[s])))
        else newBoxes == boxes)
  }

  /** ... where a server whose default could not be looked up counts as one without, for the rest of the sweep. */
  function GrantGB(fl: Rounding, servers: map<Id, Server>, fallback: set<Id>, s: Id): real {
    if s in fallback then MIN_PLAN_GB else AutoGB(fl, servers, s)
  }

  ghost predicate MemoRight(fl: Rounding, memo: map<Id, real>, servers: map<Id, Server>, fallback: set<Id>) {
    fallback <= memo.Keys && forall s <- memo :: memo[s] == GrantGB(fl, servers, fallback, s)
  }

  /** Opted in and running low. */
  predicate AutoDue(now: Time, key: Key) { key.autoRenew && RunningLow(now, key) }

  /** Limit and end date are those of the grant, and nothing else has changed. */
  predicate ExtendedBy(now: Time, before: Key, after: Key, grant: Option<int>, addDays: int) {
    var (limit, end) := RenewalTarget(now, before, grant, addDays);
    after == before.(limitBytes := limit, endDate := end)
  }

  /** Renewed by one automatic grant of so many GB: as far as limit and end date, or all the way. */
  predicate RenewedBy(fl: Rounding, now: Time, servers: map<Id, Server>, gb: real, before: Key, after: Key) {
    || ExtendedBy(now, before, after, Grant(fl, gb), MIN_PLAN_DAYS)
    || WhollyRenewed(now, before, after, servers, Grant(fl, gb), MIN_PLAN_DAYS)
  }

  /** A sweep renews exactly the opted-in keys running low, by exactly one automatic grant. */
  predicate AutoRenewedRow(fl: Rounding, now: Time, servers: map<Id, Server>, fallback: set<Id>, before: Key,
                           after: Key) {
    if AutoDue(now, before)
    then RenewedBy(fl, now, servers, GrantGB(fl, servers, fallback, before.serverID), before, after)
    else after == before
  }

  /** Granted more than 3 GB, a key is not running low when the sweep has passed. */
  lemma NotLowAfterSweep(fl: Rounding, now: Time, servers: map<Id, Server>, fallback: set<Id>, before: Key, after: Key)
    requires AutoRenewedRow(fl, now, servers, fallback, before, after)
    requires GrantsEnough(fl, servers, fallback, before.serverID)
    ensures !AutoDue(now, after)
  {
  }

  predicate GrantsEnough(fl: Rounding, servers: map<Id, Server>, fallback: set<Id>, s: Id) {
    var grant := Grant(fl, GrantGB(fl, servers, fallback, s));
    grant.Some? && grant.value > 3_000_000_000
  }

  /** A server whose keys are granted 500 GB grants 200 GB once its lookup has failed. */
  lemma FallbackGrantsLess(fl: Rounding) returns (servers: map<Id, Server>, s: Id, memo: map<Id, real>)
    requires RoundsToNearest(fl)
    ensures s in servers && Live(servers[s]) && servers[s].defaultLimitBytes == Some(500_000_000_000)
    ensures MemoRight(fl, memo, servers, {s}) && s in memo
    ensures memo[s] == 200.0 && AutoGB(fl, servers, s) > 499.0
  {
    s := 3;
    servers := map[3 := Server("s", "url", "cert", None, Some(500_000_000_000), None, None, None, None, None, false)];
    memo := map[3 := 200.0];
    assert Within(500.0, fl(500.0));
  }

  /** The box has the key as it had it, or still does not have it. */
  predicate SameOnBox(boxes0: Boxes, boxes: Boxes, s: Id, o: string) {
    && (Has(boxes0, s, o) <==> Has(boxes, s, o))
    && (Has(boxes, s, o) ==> boxes[s][o] == boxes0[s][o])
  }

  /** The same boxes with the same keys on them. */
  ghost predicate SameKeySets(boxes0: Boxes, boxes: Boxes) {
    boxes.Keys == boxes0.Keys && forall s <- boxes0 :: boxes[s].Keys == boxes0[s].Keys
  }

  /**
    One key so far in the sweep. Before its turn, or when it is not due, nothing about it has changed. Then
    it has been renewed and pushed; only if it is among the `lost` may either not have happened.
  */
  predicate AutoTurn(fl: Rounding, now: Time, servers: map<Id, Server>, memo: map<Id, real>, lost: set<Place>,
                     done: set<Id>, k: Id, before: Key, after: Key, boxes0: Boxes, boxes: Boxes)
  {
    var s := before.serverID;
    if k in done && AutoDue(now, before) then
      && s in memo
      && (RenewedBy(fl, now, servers, memo[s], before, after) || (after == before && PlaceOf(before) in lost))
      && (PlaceOf(before) !in lost && s in servers && Live(servers[s]) ==>
            && WhollyRenewed(now, before, after, servers, Grant(fl, memo[s]), MIN_PLAN_DAYS)
            && Settled(now, after, boxes, SwitchedOff(servers[s])))
    else after == before && SameOnBox(boxes0, boxes, s, before.outlineID)
  }

  ghost predicate AutoSwept(fl: Rounding, now: Time, servers: map<Id, Server>, memo: map<Id, real>, lost: set<Place>,
                            done: set<Id>, keys0: map<Id, Key>, keys: map<Id, Key>, boxes0: Boxes, boxes: Boxes)
  {
    && keys.Keys == keys0.Keys && SameKeySets(boxes0, boxes)
    && forall k {:trigger AutoTurn(fl, now, servers, memo, lost, done, k, keys0[k], keys[k], boxes0, boxes)}
         | k in keys0 ::
         AutoTurn(fl, now, servers, memo, lost, done, k, keys0[k], keys[k], boxes0, boxes)
  }

  lemma AutoSweepStart(fl: Rounding, now: Time, servers: map<Id, Server>, keys: map<Id, Key>, boxes: Boxes)
    ensures AutoSwept(fl, now, servers, map[], {}, {}, keys, keys, boxes, boxes)
  {
  }

  /** How one key's turn may leave it; `stuck` when a call of its renewal failed. */
  ghost predicate KeyRenewed(fl: Rounding, now: Time, servers: map<Id, Server>, memo: map<Id, real>, stuck: bool,
                             before: Key, after: Key, boxes: Boxes, newBoxes: Boxes)
  {
    var s, o := before.serverID, before.outlineID;
    && (newBoxes == boxes || exists limit :: Has(boxes, s, o) && newBoxes == WithLimit(boxes, s, o, limit))
    && (if AutoDue(now, before) then
          && s in memo
          && (RenewedBy(fl, now, servers, memo[s], before, after) || (after == before && stuck))
          && (!stuck && s in servers && Live(servers[s]) ==>
                && WhollyRenewed(now, before, after, servers, Grant(fl, memo[s]), MIN_PLAN_DAYS)
                && Settled(now, after, newBoxes, SwitchedOff(servers[s])))
        else after == before && newBoxes == boxes)
  }

  function Among(stuck: bool, key: Key): set<Place> { if stuck then {PlaceOf(key)} else {} }

  /** What a renewal does is such a turn. */
  lemma RenewalIsTurn(fl: Rounding, now: Time, servers: map<Id, Server>, memo: map<Id, real>, id: Id,
                      keys: map<Id, Key>, newKeys: map<Id, Key>, boxes: Boxes, newBoxes: Boxes, newFaults: int)
    requires id in keys && AutoDue(now, keys[id]) && keys[id].serverID in memo
    requires RenewSaved(now, id, keys, newKeys, servers, Grant(fl, memo[keys[id].serverID]), MIN_PLAN_DAYS, newFaults)
    requires RenewPushed(now, id, newKeys, servers, boxes, newBoxes, newFaults)
    requires var s := keys[id].serverID; newFaults == 0 && s in servers && Live(servers[s]) ==>
      id in newKeys && WhollyRenewed(now, keys[id], newKeys[id], servers, Grant(fl, memo[s]), MIN_PLAN_DAYS)
    ensures id in newKeys && newKeys == keys[id := newKeys[id]]
    ensures KeyRenewed(fl, now, servers, memo, newFaults > 0, keys[id], newKeys[id], boxes, newBoxes)
  {
  }

  lemma AutoSweepStep(fl: Rounding, now: Time, db: DB, memo: map<Id, real>, newMemo: map<Id, real>,
                      lost: set<Place>, done: set<Id>, id: Id, stuck: bool, keys0: map<Id, Key>,
                      newKeys: map<Id, Key>, boxes0: Boxes, boxes: Boxes, newBoxes: Boxes)
    requires Sound(db) && AutoSwept(fl, now, db.servers, memo, lost, done, keys0, db.keys, boxes0, boxes)
    requires memo.Keys <= newMemo.Keys && forall s <- memo :: newMemo[s] == memo[s]
    requires id in db.keys && id !in done && id in newKeys && newKeys == db.keys[id := newKeys[id]]
    requires KeyRenewed(fl, now, db.servers, newMemo, stuck, db.keys[id], newKeys[id], boxes, newBoxes)
    ensures AutoSwept(fl, now, db.servers, newMemo, lost + Among(stuck, db.keys[id]), done + {id}, keys0, newKeys,
                      boxes0, newBoxes)
  {
    assert AutoTurn(fl, now, db.servers, memo, lost, done, id, keys0[id], db.keys[id], boxes0, boxes);
    var nowLost := lost + Among(stuck, db.keys[id]);
    forall k | k in keys0
      ensures AutoTurn(fl, now, db.servers, newMemo, nowLost, done + {id}, k, keys0[k], newKeys[k], boxes0, newBoxes)
    {
      assert AutoTurn(fl, now, db.servers, memo, lost, done, k, keys0[k], db.keys[k], boxes0, boxes);
      if k != id {
        TurnKept(fl, now, db, memo, newMemo, lost, nowLost, done, id, k, keys0[k], boxes0, boxes, newBoxes);
      }
    }
  }

  lemma TurnKept(fl: Rounding, now: Time, db: DB, memo: map<Id, real>, newMemo: map<Id, real>, lost: set<Place>,
                 nowLost: set<Place>, done: set<Id>, id: Id, k: Id, before: Key, boxes0: Boxes, boxes: Boxes,
                 newBoxes: Boxes)
    requires Sound(db) && k in db.keys && id in db.keys && k != id
    requires AutoTurn(fl, now, db.servers, memo, lost, done, k, before, db.keys[k], boxes0, boxes)
    requires memo.Keys <= newMemo.Keys && (forall s <- memo :: newMemo[s] == memo[s]) && lost <= nowLost
    requires var s, o := db.keys[id].serverID, db.keys[id].outlineID;
      newBoxes == boxes || exists limit :: Has(boxes, s, o) && newBoxes == WithLimit(boxes, s, o, limit)
    ensures AutoTurn(fl, now, db.servers, newMemo, nowLost, done + {id}, k, before, db.keys[k], boxes0, newBoxes)
  {
    assert !SameOutlineKey(db.keys[k], db.keys[id]);
  }

  lemma AutoSweepEnd(fl: Rounding, now: Time, servers: map<Id, Server>, memo: map<Id, real>, fallback: set<Id>,
                     lost: set<Place>, done: set<Id>, keys0: map<Id, Key>, keys: map<Id, Key>, boxes0: Boxes,
                      boxes: Boxes)
    requires AutoSwept(fl, now, servers, memo, lost, done, keys0, keys, boxes0, boxes)
    requires MemoRight(fl, memo, servers, fallback)
    requires done == set k | k in keys0 && keys0[k].autoRenew
    ensures FleetRenewed(fl, now, servers, fallback, lost, keys0, keys, boxes0, boxes)
  {
    forall k | k in keys0
      ensures RowRenewed(fl, now, servers, fallback, lost, keys0[k], keys[k], boxes0, boxes)
    {
      assert AutoTurn(fl, now, servers, memo, lost, done, k, keys0[k], keys[k], boxes0, boxes);
    }
  }

  /** What a sweep with failures leaves of one key: see AutoTurn. */
  predicate RowRenewed(fl: Rounding, now: Time, servers: map<Id, Server>, fallback: set<Id>, lost: set<Place>,
                       before: Key, after: Key, boxes0: Boxes, boxes: Boxes)
  {
    var s := before.serverID;
    && (AutoRenewedRow(fl, now, servers, fallback, before, after) || (after == before && PlaceOf(before) in lost))
    && (if AutoDue(now, before)
        then PlaceOf(before) !in lost && s in servers && Live(servers[s]) ==>
               && WhollyRenewed(now, before, after, servers, Grant(fl, GrantGB(fl, servers, fallback, s)),
                                MIN_PLAN_DAYS)
               && Settled(now, after, boxes, SwitchedOff(servers[s]))
        else SameOnBox(boxes0, boxes, s, before.outlineID))
  }

  ghost predicate FleetRenewed(fl: Rounding, now: Time, servers: map<Id, Server>, fallback: set<Id>, lost: set<Place>,
                               keys0: map<Id, Key>, keys: map<Id, Key>, boxes0: Boxes, boxes: Boxes)
  {
    && keys.Keys == keys0.Keys && SameKeySets(boxes0, boxes)
    && forall k {:trigger RowRenewed(fl, now, servers, fallback, lost, keys0[k], keys[k], boxes0, boxes)}
         | k in keys0 ::
         RowRenewed(fl, now, servers, fallback, lost, keys0[k], keys[k], boxes0, boxes)
  }

  lemma StillOptedIn(fl: Rounding, now: Time, servers: map<Id, Server>, fallback: set<Id>, lost: set<Place>,
                     keys0: map<Id, Key>, keys: map<Id, Key>, boxes0: Boxes, boxes: Boxes)
    requires FleetRenewed(fl, now, servers, fallback, lost, keys0, keys, boxes0, boxes)
    ensures forall k <- keys0 :: k in keys && keys[k].autoRenew == keys0[k].autoRenew
  {
    forall k <- keys0 ensures k in keys && keys[k].autoRenew == keys0[k].autoRenew {
      assert RowRenewed(fl, now, servers, fallback, lost, keys0[k], keys[k], boxes0, boxes);
    }
  }

  // ---------------------------------------------------------------- what a sweep of renewals logs

  /** An entry for a key due, unpaid, for what the key was granted and is then worth. */
  predicate AutoEntry(now: Time, servers: map<Id, Server>, memo: map<Id, real>, done: set<Id>, keys0: map<Id, Key>,
                      keys: map<Id, Key>, e: RenewalLog)
  {
    && e.keyID in done && e.keyID in keys0 && AutoDue(now, keys0[e.keyID]) && e.keyID in keys
    && var row := keys[e.keyID];
       && row.serverID in memo && row.serverID in servers && Live(servers[row.serverID])
       && LoggedAs(e, e.keyID, row, servers[row.serverID], memo[row.serverID], 30, false)
  }

  ghost predicate LoggedSince(renewals: seq<RenewalLog>, n: nat, k: Id) {
    exists i :: n <= i < |renewals| && renewals[i].keyID == k
  }

  /** No key is logged twice from position n on. */
  predicate OncePerKey(renewals: seq<RenewalLog>, n: nat) {
    forall i, j | n <= i < j < |renewals| :: renewals[i].keyID != renewals[j].keyID
  }

  /** The log as far as the sweep has got: an entry at most for every key due, and one if nothing went wrong. */
  ghost predicate AutoLogged(now: Time, servers: map<Id, Server>, memo: map<Id, real>, lost: set<Place>, done: set<Id>,
                             keys0: map<Id, Key>, keys: map<Id, Key>, renewals0: seq<RenewalLog>,
                             renewals: seq<RenewalLog>)
  {
    && renewals0 <= renewals && OncePerKey(renewals, |renewals0|)
    && (forall i {:trigger renewals[i]} | |renewals0| <= i < |renewals| ::
          AutoEntry(now, servers, memo, done, keys0, keys, renewals[i]))
    && (forall k {:trigger LoggedSince(renewals, |renewals0|, k)} | k in done && k in keys0 ::
          MustLog(now, servers, lost, keys0[k]) ==> LoggedSince(renewals, |renewals0|, k))
  }

  predicate MustLog(now: Time, servers: map<Id, Server>, lost: set<Place>, key: Key) {
    AutoDue(now, key) && key.serverID in servers && Live(servers[key.serverID]) && PlaceOf(key) !in lost
  }

  /** One key's turn adds at most its own entry, and exactly that if it was due and nothing went wrong. */
  predicate TurnLogged(now: Time, servers: map<Id, Server>, memo: map<Id, real>, id: Id, before: Key, after: Key,
                       stuck: bool, renewals: seq<RenewalLog>, newRenewals: seq<RenewalLog>)
  {
    var s := after.serverID;
    || (newRenewals == renewals && (stuck || !AutoDue(now, before) || s !in servers || !Live(servers[s])))
    || (&& AutoDue(now, before) && s in memo && s in servers && Live(servers[s])
        && OneMoreEntry(renewals, newRenewals)
        && LoggedAs(newRenewals[|renewals|], id, after, servers[s], memo[s], 30, false))
  }

  lemma AutoLogStart(now: Time, servers: map<Id, Server>, keys: map<Id, Key>, renewals: seq<RenewalLog>)
    ensures AutoLogged(now, servers, map[], {}, {}, keys, keys, renewals, renewals)
  {
  }

  lemma AutoLogStep(now: Time, servers: map<Id, Server>, memo: map<Id, real>, newMemo: map<Id, real>,
                    lost: set<Place>, done: set<Id>, id: Id, stuck: bool, keys0: map<Id, Key>, keys: map<Id, Key>,
                    newKeys: map<Id, Key>, renewals0: seq<RenewalLog>, renewals: seq<RenewalLog>,
                    newRenewals: seq<RenewalLog>)
    requires AutoLogged(now, servers, memo, lost, done, keys0, keys, renewals0, renewals)
    requires memo.Keys <= newMemo.Keys && forall s <- memo :: newMemo[s] == memo[s]
    requires id in keys0 && id in keys && keys[id] == keys0[id] && id !in done
    requires id in newKeys && newKeys == keys[id := newKeys[id]] && newKeys[id].serverID == keys[id].serverID
    requires TurnLogged(now, servers, newMemo, id, keys0[id], newKeys[id], stuck, renewals, newRenewals)
    ensures AutoLogged(now, servers, newMemo, lost + Among(stuck, keys0[id]), done + {id}, keys0, newKeys, renewals0,
                       newRenewals)
  {
    var n, nowLost := |renewals0|, lost + Among(stuck, keys0[id]);
    forall i | n <= i < |newRenewals|
      ensures AutoEntry(now, servers, newMemo, done + {id}, keys0, newKeys, newRenewals[i])
    {
      if i < |renewals| { assert newRenewals[i] == renewals[i]; }
    }
    forall k | k in done + {id} && k in keys0 && MustLog(now, servers, nowLost, keys0[k])
      ensures LoggedSince(newRenewals, n, k)
    {
      if k == id {
        assert newRenewals[|renewals|].keyID == id;
      } else {
        assert LoggedSince(renewals, n, k);
        var i :| n <= i < |renewals| && renewals[i].keyID == k;
        assert newRenewals[i].keyID == k;
      }
    }
    forall i, j | n <= i < j < |newRenewals| ensures newRenewals[i].keyID != newRenewals[j].keyID {
      assert newRenewals[i] == renewals[i];
      if j < |renewals| { assert newRenewals[j] == renewals[j]; }
    }
  }

  /** What the whole sweep logs: each key at most once, for a grant as in `GrantGB`; see AutoLogged. */
  ghost predicate SweepLogged(fl: Rounding, now: Time, servers: map<Id, Server>, fallback: set<Id>, lost: set<Place>,
                              keys0: map<Id, Key>, keys: map<Id, Key>, renewals0: seq<RenewalLog>,
                              renewals: seq<RenewalLog>)
  {
    && renewals0 <= renewals && OncePerKey(renewals, |renewals0|)
    && (forall i {:trigger renewals[i]} | |renewals0| <= i < |renewals| ::
          SweepEntry(fl, now, servers, fallback, keys0, keys, renewals[i]))
    && (forall k {:trigger LoggedSince(renewals, |renewals0|, k)} | k in keys0 ::
          MustLog(now, servers, lost, keys0[k]) ==> LoggedSince(renewals, |renewals0|, k))
  }

  predicate SweepEntry(fl: Rounding, now: Time, servers: map<Id, Server>, fallback: set<Id>, keys0: map<Id, Key>,
                       keys: map<Id, Key>, e: RenewalLog)
  {
    && e.keyID in keys0 && AutoDue(now, keys0[e.keyID]) && EntryInForce(fl, servers, fallback, keys, e)
  }

  /** An unpaid entry for the limit, end date and worth its key still has. */
  predicate EntryInForce(fl: Rounding, servers: map<Id, Server>, fallback: set<Id>, keys: map<Id, Key>, e: RenewalLog)
  {
    && e.keyID in keys
    && var row := keys[e.keyID];
       var s := row.serverID;
       && row.autoRenew && s in servers && Live(servers[s])
       && LoggedAs(e, e.keyID, row, servers[s], GrantGB(fl, servers, fallback, s), 30, false)
  }

  lemma AutoLogEnd(fl: Rounding, now: Time, servers: map<Id, Server>, memo: map<Id, real>, fallback: set<Id>,
                   lost: set<Place>, done: set<Id>, keys0: map<Id, Key>, keys: map<Id, Key>,
                   renewals0: seq<RenewalLog>, renewals: seq<RenewalLog>)
    requires AutoLogged(now, servers, memo, lost, done, keys0, keys, renewals0, renewals)
    requires MemoRight(fl, memo, servers, fallback)
    requires done == set k | k in keys0 && keys0[k].autoRenew
    requires forall k <- keys0 :: k in keys && keys[k].autoRenew == keys0[k].autoRenew
    ensures SweepLogged(fl, now, servers, fallback, lost, keys0, keys, renewals0, renewals)
  {
    forall i | |renewals0| <= i < |renewals|
      ensures SweepEntry(fl, now, servers, fallback, keys0, keys, renewals[i])
    {
      assert AutoEntry(now, servers, memo, done, keys0, keys, renewals[i]);
    }
  }

  /** Renewals in which some calls failed put no more out of step than the keys those calls were about. */
  lemma RenewalsKeepConverged(fl: Rounding, now: Time, servers: map<Id, Server>, fallback: set<Id>,
                              unreached: set<Id>, lost: set<Place>, failed: set<Place>,
                              keys0: map<Id, Key>, keys: map<Id, Key>, boxes0: Boxes, boxes: Boxes)
    requires ConvergedBut(now, servers, keys0, boxes0, unreached, lost)
    requires FleetRenewed(fl, now, servers, fallback, failed, keys0, keys, boxes0, boxes)
    ensures ConvergedBut(now, servers, keys, boxes, unreached, lost + failed)
  {
    forall s | s in servers && Live(servers[s]) && s !in unreached
      ensures AllAdopted(now, s, lost + failed, keys, boxes, SwitchedOff(servers[s]))
    {
      var off := SwitchedOff(servers[s]);
      assert AllAdopted(now, s, lost, keys0, boxes0, off);
      forall o | o in boxes[s] && (s, o) !in lost + failed ensures Adopted(now, s, o, keys, boxes, off) {
        assert Adopted(now, s, o, keys0, boxes0, off);
        var k :| k in keys0 && At(keys0[k], s, o) && Settled(now, keys0[k], boxes0, off);
        assert RowRenewed(fl, now, servers, fallback, failed, keys0[k], keys[k], boxes0, boxes);
        assert k in keys && At(keys[k], s, o) && Settled(now, keys[k], boxes, off);
      }
    }
  }

  /** A fleet in step stays in step but for the keys `lost`. */
  ghost predicate KeptInStep(now: Time, servers0: map<Id, Server>, servers: map<Id, Server>, keys0: map<Id, Key>,
                             keys: map<Id, Key>, boxes0: Boxes, boxes: Boxes, lost: set<Place>)
  {
    Converged(now, servers0, keys0, boxes0) ==> ConvergedBut(now, servers, keys, boxes, {}, lost)
  }

  /** A change to one row and its own limit puts nothing out of step but that key, and not even that if settled. */
  lemma RenewKeepsConverged(now: Time, id: Id, servers: map<Id, Server>, keys: map<Id, Key>, newKeys: map<Id, Key>,
                            boxes: Boxes, newBoxes: Boxes, missed: bool)
    requires id in keys && id in newKeys && newKeys == keys[id := newKeys[id]]
    requires SameOutlineKey(newKeys[id], keys[id])
    requires var s, o := keys[id].serverID, keys[id].outlineID;
      newBoxes == boxes || exists limit :: Has(boxes, s, o) && newBoxes == WithLimit(boxes, s, o, limit)
    requires var s := keys[id].serverID;
      !missed && s in servers && Live(servers[s]) ==> Settled(now, newKeys[id], newBoxes, SwitchedOff(servers[s]))
    ensures KeptInStep(now, servers, servers, keys, newKeys, boxes, newBoxes, Among(missed, keys[id]))
  {
    var s, p, lost := keys[id].serverID, keys[id].outlineID, Among(missed, keys[id]);
    if Converged(now, servers, keys, boxes) {
      forall t | t in servers && Live(servers[t])
        ensures AllAdopted(now, t, lost, newKeys, newBoxes, SwitchedOff(servers[t]))
      {
        var off := SwitchedOff(servers[t]);
        assert AllAdopted(now, t, {}, keys, boxes, SwitchedOff(servers[t]));
        forall o | o in newBoxes[t] && (t, o) !in lost ensures Adopted(now, t, o, newKeys, newBoxes, off) {
          assert Adopted(now, t, o, keys, boxes, off);
          var k :| k in keys && At(keys[k], t, o) && Settled(now, keys[k], boxes, off);
          if t == s && o == p {
            assert At(newKeys[id], t, o) && Settled(now, newKeys[id], newBoxes, off);
          } else {
            assert k in newKeys && At(newKeys[k], t, o) && Settled(now, newKeys[k], newBoxes, off);
          }
        }
      }
    }
  }

  /** What a renewal did was a run of acts, and left everything else in step. */
  lemma RenewedInStep(now: Time, id: Id, servers: map<Id, Server>, keys: map<Id, Key>, saved: Key,
                      newKeys: map<Id, Key>, boxes: Boxes, newBoxes: Boxes, missed: bool)
    requires id in keys && id in newKeys && newKeys == keys[id := newKeys[id]]
    requires saved == keys[id].(limitBytes := saved.limitBytes, endDate := saved.endDate, priceMmk := saved.priceMmk)
    requires PassedOver(now, OffAt(servers, saved.serverID), saved, newKeys[id], boxes, newBoxes)
    requires var s := keys[id].serverID;
      !missed && s in servers && Live(servers[s]) ==> Settled(now, newKeys[id], newBoxes, SwitchedOff(servers[s]))
    ensures LedBy(Renewing, now, servers, id, keys, newKeys, boxes, newBoxes)
    ensures KeptInStep(now, servers, servers, keys, newKeys, boxes, newBoxes, Among(missed, keys[id]))
  {
    RenewedIsLed(now, servers, id, keys, saved, newKeys[id], boxes, newBoxes);
    RenewKeepsConverged(now, id, servers, keys, newKeys, boxes, newBoxes, missed);
  }

  lemma NothingKeepsConverged(now: Time, servers: map<Id, Server>, keys: map<Id, Key>, boxes: Boxes)
    ensures KeptInStep(now, servers, servers, keys, keys, boxes, boxes, {})
  {
  }

  // ---------------------------------------------------------------- a sync of the whole fleet

  /** The same server, whatever its last sync came to. */
  predicate SameSite(a: Server, b: Server) { a.(syncFailed := false) == b.(syncFailed := false) }

  /** Syncing never changes a key's limit, end date, holder, price or token, nor a server's settings. */
  ghost predicate FleetKept(servers: map<Id, Server>, newServers: map<Id, Server>, keys: map<Id, Key>,
                            newKeys: map<Id, Key>) {
    && newServers.Keys == servers.Keys
    && (forall s {:trigger SameSite(servers[s], newServers[s])} | s in servers :: SameSite(servers[s], newServers[s]))
    && keys.Keys <= newKeys.Keys
    && (forall k {:trigger SamePolicy(newKeys[k], keys[k])} | k in keys :: SamePolicy(newKeys[k], keys[k]))
    && (forall k {:trigger Unassigned(newKeys[k])} | k in newKeys && k !in keys :: Unassigned(newKeys[k]))
  }

  /** A key just adopted: nobody's, with no limit, no end and no price. */
  predicate Unassigned(key: Key) {
    key.userID.None? && key.limitBytes.None? && key.endDate.None? && key.priceMmk.None? && !key.autoRenew
  }

  /**
    What one tick did not get to because calls failed: whether the servers could be listed for the syncs and
    again for the caps, and the keys for the renewals; the servers not reached, those whose cap was not
    checked and those whose default was not found; and the keys about which a call of their own failed.
  */
  datatype Losses = Losses(
    listed: bool, swept: bool, renewed: bool,
    unreached: set<Id>, unchecked: set<Id>, fallback: set<Id>, lost: set<Place>)
  {
    function Count(): nat {
      if !listed then 1
      else (if swept then 0 else 1) + (if renewed then 0 else 1) + |unreached| + |unchecked| + |fallback| + |lost|
    }
  }

  lemma NoLosses(l: Losses)
    requires l.Count() == 0
    ensures l == Losses(true, true, true, {}, {}, {}, {})
  {
  }

  /**
    What one tick may make of a row: synced and brought up to date it keeps its terms, and if it is then opted in
    and running low it is renewed, and logged; that may not happen only if it is among the losses.
  */
  ghost predicate RowTicked(fl: Rounding, now: Time, servers: map<Id, Server>, l: Losses, before: Key, after: Key,
                            logged: bool)
  {
    exists mid {:trigger SamePolicy(mid, before)} ::
      SamePolicy(mid, before) && RowTurned(fl, now, servers, l, mid, after, logged)
  }

  predicate RowTurned(fl: Rounding, now: Time, servers: map<Id, Server>, l: Losses, mid: Key, after: Key,
                      logged: bool)
  {
    var missed := !l.renewed || PlaceOf(mid) in l.lost;
    && (AutoRenewedRow(fl, now, servers, l.fallback, mid, after) || (after == mid && missed))
    && (!missed && MustLog(now, servers, l.lost, mid) ==> logged)
  }

  /** What one tick may make of a server's row. */
  predicate SiteTicked(now: Time, before: Server, after: Server) {
    || SameSite(before, after)
    || (Live(before) && MayTrip(now, before) && SameSite(before.(bandwidthDisabledAt := Some(now)), after))
  }

  /** What one tick may do to what is on record; every entry it logs is in force. */
  ghost predicate TickedSince(fl: Rounding, now: Time, servers: map<Id, Server>, l: Losses, keys0: map<Id, Key>,
                              keys: map<Id, Key>, renewals0: seq<RenewalLog>, renewals: seq<RenewalLog>)
  {
    && keys0.Keys <= keys.Keys
    && (forall k {:trigger LoggedSince(renewals, |renewals0|, k)} | k in keys0 ::
          RowTicked(fl, now, servers, l, keys0[k], keys[k], LoggedSince(renewals, |renewals0|, k)))
    && (forall k {:trigger Unassigned(keys[k])} | k in keys && k !in keys0 :: Unassigned(keys[k]))
    && renewals0 <= renewals && OncePerKey(renewals, |renewals0|)
    && (forall i {:trigger renewals[i]} | |renewals0| <= i < |renewals| ::
          EntryInForce(fl, servers, l.fallback, keys, renewals[i]))
  }

  lemma NothingTicked(fl: Rounding, now: Time, servers: map<Id, Server>, l: Losses, keys: map<Id, Key>,
                      renewals: seq<RenewalLog>)
    requires !l.renewed
    ensures TickedSince(fl, now, servers, l, keys, keys, renewals, renewals)
  {
    forall k | k in keys
      ensures RowTicked(fl, now, servers, l, keys[k], keys[k], LoggedSince(renewals, |renewals|, k))
    {
      assert SamePolicy(keys[k], keys[k]) && RowTurned(fl, now, servers, l, keys[k], keys[k], false);
    }
  }

  lemma RenewalsTick(fl: Rounding, now: Time, servers: map<Id, Server>, l: Losses, failed: set<Place>,
                     keys0: map<Id, Key>, keys: map<Id, Key>, boxes0: Boxes, boxes: Boxes,
                     renewals0: seq<RenewalLog>, renewals: seq<RenewalLog>)
    requires l.renewed && failed <= l.lost
    requires FleetRenewed(fl, now, servers, l.fallback, failed, keys0, keys, boxes0, boxes)
    requires SweepLogged(fl, now, servers, l.fallback, failed, keys0, keys, renewals0, renewals)
    ensures TickedSince(fl, now, servers, l, keys0, keys, renewals0, renewals)
  {
    forall k | k in keys0
      ensures RowTicked(fl, now, servers, l, keys0[k], keys[k], LoggedSince(renewals, |renewals0|, k))
    {
      assert RowRenewed(fl, now, servers, l.fallback, failed, keys0[k], keys[k], boxes0, boxes);
      assert SamePolicy(keys0[k], keys0[k]);
    }
    forall i | |renewals0| <= i < |renewals| ensures EntryInForce(fl, servers, l.fallback, keys, renewals[i]) {
      assert SweepEntry(fl, now, servers, l.fallback, keys0, keys, renewals[i]);
    }
  }

  /** Syncs and sweeps before the renewals are part of the same tick. */
  lemma TickedEarlier(fl: Rounding, now: Time, servers: map<Id, Server>, l: Losses, keys0: map<Id, Key>,
                      keys1: map<Id, Key>, keys: map<Id, Key>, renewals0: seq<RenewalLog>, renewals: seq<RenewalLog>)
    requires TickedSince(fl, now, servers, l, keys1, keys, renewals0, renewals)
    requires keys0.Keys <= keys1.Keys
    requires forall k {:trigger SamePolicy(keys1[k], keys0[k])} | k in keys0 :: SamePolicy(keys1[k], keys0[k])
    requires forall k {:trigger Unassigned(keys1[k])} | k in keys1 && k !in keys0 :: Unassigned(keys1[k])
    ensures TickedSince(fl, now, servers, l, keys0, keys, renewals0, renewals)
  {
    forall k | k in keys1
      ensures k in keys0 ==>
        RowTicked(fl, now, servers, l, keys0[k], keys[k], LoggedSince(renewals, |renewals0|, k))
      ensures k !in keys0 ==> Unassigned(keys[k])
    {
      var logged := LoggedSince(renewals, |renewals0|, k);
      assert RowTicked(fl, now, servers, l, keys1[k], keys[k], logged);
      var mid :| SamePolicy(mid, keys1[k]) && RowTurned(fl, now, servers, l, mid, keys[k], logged);
      if k in keys0 {
        assert SamePolicy(keys1[k], keys0[k]);
        assert SamePolicy(mid, keys0[k]);
      } else {
        assert Unassigned(keys1[k]) && !AutoDue(now, mid);
      }
    }
  }

  lemma SweptKeepsTerms(now: Time, servers0: map<Id, Server>, servers: map<Id, Server>, keys0: map<Id, Key>,
                        keys: map<Id, Key>, boxes0: Boxes, boxes: Boxes, unpushed: set<Id>, lost: set<Place>)
    requires FleetSwept(now, servers0, servers, keys0, keys, boxes0, boxes, unpushed, lost)
    ensures forall k {:trigger SamePolicy(keys[k], keys0[k])} | k in keys0 :: SamePolicy(keys[k], keys0[k])
  {
    forall k | k in keys0 ensures SamePolicy(keys[k], keys0[k]) {
      assert RowSwept(now, servers0, servers, keys0[k], keys[k], boxes, unpushed, lost);
    }
  }

  /** The syncs mark how they went, and the sweep trips. */
  lemma SitesTick(now: Time, servers0: map<Id, Server>, servers1: map<Id, Server>, servers: map<Id, Server>)
    requires servers1.Keys == servers0.Keys && TripsOnly(now, servers1, servers)
    requires forall s {:trigger SameSite(servers0[s], servers1[s])} | s in servers0 ::
      SameSite(servers0[s], servers1[s])
    ensures servers.Keys == servers0.Keys && forall s <- servers0 :: SiteTicked(now, servers0[s], servers[s])
  {
    forall s <- servers0 ensures SiteTicked(now, servers0[s], servers[s]) {
      assert SameSite(servers0[s], servers1[s]) && TripStep(now, servers1[s], servers[s]);
    }
  }

  /** Converged, as far as the live servers among `done` go. */
  ghost predicate ConvergedOn(now: Time, done: set<Id>, servers: map<Id, Server>, keys: map<Id, Key>, boxes: Boxes,
                              unreached: set<Id>, lost: set<Place>)
  {
    forall s {:trigger AllAdopted(now, s, lost, keys, boxes, SwitchedOff(servers[s]))} |
      s in done && s in servers && Live(servers[s]) && s !in unreached ::
        AllAdopted(now, s, lost, keys, boxes, SwitchedOff(servers[s]))
  }

  lemma KeptAll(servers: map<Id, Server>, keys: map<Id, Key>)
    ensures FleetKept(servers, servers, keys, keys)
  {
  }

  lemma SyncKeepsFleet(s: Id, servers0: map<Id, Server>, servers: map<Id, Server>, newServers: map<Id, Server>,
                       keys0: map<Id, Key>, keys: map<Id, Key>, newKeys: map<Id, Key>)
    requires FleetKept(servers0, servers, keys0, keys)
    requires SyncMarked(servers, newServers, s) && PolicyKept(keys, newKeys, s)
    ensures FleetKept(servers0, newServers, keys0, newKeys)
  {
    forall t | t in servers0 ensures SameSite(servers0[t], newServers[t]) {
      assert SameSite(servers0[t], servers[t]);
    }
    forall k | k in keys0 ensures SamePolicy(newKeys[k], keys0[k]) {
      assert SyncedRow(s, keys, k, newKeys[k]) && SamePolicy(keys[k], keys0[k]);
    }
    forall k | k in newKeys && k !in keys0 ensures Unassigned(newKeys[k]) {
      assert SyncedRow(s, keys, k, newKeys[k]);
      assert k in keys ==> Unassigned(keys[k]);
    }
  }

  /** One more server synced: in step apart from its failed keys, or not reached at all. */
  lemma SyncConverges(now: Time, s: Id, done: set<Id>, unreached: set<Id>, lost: set<Place>, ok: bool,
                      failed: set<Place>,
                      servers: map<Id, Server>, newServers: map<Id, Server>, keys: map<Id, Key>, newKeys: map<Id, Key>,
                      boxes: Boxes, newBoxes: Boxes)
    requires ConvergedOn(now, done, servers, keys, boxes, unreached, lost) && s !in done
    requires SyncMarked(servers, newServers, s) && PolicyKept(keys, newKeys, s) && LimitsOnly(boxes, newBoxes, s)
    requires ok ==> AllAdopted(now, s, failed, newKeys, newBoxes, SwitchedOff(servers[s]))
    ensures ConvergedOn(now, done + {s}, newServers, newKeys, newBoxes, unreached + (if ok then {} else {s}),
                        lost + failed)
  {
    var nowUnreached := unreached + if ok then {} else {s};
    forall t | t in done + {s} && t in newServers && Live(newServers[t]) && t !in nowUnreached
      ensures AllAdopted(now, t, lost + failed, newKeys, newBoxes, SwitchedOff(newServers[t]))
    {
      if t != s {
        assert AllAdopted(now, t, lost, keys, boxes, SwitchedOff(servers[t]));
        forall k | k in keys && keys[k].serverID == t ensures k in newKeys && newKeys[k] == keys[k] {
          assert SyncedRow(s, keys, k, newKeys[k]);
        }
        AdoptedElsewhere(now, s, t, lost, lost + failed, keys, newKeys, boxes, newBoxes, SwitchedOff(servers[t]));
      } else {
        AdoptedBut(now, s, failed, lost + failed, newKeys, newBoxes, SwitchedOff(servers[s]));
      }
    }
  }

  lemma AdoptedBut(now: Time, s: Id, failed: set<Place>, lost: set<Place>, keys: map<Id, Key>, boxes: Boxes, off: bool)
    requires AllAdopted(now, s, failed, keys, boxes, off) && failed <= lost
    ensures AllAdopted(now, s, lost, keys, boxes, off)
  {
  }

  lemma ConvergedEverywhere(now: Time, done: set<Id>, rows: map<Id, Server>, servers: map<Id, Server>,
                            keys: map<Id, Key>, boxes: Boxes, unreached: set<Id>, lost: set<Place>)
    requires ConvergedOn(now, done, servers, keys, boxes, unreached, lost)
    requires servers.Keys == rows.Keys
    requires forall s {:trigger SameSite(rows[s], servers[s])} | s in rows :: SameSite(rows[s], servers[s])
    requires forall s <- rows :: Live(rows[s]) ==> s in done
    ensures ConvergedBut(now, servers, keys, boxes, unreached, lost)
  {
    forall s | s in servers && Live(servers[s]) && s !in unreached
      ensures AllAdopted(now, s, lost, keys, boxes, SwitchedOff(servers[s]))
    {
      assert SameSite(rows[s], servers[s]);
    }
  }
}
