/** Adding, repointing, removing and re-enabling servers, and the identity a server keeps throughout. */
module ServerHandlers {
  import opened Wrappers
  import opened Calendar
  import opened Models
  import opened Store
  import opened Repositories
  import opened Outline
  import opened Policy
  import opened KillSwitch
  import opened Convergence
  import opened Enforcement
  import opened Runs

  // ---------------------------------------------------------------- one row per URL

  predicate SharesURL(a: Server, b: Server) { a.apiURL == b.apiURL }

  /** Archived rows included: stricter than the schema, which only keeps live URLs apart. */
  ghost predicate OneRowPerURL(servers: map<Id, Server>) {
    forall s, t {:trigger SharesURL(servers[s], servers[t])} | s in servers && t in servers ::
      SharesURL(servers[s], servers[t]) ==> s == t
  }

  datatype AddOutcome =
    | Added(id: Id)
    | Restored(id: Id)
    | Duplicate
    | WrongFingerprint
    | NotAdded

  /** A live row with the details submitted, and no sync gone wrong. */
  predicate AsSubmitted(row: Server, d: ServerDetails) {
    && row.name == d.name && row.apiURL == d.apiURL && row.certSHA256 == d.certSHA256 && row.maxKeys == d.maxKeys
    && row.defaultLimitBytes == d.defaultLimitBytes && row.defaultPriceMmk == d.defaultPriceMmk
    && row.bandwidthLimitBytes == d.bandwidthLimitBytes && row.deletedAt.None? && !row.syncFailed
  }

  /** What adding a server may do: nothing, a new row under an unused URL, or a removed row brought back. */
  ghost predicate AddStep(db: DB, after: DB, details: ServerDetails, r: AddOutcome) {
    match r
    case Added(id) =>
      && id !in db.servers && (forall s <- db.servers :: db.servers[s].apiURL != details.apiURL)
      && id in after.servers && after == PutServer(db, id, after.servers[id]) && AsSubmitted(after.servers[id], details)
      && after.servers[id].bandwidthDisabledAt.None? && after.servers[id].bandwidthReenabledAt.None?
    case Restored(id) =>
      && id in db.servers && db.servers[id].deletedAt.Some?
      && db.servers[id].apiURL == details.apiURL && db.servers[id].certSHA256 == details.certSHA256
      && id in after.servers && after == PutServer(db, id, after.servers[id]) && AsSubmitted(after.servers[id], details)
      && after.servers[id].bandwidthDisabledAt == db.servers[id].bandwidthDisabledAt
      && after.servers[id].bandwidthReenabledAt == db.servers[id].bandwidthReenabledAt
    case Duplicate => after == db && exists s <- db.servers ::
      db.servers[s].apiURL == details.apiURL && db.servers[s].deletedAt.None?
    case WrongFingerprint =>
      after == db && exists s <- db.servers :: db.servers[s].apiURL == details.apiURL && db.servers[s].deletedAt.Some?
                                               && db.servers[s].certSHA256 != details.certSHA256
    case NotAdded => after == db
  }

  ghost predicate RepointStep(db: DB, after: DB, s: Id, apiURL: string, certSHA256: string) {
    || after == db
    || (&& s in db.servers && Live(db.servers[s])
        && (forall t <- db.servers :: t != s ==> db.servers[t].apiURL != apiURL)
        && after == PutServer(db, s, db.servers[s].(apiURL := apiURL, certSHA256 := certSHA256, syncFailed := false)))
  }

  ghost predicate RemoveStep(db: DB, after: DB, s: Id, now: Time) {
    || after == db
    || (s in db.servers && Live(db.servers[s])
        && after == PutServer(db, s, db.servers[s].(deletedAt := Some(now))))
  }

  /** One admin action on the list of servers. */
  datatype Move =
    | Add(details: ServerDetails, r: AddOutcome)
    | Repoint(s: Id, apiURL: string, certSHA256: string)
    | Remove(s: Id, now: Time)

  ghost predicate MoveStep(db: DB, after: DB, m: Move) {
    match m
    case Add(details, r) => AddStep(db, after, details, r)
    case Repoint(s, apiURL, cert) => RepointStep(db, after, s, apiURL, cert)
    case Remove(s, now) => RemoveStep(db, after, s, now)
  }

  ghost predicate IsMoveRun(states: seq<DB>, moves: seq<Move>) {
    && |states| == |moves| + 1
    && forall i {:trigger moves[i]} | 0 <= i < |moves| :: MoveStep(states[i], states[i + 1], moves[i])
  }

  lemma MoveKeepsOneRowPerURL(db: DB, after: DB, m: Move)
    requires OneRowPerURL(db.servers) && MoveStep(db, after, m)
    ensures OneRowPerURL(after.servers)
  {
    forall s, t | s in after.servers && t in after.servers && SharesURL(after.servers[s], after.servers[t])
      ensures s == t
    {
      if s in db.servers && t in db.servers {
        assert SharesURL(db.servers[s], db.servers[t]) ==> s == t;
      }
    }
  }

  /** Whatever is added, repointed and removed, no two rows ever share a URL. */
  lemma {:induction false} RunKeepsOneRowPerURL(states: seq<DB>, moves: seq<Move>, i: nat)
    requires IsMoveRun(states, moves) && OneRowPerURL(states[0].servers) && i <= |moves|
    ensures OneRowPerURL(states[i].servers)
    decreases i
  {
    if i > 0 {
      RunKeepsOneRowPerURL(states, moves, i - 1);
      MoveKeepsOneRowPerURL(states[i - 1], states[i], moves[i - 1]);
    }
  }

  /** No move touches keys, users, renewals or snapshots, and a removed server's row stays as it was until it
      is restored. */
  lemma {:induction false} HistoryOutlivesRemoval(states: seq<DB>, moves: seq<Move>, s: Id, i: nat)
    requires IsMoveRun(states, moves) && i <= |moves|
    requires s in states[0].servers && !Live(states[0].servers[s])
    requires forall j | 0 <= j < i :: moves[j].Add? ==> moves[j].r != Restored(s)
    ensures states[i].keys == states[0].keys && states[i].users == states[0].users
    ensures states[i].renewals == states[0].renewals && states[i].snapshots == states[0].snapshots
    ensures s in states[i].servers && states[i].servers[s] == states[0].servers[s]
    decreases i
  {
    if i > 0 {
      HistoryOutlivesRemoval(states, moves, s, i - 1);
      assert MoveStep(states[i - 1], states[i], moves[i - 1]);
    }
  }

  /**
    Removing a server and, after any other moves, adding its URL and fingerprint again can only bring back
    the same row, under the same id, with every key, renewal and snapshot unchanged.
  */
  lemma RemovalIsReversible(states: seq<DB>, moves: seq<Move>, s: Id, details: ServerDetails)
    requires |moves| >= 2 && IsMoveRun(states, moves) && OneRowPerURL(states[0].servers)
    requires s in states[0].servers && Live(states[0].servers[s])
    requires moves[0].Remove? && moves[0].s == s && states[1] != states[0]
    requires forall j | 0 < j < |moves| - 1 :: moves[j].Add? ==> moves[j].r != Restored(s)
    requires details.apiURL == states[0].servers[s].apiURL && details.certSHA256 == states[0].servers[s].certSHA256
    requires moves[|moves| - 1].Add? && moves[|moves| - 1].details == details
    ensures moves[|moves| - 1].r == Restored(s) || moves[|moves| - 1].r == NotAdded
    ensures moves[|moves| - 1].r == Restored(s) ==>
      var end := states[|moves|];
      && end.keys == states[0].keys && end.users == states[0].users
      && end.renewals == states[0].renewals && end.snapshots == states[0].snapshots
      && s in end.servers && Live(end.servers[s]) && end.servers[s].apiURL == states[0].servers[s].apiURL
      && end.servers[s].bandwidthDisabledAt == states[0].servers[s].bandwidthDisabledAt
  {
    var n := |moves| - 1;
    assert MoveStep(states[0], states[1], moves[0]) && MoveStep(states[n], states[n + 1], moves[n]);
    var later, laterMoves := states[1..], moves[1..];
    assert forall i | 0 <= i < |laterMoves| :: laterMoves[i] == moves[i + 1];
    HistoryOutlivesRemoval(later, laterMoves, s, n - 1);
    assert later[n - 1] == states[n];
    RunKeepsOneRowPerURL(states, moves, n);
    var row := states[n].servers[s];
    assert forall t <- states[n].servers :: SharesURL(states[n].servers[t], row) ==> t == s;
    assert SharesURL(row, NewServer(details));
    forall t <- states[n].servers | SharesURL(states[n].servers[t], NewServer(details)) ensures t == s {
      assert SharesURL(states[n].servers[t], row);
    }
  }

  // ---------------------------------------------------------------- a server's default quota

  /** What giving a server a default may do to a row: only a key without a ceiling of its own gets one. */
  predicate DefaultedRow(now: Time, s: Id, limitBytes: Option<int>, before: Key, after: Key) {
    || after == before
    || (&& limitBytes.Some? && before.serverID == s && before.limitBytes.None?
        && var given := before.(limitBytes := limitBytes); after == given || after == Reconciled(now, given))
  }

  ghost predicate Defaulted(now: Time, s: Id, limitBytes: Option<int>, keys: map<Id, Key>, newKeys: map<Id, Key>) {
    && newKeys.Keys == keys.Keys
    && forall k {:trigger DefaultedRow(now, s, limitBytes, keys[k], newKeys[k])} | k in keys ::
         DefaultedRow(now, s, limitBytes, keys[k], newKeys[k])
  }

  /** A key the pushes are not about: its row is as it was, and so is what its box enforces. */
  predicate Aside(key: Key, newKey: Key, boxes: Boxes, newBoxes: Boxes) {
    && newKey == key
    && (Has(newBoxes, key.serverID, key.outlineID) ==>
          && Has(boxes, key.serverID, key.outlineID)
          && newBoxes[key.serverID][key.outlineID] == boxes[key.serverID][key.outlineID])
  }

  ghost predicate OthersAside(ids: seq<Id>, keys: map<Id, Key>, newKeys: map<Id, Key>, boxes: Boxes, newBoxes: Boxes) {
    && newKeys.Keys == keys.Keys
    && forall k {:trigger Aside(keys[k], newKeys[k], boxes, newBoxes)} | k in keys && k !in ids ::
         Aside(keys[k], newKeys[k], boxes, newBoxes)
  }

  lemma AsideStep(db: DB, ids: seq<Id>, id: Id, keys0: map<Id, Key>, newKeys: map<Id, Key>, boxes0: Boxes,
                  boxes: Boxes, newBoxes: Boxes)
    requires Sound(db) && OthersAside(ids, keys0, db.keys, boxes0, boxes)
    requires id in ids && id in db.keys && id in newKeys && newKeys == db.keys[id := newKeys[id]]
    requires var s, o := db.keys[id].serverID, db.keys[id].outlineID;
      newBoxes == boxes || exists limit :: Has(boxes, s, o) && newBoxes == WithLimit(boxes, s, o, limit)
    ensures OthersAside(ids, keys0, newKeys, boxes0, newBoxes)
  {
    forall k | k in keys0 && k !in ids ensures Aside(keys0[k], newKeys[k], boxes0, newBoxes) {
      assert Aside(keys0[k], db.keys[k], boxes0, boxes);
      assert !SameOutlineKey(db.keys[k], db.keys[id]);
    }
  }

  /** Keys newly limited are pushed, the others are left alone: the fleet stays in step but for those that failed. */
  lemma DefaultKeepsConverged(now: Time, s: Id, servers: map<Id, Server>, ids: seq<Id>, failed: set<Place>,
                              keys: map<Id, Key>, limited: map<Id, Key>, newKeys: map<Id, Key>,
                              boxes: Boxes, newBoxes: Boxes)
    requires s in servers && Live(servers[s])
    requires limited.Keys == keys.Keys && forall k <- keys :: SameOutlineKey(limited[k], keys[k])
    requires forall k <- keys :: k !in ids ==> limited[k] == keys[k]
    requires RowsReconciled(now, limited, newKeys, s) && LimitsOnly(boxes, newBoxes, s)
    requires OthersAside(ids, limited, newKeys, boxes, newBoxes)
    requires forall k <- ids :: k in newKeys && newKeys[k].serverID == s
    requires forall k <- ids ::
      PlaceOf(newKeys[k]) in failed || Settled(now, newKeys[k], newBoxes, SwitchedOff(servers[s]))
    ensures KeptInStep(now, servers, servers, keys, newKeys, boxes, newBoxes, failed)
  {
    if Converged(now, servers, keys, boxes) {
      forall t | t in servers && Live(servers[t])
        ensures AllAdopted(now, t, failed, newKeys, newBoxes, SwitchedOff(servers[t]))
      {
        var off := SwitchedOff(servers[t]);
        assert AllAdopted(now, t, {}, keys, boxes, SwitchedOff(servers[t]));
        forall o | o in newBoxes[t] && (t, o) !in failed ensures Adopted(now, t, o, newKeys, newBoxes, off) {
          assert Adopted(now, t, o, keys, boxes, off);
          var k :| k in keys && At(keys[k], t, o) && Settled(now, keys[k], boxes, off);
          assert RowStep(now, limited[k], newKeys[k], s);
          if k !in ids { assert Aside(limited[k], newKeys[k], boxes, newBoxes); }
          assert k in newKeys && At(newKeys[k], t, o) && Settled(now, newKeys[k], newBoxes, off);
        }
      }
    }
  }

  /** The switch and the archive flag are all that convergence asks of a servers row. */
  lemma SettingKeepsConverged(now: Time, s: Id, servers: map<Id, Server>, row: Server, keys: map<Id, Key>, boxes: Boxes)
    requires Converged(now, servers, keys, boxes)
    requires s in servers && row.deletedAt == servers[s].deletedAt
    requires row.bandwidthDisabledAt == servers[s].bandwidthDisabledAt
    ensures Converged(now, servers[s := row], keys, boxes)
  {
    var after := servers[s := row];
    forall t | t in after && Live(after[t]) ensures AllAdopted(now, t, {}, keys, boxes, SwitchedOff(after[t]))
    {
      assert AllAdopted(now, t, {}, keys, boxes, SwitchedOff(servers[t]));
    }
  }

  /** What an admin may ask for: clearing the default, or a figure above zero. */
  predicate Acceptable(clear: bool, limitGB: Option<real>) { clear || (limitGB.Some? && limitGB.value > 0.0) }

  function DefaultFrom(fl: Rounding, clear: bool, limitGB: Option<real>): Option<int> {
    if !clear && limitGB.Some? then Some(BytesOfGB(fl, limitGB.value)) else None
  }

  lemma NothingDefaulted(now: Time, s: Id, limitBytes: Option<int>, keys: map<Id, Key>, boxes: Boxes)
    ensures Defaulted(now, s, limitBytes, keys, keys) && LimitsOnly(boxes, boxes, s)
  {
  }

  class ServerAPI {
    const enforcer: Enforcer
    const repo: Repository
    const outline: Fleet

    constructor (enforcer: Enforcer)
      ensures this.enforcer == enforcer && repo == enforcer.repo && outline == enforcer.outline
    {
      this.enforcer, this.repo, this.outline := enforcer, enforcer.repo, enforcer.outline;
    }

    ghost predicate Valid()
      reads repo
    {
      enforcer.repo == repo && enforcer.outline == outline && repo.Valid()
    }

    /** Adds a server whose management key has been checked, or restores the removed row it matches. */
    method CreateServer(details: ServerDetails) returns (r: AddOutcome)
      requires Valid() && OneRowPerURL(repo.servers)
      modifies repo
      ensures Valid() && OneRowPerURL(repo.servers)
      ensures AddStep(old(repo.View()), repo.View(), details, r)
      ensures repo.faults >= old(repo.faults) && (repo.faults == old(repo.faults) ==> r != NotAdded)
    {
      ghost var db := repo.View();
      var existing := repo.GetServerByAPIURL(details.apiURL);
      if existing == Err(NotFound) {
        var created := repo.CreateServer(details);
        r := if created.Ok? then Added(created.value) else NotAdded;
      } else if existing.Err? {
        r := NotAdded;
      } else {
        var id := existing.value;
        assert SharesURL(db.servers[id], NewServer(details));
        var row := repo.servers[id];
        if Live(row) {
          r := Duplicate;
        } else if row.certSHA256 != details.certSHA256 {
          r := WrongFingerprint;
        } else {
          forall t <- db.servers | t != id ensures !SameURL(db.servers[t], Revived(row, details)) {
            assert !SharesURL(db.servers[t], db.servers[id]);
          }
          var err := repo.ReviveServer(id, details);
          r := if err.None? then Restored(id) else NotAdded;
        }
      }
      MoveKeepsOneRowPerURL(db, repo.View(), Add(details, r));
    }

    /** Repoints a live server, unless another row, live or removed, already has the URL. */
    method UpdateServerAPIURL(s: Id, apiURL: string, certSHA256: string) returns (ok: bool)
      requires Valid() && OneRowPerURL(repo.servers)
      modifies repo
      ensures Valid() && OneRowPerURL(repo.servers)
      ensures RepointStep(old(repo.View()), repo.View(), s, apiURL, certSHA256)
      ensures ok ==> s in repo.servers && repo.servers[s].apiURL == apiURL && repo.servers[s].certSHA256 == certSHA256
      ensures repo.faults >= old(repo.faults)
      ensures repo.faults == old(repo.faults) ==> (ok <==>
        && s in old(repo.servers) && Live(old(repo.servers)[s])
        && forall t <- old(repo.servers) :: t != s ==> old(repo.servers)[t].apiURL != apiURL)
    {
      ghost var db := repo.View();
      var server := repo.GetServer(s);
      if server.Err? { return false; }
      if apiURL != server.value.apiURL {
        var existing := repo.GetServerByAPIURL(apiURL);
        if existing.Err? && existing.error != NotFound { return false; }
        if existing.Ok? && existing.value != s { return false; }
      }
      var err := repo.UpdateServerAPIURL(s, apiURL, certSHA256);
      ok := err.None?;
      if ok {
        forall t <- db.servers | t != s ensures db.servers[t].apiURL != apiURL {
          assert SharesURL(db.servers[t], db.servers[s]) ==> t == s;
        }
      }
      MoveKeepsOneRowPerURL(db, repo.View(), Repoint(s, apiURL, certSHA256));
    }

    method DeleteServer(now: Time, s: Id) returns (ok: bool)
      requires Valid() && OneRowPerURL(repo.servers)
      modifies repo
      ensures Valid() && OneRowPerURL(repo.servers)
      ensures RemoveStep(old(repo.View()), repo.View(), s, now)
      ensures ok ==> s in repo.servers && !Live(repo.servers[s])
      ensures repo.faults == old(repo.faults) ==> (ok <==> s in old(repo.servers) && Live(old(repo.servers)[s]))
    {
      ghost var db := repo.View();
      var err := repo.DeleteServer(s, now);
      ok := err.None?;
      MoveKeepsOneRowPerURL(db, repo.View(), Remove(s, now));
    }

    /**
      Clears the kill switch and restores every key's own limit. A call that fails costs one key its push, or,
      short of that, the whole server its pushes; the server's rows are left as without a switch in any case.
    */
    method ReenableServerBandwidth(now: Time, s: Id) returns (ok: bool, ghost pushed: bool, ghost failed: set<Place>)
      requires Valid()
      modifies repo, outline
      ensures Valid() && repo.users == old(repo.users) && repo.renewals == old(repo.renewals)
      ensures repo.snapshots == old(repo.snapshots)
      ensures s !in old(repo.servers) ==> repo.servers == old(repo.servers)
      ensures s in old(repo.servers) ==>
        && s in repo.servers && repo.servers == old(repo.servers)[s := repo.servers[s]]
        && (repo.servers[s] == old(repo.servers[s])
            || repo.servers[s] == After(old(repo.servers[s]), ServerEvent.Reenable(now)))
      ensures RowsReconciled(now, old(repo.keys), repo.keys, s) && LimitsOnly(old(outline.boxes), outline.boxes, s)
      ensures Leads(Passing, now, SiteOf(s, false, old(repo.keys), old(outline.boxes)),
                    SiteOf(s, false, repo.keys, outline.boxes))
      ensures pushed ==>
        && s in old(repo.servers) && Live(old(repo.servers[s])) && s in repo.servers
        && repo.servers[s] == After(old(repo.servers[s]), ServerEvent.Reenable(now))
        && AllSettled(now, s, failed, repo.keys, outline.boxes, false)
      ensures s in old(repo.servers) && Live(old(repo.servers)[s]) ==>
        |failed| + (if pushed then 0 else 1) <= enforcer.Faults() - old(enforcer.Faults())
      ensures ok ==> pushed && failed == {}
      ensures Converged(now, old(repo.servers), old(repo.keys), old(outline.boxes)) ==>
        ConvergedBut(now, repo.servers, repo.keys, outline.boxes, if pushed then {} else {s}, failed)
    {
      ghost var servers0, keys0, boxes0 := repo.servers, repo.keys, outline.boxes;
      ok, pushed, failed := false, false, {};
      SweptNothing(now, s, repo.keys, outline.boxes);
      LeadsNowhere(Passing, now, SiteOf(s, false, repo.keys, outline.boxes));
      var updated := ClearSwitch(now, s);
      if updated.Some? {
        var lastErr;
        lastErr, pushed, failed := enforcer.ReconcileServerKeys(now, s, SwitchedOff(updated.value));
        ok := lastErr.None?;
      }
      RepushedOrNot(now, s, servers0, repo.servers, keys0, repo.keys, boxes0, outline.boxes, pushed, failed);
    }

    /** Clears the switch and reads the row again, so that the pushes see it cleared. */
    method ClearSwitch(now: Time, s: Id) returns (updated: Option<Server>)
      requires Valid()
      modifies repo
      ensures repo.View() == old(repo.View()).(servers := repo.servers)
      ensures Valid() && repo.keys == old(repo.keys)
      ensures s in old(repo.servers) ==>
        && s in repo.servers && repo.servers == old(repo.servers)[s := repo.servers[s]]
        && (repo.servers[s] == old(repo.servers[s])
            || repo.servers[s] == After(old(repo.servers[s]), ServerEvent.Reenable(now)))
      ensures s !in old(repo.servers) ==> repo.servers == old(repo.servers)
      ensures updated.Some? ==>
        && s in old(repo.servers) && Live(old(repo.servers[s])) && s in repo.servers && updated.value == repo.servers[s]
        && repo.servers[s] == After(old(repo.servers[s]), ServerEvent.Reenable(now))
      ensures repo.faults >= old(repo.faults)
      ensures updated.None? && s in old(repo.servers) && Live(old(repo.servers[s])) ==> repo.faults > old(repo.faults)
    {
      var server := repo.GetServer(s);
      if server.Err? { return None; }
      var err := repo.ClearServerBandwidthDisabled(s, now);
      if err.Some? { return None; }
      var row := repo.GetServer(s);
      updated := if row.Ok? then Some(row.value) else None;
    }

    lemma RepushedOrNot(now: Time, s: Id, servers: map<Id, Server>, newServers: map<Id, Server>, keys: map<Id, Key>,
                        newKeys: map<Id, Key>, boxes: Boxes, newBoxes: Boxes, pushed: bool, failed: set<Place>)
      requires s in servers ==> s in newServers && newServers == servers[s := newServers[s]]
      requires s in servers ==> Live(newServers[s]) ==> Live(servers[s])
      requires s !in servers ==> newServers == servers && newKeys == keys && newBoxes == boxes && !pushed
      requires RowsReconciled(now, keys, newKeys, s) && LimitsOnly(boxes, newBoxes, s)
      requires pushed ==> AllSettled(now, s, failed, newKeys, newBoxes, SwitchedOff(newServers[s]))
      ensures Converged(now, servers, keys, boxes) ==>
        ConvergedBut(now, newServers, newKeys, newBoxes, if pushed then {} else {s}, failed)
    {
      if Converged(now, servers, keys, boxes) {
        if s in servers {
          RepushKeepsConverged(now, s, servers, newServers[s], keys, newKeys, boxes, newBoxes, {}, {}, pushed, failed);
          var unreached: set<Id> := if pushed then {} else {s};
          assert {} + unreached == unreached && {} + failed == failed;
        } else {
          forall t | t in servers && Live(servers[t])
            ensures AllAdopted(now, t, failed, keys, boxes, SwitchedOff(servers[t])) {
            assert AllAdopted(now, t, {}, keys, boxes, SwitchedOff(servers[t]));
            AdoptedBut(now, t, {}, failed, keys, boxes, SwitchedOff(servers[t]));
          }
        }
      }
    }

    /** Pushes the given keys of one server. One key's failure does not stop the others: no more of them are
        missed than calls failed. */
    method PushKeys(now: Time, s: Id, ids: seq<Id>) returns (ghost failed: set<Place>)
      requires Valid() && s in repo.servers && Live(repo.servers[s])
      requires forall j | 0 <= j < |ids| :: ids[j] in repo.keys && repo.keys[ids[j]].serverID == s
      requires forall i, j | 0 <= i < j < |ids| :: ids[i] != ids[j]
      modifies repo, outline
      ensures Valid() && repo.servers == old(repo.servers) && repo.users == old(repo.users)
      ensures Swept(now, s, SwitchedOff(repo.servers[s]), ids, |ids|, failed,
                    old(repo.keys), repo.keys, old(outline.boxes), outline.boxes)
      ensures OthersAside(ids, old(repo.keys), repo.keys, old(outline.boxes), outline.boxes)
      ensures |failed| <= enforcer.Faults() - old(enforcer.Faults())
    {
      failed := {};
      ghost var off := SwitchedOff(repo.servers[s]);
      SweepStart(now, s, off, ids, repo.keys, outline.boxes);
      for i := 0 to |ids|
        invariant Valid() && repo.servers == old(repo.servers) && repo.users == old(repo.users)
        invariant Swept(now, s, off, ids, i, failed, old(repo.keys), repo.keys, old(outline.boxes), outline.boxes)
        invariant OthersAside(ids, old(repo.keys), repo.keys, old(outline.boxes), outline.boxes)
        invariant |failed| <= enforcer.Faults() - old(enforcer.Faults())
      {
        failed := PushNext(now, s, ids, i, failed, old(repo.keys), old(outline.boxes));
      }
    }

    method PushNext(now: Time, s: Id, ids: seq<Id>, i: nat, ghost failed: set<Place>, ghost keys0: map<Id, Key>,
                    ghost boxes0: Boxes)
      returns (ghost nowFailed: set<Place>)
      requires Valid() && s in repo.servers && Live(repo.servers[s]) && i < |ids|
      requires forall i, j | 0 <= i < j < |ids| :: ids[i] != ids[j]
      requires Swept(now, s, SwitchedOff(repo.servers[s]), ids, i, failed, keys0, repo.keys, boxes0, outline.boxes)
      requires OthersAside(ids, keys0, repo.keys, boxes0, outline.boxes)
      modifies repo, outline
      ensures Valid() && repo.servers == old(repo.servers) && repo.users == old(repo.users)
      ensures Swept(now, s, SwitchedOff(repo.servers[s]), ids, i + 1, nowFailed, keys0, repo.keys, boxes0,
                    outline.boxes)
      ensures OthersAside(ids, keys0, repo.keys, boxes0, outline.boxes)
      ensures |nowFailed| <= |failed| + enforcer.Faults() - old(enforcer.Faults())
    {
      ghost var db, boxes, faults := repo.View(), outline.boxes, enforcer.Faults();
      repo.AllDistinct(ids, i);
      var err := PushOne(now, s, ids[i]);
      NextPushed(now, s, SwitchedOff(repo.servers[s]), ids, i, failed, keys0, boxes0, db, boxes, repo.keys[ids[i]],
                 outline.boxes, enforcer.Faults() - faults, err);
      nowFailed := failed + NewlyFailed(db.keys[ids[i]], err);
    }

    lemma NextPushed(now: Time, s: Id, off: bool, ids: seq<Id>, i: nat, failed: set<Place>, keys0: map<Id, Key>,
                     boxes0: Boxes, db: DB, boxes: Boxes, after: Key, newBoxes: Boxes, newFaults: int,
                     err: Option<Error>)
      requires i < |ids| && Sound(db) && Swept(now, s, off, ids, i, failed, keys0, db.keys, boxes0, boxes)
      requires forall j | 0 <= j < |ids| && j != i ::
        ids[j] != ids[i] && !SameOutlineKey(db.keys[ids[j]], db.keys[ids[i]])
      requires OthersAside(ids, keys0, db.keys, boxes0, boxes)
      requires ReconcileOutcome(now, db.keys[ids[i]], after, boxes, newBoxes, off, newFaults, err)
      ensures Swept(now, s, off, ids, i + 1, failed + NewlyFailed(db.keys[ids[i]], err), keys0,
                    db.keys[ids[i] := after], boxes0, newBoxes)
      ensures OthersAside(ids, keys0, db.keys[ids[i] := after], boxes0, newBoxes)
    {
      SweepStep(now, s, off, ids, i, failed, keys0, db.keys, boxes0, boxes, after, newBoxes, newFaults, err);
      AsideStep(db, ids, ids[i], keys0, db.keys[ids[i] := after], boxes0, boxes, newBoxes);
    }

    method PushOne(now: Time, s: Id, id: Id) returns (err: Option<Error>)
      requires Valid() && s in repo.servers && Live(repo.servers[s]) && id in repo.keys && repo.keys[id].serverID == s
      modifies repo, outline
      ensures Valid() && repo.servers == old(repo.servers) && repo.users == old(repo.users)
      ensures id in repo.keys && repo.keys == old(repo.keys)[id := repo.keys[id]]
      ensures ReconcileOutcome(now, old(repo.keys[id]), repo.keys[id], old(outline.boxes), outline.boxes,
                               SwitchedOff(repo.servers[s]), enforcer.Faults() - old(enforcer.Faults()), err)
    {
      err := enforcer.ReconcileKeyByID(now, id);
    }

    /** Puts every key of a server without a ceiling of its own under the new default, and pushes it. */
    method ApplyToUnlimited(now: Time, s: Id, limitBytes: int) returns (ok: bool, ghost failed: set<Place>)
      requires Valid() && s in repo.servers && Live(repo.servers[s])
      modifies repo, outline
      ensures Valid() && repo.servers == old(repo.servers) && repo.users == old(repo.users)
      ensures Defaulted(now, s, Some(limitBytes), old(repo.keys), repo.keys)
      ensures LimitsOnly(old(outline.boxes), outline.boxes, s)
      ensures |failed| + (if ok then 0 else 1) <= enforcer.Faults() - old(enforcer.Faults())
      ensures ok ==> AllLimited(now, s, failed, limitBytes, old(repo.keys), repo.keys, outline.boxes, repo.servers)
      ensures KeptInStep(now, repo.servers, repo.servers, old(repo.keys), repo.keys, old(outline.boxes), outline.boxes,
                         failed)
    {
      failed := {};
      NothingDefaulted(now, s, Some(limitBytes), repo.keys, outline.boxes);
      NothingKeepsConverged(now, repo.servers, repo.keys, outline.boxes);
      ghost var keys0 := repo.keys;
      var changed := repo.ApplyDefaultLimitToUnlimitedKeys(s, limitBytes);
      ok := changed.Ok?;
      if ok { failed := PushLimited(now, s, limitBytes, changed.value, keys0); }
    }

    method PushLimited(now: Time, s: Id, limitBytes: int, ids: seq<Id>, ghost keys0: map<Id, Key>)
      returns (ghost failed: set<Place>)
      requires Valid() && s in repo.servers && Live(repo.servers[s])
      requires Enumerates(ids, set k | k in keys0 && Unlimited(keys0[k], s))
      requires repo.keys == WithDefault(keys0, s, limitBytes)
      modifies repo, outline
      ensures Valid() && repo.servers == old(repo.servers) && repo.users == old(repo.users)
      ensures Defaulted(now, s, Some(limitBytes), keys0, repo.keys)
      ensures LimitsOnly(old(outline.boxes), outline.boxes, s)
      ensures |failed| <= enforcer.Faults() - old(enforcer.Faults())
      ensures AllLimited(now, s, failed, limitBytes, keys0, repo.keys, outline.boxes, repo.servers)
      ensures KeptInStep(now, repo.servers, repo.servers, keys0, repo.keys, old(outline.boxes), outline.boxes, failed)
    {
      ghost var boxes0 := outline.boxes;
      UnlimitedListed(s, limitBytes, ids, keys0);
      failed := PushKeys(now, s, ids);
      DefaultedThenPushed(now, s, limitBytes, ids, failed, repo.servers, keys0, repo.keys, boxes0, outline.boxes);
    }

    method StoreDefault(now: Time, s: Id, limit: Option<int>) returns (ok: bool)
      requires Valid() && s in repo.servers && Live(repo.servers[s])
      modifies repo
      ensures Valid() && repo.users == old(repo.users) && repo.keys == old(repo.keys)
      ensures s in repo.servers && Live(repo.servers[s])
      ensures repo.servers ==
        if ok then old(repo.servers)[s := old(repo.servers[s]).(defaultLimitBytes := limit)] else old(repo.servers)
      ensures enforcer.Faults() >= old(enforcer.Faults()) + if ok then 0 else 1
      ensures Converged(now, old(repo.servers), repo.keys, outline.boxes) ==>
        Converged(now, repo.servers, repo.keys, outline.boxes)
    {
      ghost var servers := repo.servers;
      var err := repo.SetServerDefaultLimit(s, limit);
      ok := err.None?;
      if ok && Converged(now, servers, repo.keys, outline.boxes) {
        SettingKeepsConverged(now, s, servers, repo.servers[s], repo.keys, outline.boxes);
      }
    }

    method SaveDefault(now: Time, s: Id, limit: Option<int>, applyToUnlimited: bool)
      returns (ok: bool, ghost failed: set<Place>)
      requires Valid() && s in repo.servers && Live(repo.servers[s])
      modifies repo, outline
      ensures Valid() && repo.users == old(repo.users) && s in repo.servers
      ensures Defaulted(now, s, limit, old(repo.keys), repo.keys) && LimitsOnly(old(outline.boxes), outline.boxes, s)
      ensures !applyToUnlimited || limit.None? ==> repo.keys == old(repo.keys) && outline.boxes == old(outline.boxes)
      ensures || repo.servers == old(repo.servers)
              || repo.servers == old(repo.servers)[s := old(repo.servers[s]).(defaultLimitBytes := limit)]
      ensures |failed| + (if ok then 0 else 1) <= enforcer.Faults() - old(enforcer.Faults())
      ensures ok ==>
        && repo.servers[s].defaultLimitBytes == limit
        && (applyToUnlimited && limit.Some? ==>
              AllLimited(now, s, failed, limit.value, old(repo.keys), repo.keys, outline.boxes, repo.servers))
      ensures KeptInStep(now, old(repo.servers), repo.servers, old(repo.keys), repo.keys, old(outline.boxes),
                         outline.boxes, failed)
    {
      failed := {};
      NothingDefaulted(now, s, limit, repo.keys, outline.boxes);
      ok := StoreDefault(now, s, limit);
      if ok && applyToUnlimited && limit.Some? { ok, failed := ApplyToUnlimited(now, s, limit.value); }
      if ok {
        var updated := repo.GetServer(s);
        ok := updated.Ok?;
      }
    }

    /**
      Sets or clears the quota new keys on this server start on and, if asked, brings its unlimited keys onto
      it. An individually agreed ceiling survives; a fleet in step with its rows stays in step.
    */
    method SetServerDefaultLimit(now: Time, s: Id, clear: bool, limitGB: Option<real>, applyToUnlimited: bool)
      returns (ok: bool, ghost failed: set<Place>)
      requires Valid()
      modifies repo, outline
      ensures Valid() && repo.users == old(repo.users)
      ensures var limit := if clear || limitGB.None? then None else Some(BytesOfGB(enforcer.fl, limitGB.value));
        && Defaulted(now, s, limit, old(repo.keys), repo.keys) && LimitsOnly(old(outline.boxes), outline.boxes, s)
        && (|| repo.servers == old(repo.servers)
            || (&& s in old(repo.servers)
                && repo.servers == old(repo.servers)[s := old(repo.servers[s]).(defaultLimitBytes := limit)]))
      ensures !applyToUnlimited || clear ==> repo.keys == old(repo.keys) && outline.boxes == old(outline.boxes)
      ensures !Acceptable(clear, limitGB) ==> !ok && repo.View() == old(repo.View())
      ensures |failed| <= enforcer.Faults() - old(enforcer.Faults())
      ensures ok ==>
        && s in old(repo.servers) && Live(old(repo.servers[s])) && Acceptable(clear, limitGB)
        && s in repo.servers
        && repo.servers[s].defaultLimitBytes
           == (if clear then None else Some(BytesOfGB(enforcer.fl, limitGB.value)))
        && (applyToUnlimited && !clear ==>
              AllLimited(now, s, failed, BytesOfGB(enforcer.fl, limitGB.value), old(repo.keys), repo.keys,
                         outline.boxes, repo.servers))
      ensures enforcer.Faults() == old(enforcer.Faults()) ==>
        (ok <==> s in old(repo.servers) && Live(old(repo.servers[s])) && Acceptable(clear, limitGB))
      ensures KeptInStep(now, old(repo.servers), repo.servers, old(repo.keys), repo.keys, old(outline.boxes),
                         outline.boxes, failed)
    {
      ok, failed := false, {};
      NothingDefaulted(now, s, DefaultFrom(enforcer.fl, clear, limitGB), repo.keys, outline.boxes);
      NothingKeepsConverged(now, repo.servers, repo.keys, outline.boxes);
      var server := repo.GetServer(s);
      if server.Err? || (!clear && limitGB.None?) { return; }
      if !clear && limitGB.value <= 0.0 { return; }
      ok, failed := SaveDefault(now, s, DefaultFrom(enforcer.fl, clear, limitGB), applyToUnlimited);
    }
  }

  /** Every key that had no ceiling on server s is under the new one and, unless it failed, settled. */
  ghost predicate AllLimited(now: Time, s: Id, failed: set<Place>, limitBytes: int, keys: map<Id, Key>,
                             newKeys: map<Id, Key>, boxes: Boxes, servers: map<Id, Server>)
  {
    forall k <- keys :: keys[k].serverID == s && keys[k].limitBytes.None? ==>
      && k in newKeys && newKeys[k].limitBytes == Some(limitBytes)
      && (PlaceOf(keys[k]) !in failed && s in servers ==> Settled(now, newKeys[k], boxes, SwitchedOff(servers[s])))
  }

  lemma UnlimitedListed(s: Id, limitBytes: int, ids: seq<Id>, keys: map<Id, Key>)
    requires Enumerates(ids, set k | k in keys && Unlimited(keys[k], s))
    ensures forall j | 0 <= j < |ids| ::
      ids[j] in WithDefault(keys, s, limitBytes) && WithDefault(keys, s, limitBytes)[ids[j]].serverID == s
  {
    forall j | 0 <= j < |ids| ensures ids[j] in keys && Unlimited(keys[ids[j]], s) {
      Listed(ids, (set k | k in keys && Unlimited(keys[k], s)), j);
    }
  }

  lemma DefaultedThenPushed(now: Time, s: Id, limitBytes: int, ids: seq<Id>, failed: set<Place>,
                            servers: map<Id, Server>,
                            keys: map<Id, Key>, newKeys: map<Id, Key>, boxes: Boxes, newBoxes: Boxes)
    requires s in servers && Live(servers[s]) && Enumerates(ids, set k | k in keys && Unlimited(keys[k], s))
    requires Swept(now, s, SwitchedOff(servers[s]), ids, |ids|, failed, WithDefault(keys, s, limitBytes), newKeys,
                   boxes, newBoxes)
    requires OthersAside(ids, WithDefault(keys, s, limitBytes), newKeys, boxes, newBoxes)
    ensures Defaulted(now, s, Some(limitBytes), keys, newKeys) && LimitsOnly(boxes, newBoxes, s)
    ensures AllLimited(now, s, failed, limitBytes, keys, newKeys, newBoxes, servers)
    ensures KeptInStep(now, servers, servers, keys, newKeys, boxes, newBoxes, failed)
  {
    var limited := WithDefault(keys, s, limitBytes);
    forall k | k in keys
      ensures DefaultedRow(now, s, Some(limitBytes), keys[k], newKeys[k])
      ensures Unlimited(keys[k], s) <==> k in ids
      ensures k in ids ==>
        && newKeys[k].limitBytes == Some(limitBytes) && PlaceOf(newKeys[k]) == PlaceOf(keys[k])
        && (PlaceOf(newKeys[k]) in failed || Settled(now, newKeys[k], newBoxes, SwitchedOff(servers[s])))
    {
      assert RowStep(now, limited[k], newKeys[k], s);
      if k in ids {
        var j :| 0 <= j < |ids| && ids[j] == k;
        assert PlaceOf(newKeys[k]) in failed || Settled(now, newKeys[ids[j]], newBoxes, SwitchedOff(servers[s]));
      } else {
        assert Aside(limited[k], newKeys[k], boxes, newBoxes);
      }
    }
    DefaultKeepsConverged(now, s, servers, ids, failed, keys, limited, newKeys, boxes, newBoxes);
  }
}
