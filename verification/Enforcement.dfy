/**
  The enforcer: reconciles key rows with the limits Outline enforces, adopts remote keys, trips the
  monthly kill switch and renews keys, each step over both stores and each call able to fail.

  Instants are parameters: a method runs at one reading of the clock.
*/
module Enforcement {
  import opened Wrappers
  import opened Calendar
  import opened Models
  import opened Store
  import opened Repositories
  import opened Outline
  import opened Policy
  import opened KillSwitch
  import opened Usage
  import opened Convergence

  class Enforcer {
    const repo: Repository
    const outline: Fleet
    const fl: Rounding

    constructor (repo: Repository, outline: Fleet, fl: Rounding)
      ensures this.repo == repo && this.outline == outline && this.fl == fl
    {
      this.repo, this.outline, this.fl := repo, outline, fl;
    }

    /** Calls that have not got through so far, to either store. */
    ghost function Faults(): nat
      reads repo, outline
    {
      repo.faults + outline.faults
    }

    /** Nothing but key rows and remote limits may have changed. */
    twostate predicate OnlyKeysAndLimits()
      reads repo
    {
      && repo.users == old(repo.users) && repo.servers == old(repo.servers)
      && repo.renewals == old(repo.renewals) && repo.snapshots == old(repo.snapshots)
    }

    // -------------------------------------------------------------- reconciling

    /** What the box should enforce, sent whether or not the stored flag has moved. */
    method PushDesired(now: Time, key: Key, off: bool) returns (err: Option<Error>)
      modifies outline
      ensures Pushed(old(outline.boxes), outline.boxes, outline.faults - old(outline.faults),
                     key.serverID, key.outlineID, DesiredLimit(now, key, off), err)
    {
      var pushEnabled := Derive(now, key).shouldBeEnabled && !off;
      if !pushEnabled {
        err := outline.SetDataLimit(key.serverID, key.outlineID, 0);
      } else if key.limitBytes.Some? {
        err := outline.SetDataLimit(key.serverID, key.outlineID, key.limitBytes.value);
      } else {
        err := outline.RemoveDataLimit(key.serverID, key.outlineID);
      }
    }

    /** Pushes one key's desired limit, then updates its stored caches if they are out of date. */
    method ReconcileKey(now: Time, id: Id, key: Key, off: bool) returns (err: Option<Error>)
      requires repo.Valid() && id in repo.keys && repo.keys[id] == key
      modifies repo, outline
      ensures repo.Valid() && OnlyKeysAndLimits() && id in repo.keys
      ensures repo.keys == old(repo.keys)[id := repo.keys[id]]
      ensures repo.history == old(repo.history) || repo.history == old(repo.history) + [repo.View()]
      ensures ReconcileOutcome(now, key, repo.keys[id], old(outline.boxes), outline.boxes, off,
                               Faults() - old(Faults()), err)
    {
      err := PushDesired(now, key, off);
      var d := Derive(now, key);
      if err.None? && (d.shouldBeEnabled != key.enabled || d.status != key.status) {
        err := repo.SetKeyEnabledStatus(id, d.shouldBeEnabled, d.status);
      }
    }

    method ReconcileKeyByID(now: Time, id: Id) returns (err: Option<Error>)
      requires repo.Valid()
      modifies repo, outline
      ensures repo.Valid() && OnlyKeysAndLimits()
      ensures repo.history == old(repo.history) || repo.history == old(repo.history) + [repo.View()]
      ensures id !in old(repo.keys) ==>
        err.Some? && repo.keys == old(repo.keys) && outline.boxes == old(outline.boxes) && Faults() >= old(Faults())
      ensures id in old(repo.keys) ==> id in repo.keys && repo.keys == old(repo.keys)[id := repo.keys[id]]
      ensures id in old(repo.keys) ==>
        var key := old(repo.keys[id]);
        if key.serverID in repo.servers && Live(repo.servers[key.serverID])
        then ReconcileOutcome(now, key, repo.keys[id], old(outline.boxes), outline.boxes,
                              SwitchedOff(repo.servers[key.serverID]), Faults() - old(Faults()), err)
        else err.Some? && repo.keys[id] == key && outline.boxes == old(outline.boxes) && Faults() >= old(Faults())
      ensures id in old(repo.keys) ==>
        PassedOver(now, OffAt(repo.servers, old(repo.keys[id]).serverID), old(repo.keys[id]), repo.keys[id],
                   old(outline.boxes), outline.boxes)
    {
      var key := repo.GetKey(id);
      if key.Err? { return Some(key.error); }
      var server := repo.GetServer(key.value.serverID);
      if server.Err? { return Some(server.error); }
      err := ReconcileKey(now, id, key.value, SwitchedOff(server.value));
    }

    /** One key's turn in a pass over a server's keys. */
    method ReconcileNext(now: Time, s: Id, off: bool, ids: seq<Id>, i: nat, ghost failed: set<Place>,
                         ghost keys0: map<Id, Key>, ghost boxes0: Boxes)
      returns (err: Option<Error>, ghost nowFailed: set<Place>)
      requires repo.Valid() && i < |ids| && Swept(now, s, off, ids, i, failed, keys0, repo.keys, boxes0, outline.boxes)
      requires forall i, j | 0 <= i < j < |ids| :: ids[i] != ids[j]
      modifies repo, outline
      ensures repo.Valid() && OnlyKeysAndLimits()
      ensures Swept(now, s, off, ids, i + 1, nowFailed, keys0, repo.keys, boxes0, outline.boxes)
      ensures |nowFailed| - |failed| <= Faults() - old(Faults()) && Faults() >= old(Faults())
      ensures nowFailed == failed || err.Some?
    {
      var id := ids[i];
      ghost var keys, boxes, faults := repo.keys, outline.boxes, Faults();
      repo.AllDistinct(ids, i);
      err := ReconcileKey(now, id, repo.keys[id], off);
      SweepStep(now, s, off, ids, i, failed, keys0, keys, boxes0, boxes, repo.keys[id], outline.boxes,
                Faults() - faults, err);
      nowFailed := failed + NewlyFailed(keys[id], err);
    }

    /**
      Re-pushes every key of one server. One key's failure does not stop the others: unless the keys could
      not be listed at all, no more of them are missed than calls failed.
    */
    method ReconcileServerKeys(now: Time, s: Id, off: bool)
      returns (lastErr: Option<Error>, ghost listed: bool, ghost failed: set<Place>)
      requires repo.Valid()
      modifies repo, outline
      ensures repo.Valid() && OnlyKeysAndLimits()
      ensures RowsReconciled(now, old(repo.keys), repo.keys, s)
      ensures LimitsOnly(old(outline.boxes), outline.boxes, s)
      ensures Leads(Passing, now, SiteOf(s, off, old(repo.keys), old(outline.boxes)),
                    SiteOf(s, off, repo.keys, outline.boxes))
      ensures listed ==> AllSettled(now, s, failed, repo.keys, outline.boxes, off)
      ensures |failed| + (if listed then 0 else 1) <= Faults() - old(Faults())
      ensures !listed ==>
        repo.keys == old(repo.keys) && outline.boxes == old(outline.boxes) && Faults() == old(Faults()) + 1
      ensures !listed || failed != {} ==> lastErr.Some?
    {
      lastErr, listed, failed := None, true, {};
      SweepStart(now, s, off, [], repo.keys, outline.boxes);
      var ids := repo.ListKeysByServer(s);
      if ids.Err? { return Some(ids.error), false, {}; }
      forall j | 0 <= j < |ids.value| ensures ids.value[j] in repo.keys && repo.keys[ids.value[j]].serverID == s {
        Listed(ids.value, (set k | k in repo.keys && repo.keys[k].serverID == s), j);
      }
      SweepStart(now, s, off, ids.value, repo.keys, outline.boxes);
      for i := 0 to |ids.value|
        invariant repo.Valid() && OnlyKeysAndLimits()
        invariant Swept(now, s, off, ids.value, i, failed, old(repo.keys), repo.keys, old(outline.boxes), outline.boxes)
        invariant |failed| <= Faults() - old(Faults()) && (failed != {} ==> lastErr.Some?)
      {
        var err;
        err, failed := ReconcileNext(now, s, off, ids.value, i, failed, old(repo.keys), old(outline.boxes));
        if err.Some? { lastErr := err; }
      }
      SweepEnd(now, s, off, ids.value, failed, old(repo.keys), repo.keys, old(outline.boxes), outline.boxes);
    }

    // -------------------------------------------------------------- syncing

    /** Adopts or refreshes one remote key and records its usage; `id` is set once the row is there. */
    method AdoptKey(now: Time, s: Id, o: string, name: string, access: string, used: int)
      returns (ok: bool, id: Id)
      requires repo.Valid()
      modifies repo
      ensures repo.Valid()
      ensures repo.users == old(repo.users) && repo.servers == old(repo.servers) && repo.renewals == old(repo.renewals)
      ensures ok ==> id in repo.keys && repo.keys[id].usedBytes == used
      ensures
        || (!ok && repo.keys == old(repo.keys))
        || (id in repo.keys && repo.keys == old(repo.keys)[id := repo.keys[id]]
            && At(repo.keys[id], s, o) && AdoptedAs(s, o, name, access, used, old(repo.keys), id, repo.keys[id]))
      ensures repo.faults >= old(repo.faults) && (!ok && s in repo.servers ==> repo.faults > old(repo.faults))
      ensures ok && repo.faults == old(repo.faults) ==>
        repo.snapshots == old(repo.snapshots) + [UsageSnapshot(s, Some(id), used, now)]
    {
      var local := repo.UpsertKeyFromOutline(s, o, name, access);
      if local.Err? { return false, 0; }
      id := local.value;
      assert repo.keys == old(repo.keys)[id := repo.keys[id]];
      var err := repo.UpdateKeyUsage(id, used);
      if err.Some? { return false, id; }
      assert repo.keys == old(repo.keys)[id := repo.keys[id]];
      assert Anchored(repo.View(), id);
      err := repo.InsertUsageSnapshot(UsageSnapshot(s, Some(id), used, now));
      ok := true;
    }

    method SyncKey(now: Time, s: Id, o: string, name: string, access: string, used: int, off: bool)
      returns (ok: bool, ghost id: Id)
      requires repo.Valid() && Has(outline.boxes, s, o)
      modifies repo, outline
      ensures repo.Valid()
      ensures repo.users == old(repo.users) && repo.servers == old(repo.servers) && repo.renewals == old(repo.renewals)
      ensures KeySynced(now, s, o, old(repo.keys), repo.keys, old(outline.boxes), outline.boxes, off, id, ok)
      ensures ok && Faults() == old(Faults()) ==>
        && id in repo.keys && repo.keys == old(repo.keys)[id := repo.keys[id]] && repo.keys[id].usedBytes == used
        && At(repo.keys[id], s, o) && SyncedRow(s, old(repo.keys), id, repo.keys[id])
        && repo.keys[id].name == name && repo.keys[id].access == access
        && repo.snapshots == old(repo.snapshots) + [UsageSnapshot(s, Some(id), used, now)]
      ensures Faults() >= old(Faults()) && (!ok && s in repo.servers ==> Faults() > old(Faults()))
    {
      ghost var keys0, boxes := repo.keys, outline.boxes;
      var local: Id;
      ok, local := AdoptKey(now, s, o, name, access, used);
      id := local;
      ghost var keys, faults := repo.keys, Faults();
      if ok {
        var err := ReconcileKey(now, local, repo.keys[local], off);
        AdoptedThenPassed(now, s, o, off, name, access, used, keys0, keys, repo.keys[id], boxes, outline.boxes, id,
                          Faults() - faults, err);
        ok := err.None?;
      } else {
        AdoptedOnly(now, s, o, off, name, access, used, keys0, keys, boxes, id);
      }
    }

    /** One key's failure does not stop the others: no more are missed than calls failed. */
    method SyncKeys(now: Time, s: Id, ids: seq<string>, metrics: map<string, int>, off: bool)
      returns (failed: set<Place>)
      requires repo.Valid() && s in repo.servers
      requires s in outline.boxes && Enumerates(ids, outline.boxes[s].Keys)
      modifies repo, outline
      ensures repo.Valid()
      ensures repo.users == old(repo.users) && repo.servers == old(repo.servers) && repo.renewals == old(repo.renewals)
      ensures Synced(now, s, off, ids, |ids|, failed, old(repo.keys), repo.keys, old(outline.boxes), outline.boxes)
      ensures Faults() == old(Faults()) ==>
        Metered(now, s, metrics, old(outline.boxes)[s], ids, |ids|, repo.keys, old(repo.snapshots), repo.snapshots)
      ensures |failed| <= Faults() - old(Faults())
    {
      failed := {};
      MeterNone(now, s, metrics, outline.boxes[s], ids, repo.keys, repo.snapshots);
      KeepAll(now, s, off, ids, repo.keys, outline.boxes);
      for i := 0 to |ids|
        invariant repo.Valid()
        invariant repo.users == old(repo.users) && repo.servers == old(repo.servers)
        invariant repo.renewals == old(repo.renewals)
        invariant Faults() == old(Faults()) ==>
          Metered(now, s, metrics, old(outline.boxes)[s], ids, i, repo.keys, old(repo.snapshots), repo.snapshots)
        invariant Synced(now, s, off, ids, i, failed, old(repo.keys), repo.keys, old(outline.boxes), outline.boxes)
        invariant |failed| <= Faults() - old(Faults())
      {
        assert ids[i] in ids;
        var o := ids[i];
        var remote := outline.boxes[s][o];
        assert LimitAside(old(outline.boxes)[s][o], remote);
        ghost var keys, boxes, snapshots := repo.keys, outline.boxes, repo.snapshots;
        var done, id := SyncKey(now, s, o, remote.name, remote.access, UsageForKey(metrics, o), off);
        SyncStep(now, s, off, ids, i, failed, old(repo.keys), keys, old(outline.boxes), boxes,
                 repo.keys, outline.boxes, id, done);
        if Faults() == old(Faults()) {
          MeterStep(now, s, metrics, old(outline.boxes)[s], ids, i, keys, repo.keys, old(repo.snapshots), snapshots,
                    id);
        }
        failed := failed + if done then {} else {(s, o)};
      }
    }

    /**
      Pulls one live server's keys and usage, adopts what is new, and reconciles every key. `server` is
      the row as the caller last read it.
    */
    method SyncServer(now: Time, s: Id, server: Server)
      returns (ok: bool, failed: set<Place>, ghost ids: seq<string>, ghost metrics: map<string, int>)
      requires repo.Valid() && s in repo.servers
      modifies repo, outline
      ensures repo.Valid()
      ensures repo.users == old(repo.users) && repo.renewals == old(repo.renewals)
      ensures SyncMarked(old(repo.servers), repo.servers, s)
      ensures PolicyKept(old(repo.keys), repo.keys, s)
      ensures LimitsOnly(old(outline.boxes), outline.boxes, s)
      ensures var off := SwitchedOff(server);
        Leads(Syncing, now, SiteOf(s, off, old(repo.keys), old(outline.boxes)),
              SiteOf(s, off, repo.keys, outline.boxes))
      ensures ok ==> AllAdopted(now, s, failed, repo.keys, outline.boxes, SwitchedOff(server))
      ensures !ok ==> repo.keys == old(repo.keys) && outline.boxes == old(outline.boxes) && failed == {}
      ensures !ok && Faults() == old(Faults()) + 1 ==> repo.servers[s].syncFailed
      ensures |failed| + (if ok then 0 else 1) <= Faults() - old(Faults())
      ensures Faults() == old(Faults()) ==>
        && s in old(outline.boxes) && Enumerates(ids, old(outline.boxes)[s].Keys)
        && |repo.snapshots| > 0
        && var last := |repo.snapshots| - 1;
           Metered(now, s, metrics, old(outline.boxes)[s], ids, |ids|, repo.keys, old(repo.snapshots),
                   repo.snapshots[..last])
           && repo.snapshots[last] == UsageSnapshot(s, None, repo.snapshots[last].bytesTotal, now)
           && IsSum(metrics, repo.snapshots[last].bytesTotal)
           && !repo.servers[s].syncFailed
    {
      failed, ids, metrics := {}, [], map[];
      KeepAll(now, s, SwitchedOff(server), [], repo.keys, outline.boxes);
      var report := FetchReport(s);
      if report.None? {
        var _ := repo.MarkServerSynced(s, true);
        return false, {}, [], map[];
      }
      ids, metrics := report.value.0, report.value.1;
      failed := TakeReport(now, s, SwitchedOff(server), report.value.0, report.value.1);
      ok := true;
    }

    /** What a box says it has, and has carried. */
    method FetchReport(s: Id) returns (r: Option<(seq<string>, map<string, int>)>)
      modifies outline`faults
      ensures r.Some? ==> s in outline.boxes && Enumerates(r.value.0, outline.boxes[s].Keys)
      ensures outline.faults == old(outline.faults) + if r.Some? then 0 else 1
    {
      var remoteKeys := outline.ListAccessKeys(s);
      if remoteKeys.Err? { return None; }
      var metrics := outline.GetMetricsTransfer(s);
      r := if metrics.Ok? then Some((remoteKeys.value, metrics.value)) else None;
    }

    method TakeReport(now: Time, s: Id, off: bool, ids: seq<string>, metrics: map<string, int>)
      returns (failed: set<Place>)
      requires repo.Valid() && s in repo.servers && s in outline.boxes && Enumerates(ids, outline.boxes[s].Keys)
      modifies repo, outline
      ensures repo.Valid()
      ensures repo.users == old(repo.users) && repo.renewals == old(repo.renewals)
      ensures SyncMarked(old(repo.servers), repo.servers, s)
      ensures Synced(now, s, off, ids, |ids|, failed, old(repo.keys), repo.keys, old(outline.boxes), outline.boxes)
      ensures AllAdopted(now, s, failed, repo.keys, outline.boxes, off)
      ensures |failed| <= Faults() - old(Faults())
      ensures Faults() == old(Faults()) ==>
        && |repo.snapshots| > 0
        && var last := |repo.snapshots| - 1;
           Metered(now, s, metrics, old(outline.boxes)[s], ids, |ids|, repo.keys, old(repo.snapshots),
                   repo.snapshots[..last])
           && repo.snapshots[last] == UsageSnapshot(s, None, repo.snapshots[last].bytesTotal, now)
           && IsSum(metrics, repo.snapshots[last].bytesTotal)
           && !repo.servers[s].syncFailed
    {
      failed := SyncKeys(now, s, ids, metrics, off);
      SyncEnd(now, s, off, ids, failed, old(repo.keys), repo.keys, old(outline.boxes), outline.boxes);
      ghost var snapshots := repo.snapshots;
      RecordServer(now, s, metrics);
      if Faults() == old(Faults()) { assert repo.snapshots[..|repo.snapshots| - 1] == snapshots; }
    }

    method RecordServer(now: Time, s: Id, metrics: map<string, int>)
      requires repo.Valid() && s in repo.servers
      modifies repo
      ensures repo.Valid()
      ensures repo.keys == old(repo.keys) && repo.users == old(repo.users) && repo.renewals == old(repo.renewals)
      ensures SyncMarked(old(repo.servers), repo.servers, s)
      ensures repo.faults >= old(repo.faults)
      ensures repo.faults == old(repo.faults) ==> exists total ::
        repo.snapshots == old(repo.snapshots) + [UsageSnapshot(s, None, total, now)] && IsSum(metrics, total)
      ensures repo.faults == old(repo.faults) ==> !repo.servers[s].syncFailed
    {
      var names := Enumerate(metrics.Keys);
      forall i | 0 <= i < |names| ensures names[i] in metrics { Listed(names, metrics.Keys, i); }
      var _ := repo.InsertUsageSnapshot(UsageSnapshot(s, None, SumTransfer(metrics, names), now));
      var _ := repo.MarkServerSynced(s, false);
    }

    // -------------------------------------------------------------- the monthly bandwidth cap

    /** Outline's own 30-day total; a failure to read it counts as zero. */
    method LiveBandwidth30d(s: Id) returns (bytes: int)
      modifies outline`faults
      ensures outline.faults == old(outline.faults) || (outline.faults == old(outline.faults) + 1 && bytes == 0)
    {
      var through: bool := *;
      if !through || s !in outline.boxes { outline.faults := outline.faults + 1; return 0; }
      bytes := *;
    }

    /** Whether one server's traffic this month has reached its cap; the tracked figure decides when it is
        complete, and otherwise the larger of it and Outline's own. */
    method CheckUsage(now: Time, s: Id, server: Server)
      returns (reached: bool, ghost known: bool, ghost live: Option<int>)
      requires repo.Valid() && server.bandwidthLimitBytes.Some?
      modifies repo`faults, outline`faults
      ensures repo.Valid() && repo.View() == old(repo.View())
      ensures Faults() >= old(Faults()) + if known then 0 else 1
      ensures !known ==> !reached
      ensures known ==>
        && (reached <==> NearCap(now, repo.snapshots, s, server)
                         || (live.Some? && live.value >= server.bandwidthLimitBytes.value - 2_000_000_000))
        && (live.Some? ==> !MeteredSince(repo.snapshots, s, StartOfMonth(now)))
        && (live.None? && Faults() == old(Faults()) ==> MeteredSince(repo.snapshots, s, StartOfMonth(now)))
    {
      live := None;
      EarliestServerReadingIs(repo.snapshots, s);
      var monthStart := StartOfMonth(now);
      var usage := repo.ServerUsageInRange(s, monthStart, now);
      if usage.Err? { return false, false, None; }
      var used := usage.value;
      var earliest := repo.EarliestServerUsageSnapshot(s);
      if earliest.Ok? && (earliest.value.None? || earliest.value.value > monthStart) {
        var live30d := LiveBandwidth30d(s);
        if live30d > used { used := live30d; }
        live := Some(live30d);
      }
      reached, known := CapReached(server, used), true;
    }

    /** One server's turn in the sweep. */
    method CheckServer(now: Time, s: Id, server: Server)
      returns (ghost checked: bool, ghost pushed: bool, ghost failed: set<Place>)
      requires repo.Valid() && s in repo.servers && repo.servers[s] == server && Live(server)
      modifies repo, outline
      ensures repo.Valid()
      ensures repo.users == old(repo.users) && repo.renewals == old(repo.renewals)
      ensures repo.snapshots == old(repo.snapshots)
      ensures s in repo.servers && repo.servers == old(repo.servers)[s := repo.servers[s]]
      ensures ServerSwept(now, s, server, repo.servers[s], old(repo.keys), repo.keys, old(outline.boxes), outline.boxes,
                          pushed, failed)
      ensures if checked then Checked(now, repo.snapshots, s, server, repo.servers[s]) else repo.servers[s] == server
      ensures |failed| + (if checked then 0 else 1) + (if pushed then 0 else 1) <= Faults() - old(Faults())
    {
      SweptNothing(now, s, repo.keys, outline.boxes);
      checked, pushed, failed := true, true, {};
      if !MayTrip(now, server) {
        LeftAlone(now, repo.snapshots, s, server);
        return;
      }
      var reached;
      ghost var live;
      reached, checked, live := CheckUsage(now, s, server);
      if !reached {
        if checked { LeftAlone(now, repo.snapshots, s, server); }
        return;
      }
      TrippedRightly(now, repo.snapshots, s, server);
      var err := repo.SetServerBandwidthDisabled(s, now);
      if err.Some? { return false, true, {}; }
      var lastErr;
      lastErr, pushed, failed := ReconcileServerKeys(now, s, true);
    }

    /** The loop of the sweep: one server after the other, whatever becomes of each. */
    method CheckServers(now: Time, ids: seq<Id>, rows: map<Id, Server>)
      returns (ghost unchecked: set<Id>, ghost unpushed: set<Id>, ghost failed: set<Place>)
      requires repo.Valid() && repo.servers == rows && Enumerates(ids, set s | s in rows && Live(rows[s]))
      modifies repo, outline
      ensures repo.Valid()
      ensures repo.users == old(repo.users) && repo.renewals == old(repo.renewals)
      ensures repo.snapshots == old(repo.snapshots)
      ensures FleetSwept(now, rows, repo.servers, old(repo.keys), repo.keys, old(outline.boxes), outline.boxes,
                         unpushed, failed)
      ensures forall s <- rows :: s !in unchecked ==>
        s in repo.servers && Checked(now, repo.snapshots, s, rows[s], repo.servers[s])
      ensures |unchecked| + |unpushed| + |failed| <= Faults() - old(Faults())
    {
      unchecked, unpushed, failed := {}, {}, {};
      FleetSweepStart(now, rows, repo.keys, outline.boxes);
      ghost var done: set<Id> := {};
      for i := 0 to |ids|
        invariant repo.Valid()
        invariant repo.users == old(repo.users) && repo.renewals == old(repo.renewals)
        invariant repo.snapshots == old(repo.snapshots)
        invariant done == set j | 0 <= j < i :: ids[j]
        invariant unchecked <= done
        invariant AllChecked(now, repo.snapshots, done, unchecked, rows, repo.servers)
        invariant FleetSwept(now, rows, repo.servers, old(repo.keys), repo.keys, old(outline.boxes), outline.boxes,
                             unpushed, failed)
        invariant |unchecked| + |unpushed| + |failed| <= Faults() - old(Faults())
      {
        Listed(ids, (set s | s in rows && Live(rows[s])), i);
        unchecked, unpushed, failed :=
          CheckNext(now, ids[i], rows, done, unchecked, unpushed, failed, old(repo.keys), old(outline.boxes));
        done := done + {ids[i]};
      }
      assert forall s :: s in rows && Live(rows[s]) ==> s in ids;
      CheckedAll(now, repo.snapshots, done, unchecked, rows, repo.servers);
    }

    method CheckNext(now: Time, s: Id, rows: map<Id, Server>, ghost done: set<Id>, ghost unchecked: set<Id>,
                     ghost unpushed: set<Id>, ghost failed: set<Place>, ghost keys0: map<Id, Key>, ghost boxes0: Boxes)
      returns (ghost nowUnchecked: set<Id>, ghost nowUnpushed: set<Id>, ghost nowFailed: set<Place>)
      requires repo.Valid() && s in rows && Live(rows[s])
      requires s !in done && unchecked <= done
      requires AllChecked(now, repo.snapshots, done, unchecked, rows, repo.servers)
      requires FleetSwept(now, rows, repo.servers, keys0, repo.keys, boxes0, outline.boxes, unpushed, failed)
      modifies repo, outline
      ensures repo.Valid()
      ensures repo.users == old(repo.users) && repo.renewals == old(repo.renewals)
      ensures repo.snapshots == old(repo.snapshots)
      ensures unchecked <= nowUnchecked <= unchecked + {s}
      ensures AllChecked(now, repo.snapshots, done + {s}, nowUnchecked, rows, repo.servers)
      ensures FleetSwept(now, rows, repo.servers, keys0, repo.keys, boxes0, outline.boxes, nowUnpushed, nowFailed)
      ensures |nowUnchecked| + |nowUnpushed| + |nowFailed|
              <= |unchecked| + |unpushed| + |failed| + Faults() - old(Faults())
    {
      ghost var servers, keys, boxes := repo.servers, repo.keys, outline.boxes;
      assert TurnTaken(now, repo.snapshots, done, unchecked, s, rows[s], servers[s]);
      ghost var checked, pushed, missed;
      checked, pushed, missed := CheckServer(now, s, rows[s]);
      CheckedMore(now, repo.snapshots, done, unchecked, s, !checked, rows, servers, repo.servers);
      FleetSweepStep(now, s, rows, servers, repo.servers, keys0, keys, repo.keys, boxes0, boxes, outline.boxes,
                     unpushed, failed, pushed, missed);
      nowUnchecked := unchecked + if !checked then {s} else {};
      nowUnpushed := unpushed + if pushed then {} else {s};
      nowFailed := failed + missed;
    }

    /**
      Trips every server due, and zeroes every limit on it at once. A call that fails costs one server its
      check, one tripped server its pushes, or one key its push; nothing but what trips is touched.
    */
    method CheckBandwidthLimits(now: Time)
      returns (ghost listed: bool, ghost unchecked: set<Id>, ghost unpushed: set<Id>, ghost failed: set<Place>)
      requires repo.Valid()
      modifies repo, outline
      ensures repo.Valid()
      ensures repo.users == old(repo.users) && repo.renewals == old(repo.renewals)
      ensures repo.snapshots == old(repo.snapshots)
      ensures FleetSwept(now, old(repo.servers), repo.servers, old(repo.keys), repo.keys, old(outline.boxes),
                         outline.boxes, unpushed, failed)
      ensures listed ==> forall s <- old(repo.servers) :: s !in unchecked ==>
        s in repo.servers && Checked(now, repo.snapshots, s, old(repo.servers)[s], repo.servers[s])
      ensures (if listed then 0 else 1) + |unchecked| + |unpushed| + |failed| <= Faults() - old(Faults())
      ensures !listed ==> repo.View() == old(repo.View()) && Faults() == old(Faults()) + 1
    {
      listed, unchecked, unpushed, failed := false, {}, {}, {};
      FleetSweepStart(now, repo.servers, repo.keys, outline.boxes);
      var ids := repo.ListAllServers();
      if ids.Err? { return; }
      listed := true;
      unchecked, unpushed, failed := CheckServers(now, ids.value, repo.servers);
    }

    // -------------------------------------------------------------- renewals

    /** Saves the new limit and end date, then raises the price if the server's default has overtaken it. */
    method SaveRenewal(now: Time, id: Id, grant: Option<int>, addDays: int) returns (server: Option<Server>)
      requires repo.Valid()
      modifies repo
      ensures repo.Valid() && OnlyKeysAndLimits()
      ensures RenewSaved(now, id, old(repo.keys), repo.keys, repo.servers, grant, addDays,
                         repo.faults - old(repo.faults))
      ensures server.Some? ==>
        && repo.faults == old(repo.faults) && id in old(repo.keys) && id in repo.keys
        && var s := old(repo.keys[id]).serverID;
           s in repo.servers && Live(repo.servers[s]) && server.value == repo.servers[s]
           && repo.keys[id] == Renewed(now, old(repo.keys[id]), server.value, grant, addDays)
      ensures server.None? && repo.faults == old(repo.faults) && id in old(repo.keys) ==>
        var s := old(repo.keys[id]).serverID; !(s in repo.servers && Live(repo.servers[s]))
      ensures id in old(repo.keys) ==>
        && id in repo.keys
        && var row := repo.keys[id];
           row == old(repo.keys[id]).(limitBytes := row.limitBytes, endDate := row.endDate, priceMmk := row.priceMmk)
    {
      server := None;
      var found := repo.GetKey(id);
      if found.Err? { return; }
      var key := found.value;
      var (limit, end) := RenewalTarget(now, key, grant, addDays);
      var err := repo.SetKeyLimitAndEndDate(id, limit, end);
      if err.None? { server := CatchUpPrice(id, key); }
    }

    /** Raises a set price to the server's default if that has overtaken it. */
    method CatchUpPrice(id: Id, key: Key) returns (server: Option<Server>)
      requires repo.Valid() && id in repo.keys && repo.keys[id].priceMmk == key.priceMmk
      modifies repo
      ensures repo.Valid() && OnlyKeysAndLimits() && repo.faults >= old(repo.faults)
      ensures id in repo.keys
      ensures server.Some? ==>
        && repo.faults == old(repo.faults)
        && key.serverID in repo.servers && Live(repo.servers[key.serverID])
        && server.value == repo.servers[key.serverID]
        && repo.keys == old(repo.keys)[id := old(repo.keys[id]).(
             priceMmk := RaisedPrice(key.priceMmk, server.value.defaultPriceMmk))]
      ensures server.None? ==> repo.keys == old(repo.keys)
      ensures server.None? && repo.faults == old(repo.faults) ==>
        !(key.serverID in repo.servers && Live(repo.servers[key.serverID]))
    {
      var site := repo.GetServer(key.serverID);
      if site.Err? { return None; }
      var price, err := site.value.defaultPriceMmk, None;
      if key.priceMmk.Some? && price.Some? && price.value > key.priceMmk.value {
        err := repo.SetKeyPrice(id, price);
      }
      server := if err.None? then Some(site.value) else None;
    }

    /** Computes the target, persists it, logs it, and pushes the result. */
    method RenewKey(now: Time, id: Id, addGB: real, addDays: int, paid: bool) returns (r: RenewOutcome)
      requires repo.Valid()
      modifies repo, outline
      ensures repo.Valid()
      ensures repo.users == old(repo.users) && repo.servers == old(repo.servers)
      ensures repo.snapshots == old(repo.snapshots)
      ensures RenewSaved(now, id, old(repo.keys), repo.keys, repo.servers, Grant(fl, addGB), addDays,
                         Faults() - old(Faults()))
      ensures RenewLogged(old(repo.renewals), repo.renewals, id, repo.keys, repo.servers, addGB, addDays, paid, r)
      ensures !r.Failed? ==>
        && id in old(repo.keys) && id in repo.keys
        && WhollyRenewed(now, old(repo.keys[id]), repo.keys[id], repo.servers, Grant(fl, addGB), addDays)
        && ToppedUp(fl, now, old(repo.keys[id]), repo.keys[id], addGB, addDays)
        && PriceCaughtUp(old(repo.keys[id]).priceMmk, repo.keys[id].priceMmk,
                         repo.servers[repo.keys[id].serverID].defaultPriceMmk)
      ensures Faults() == old(Faults()) && id in old(repo.keys) ==>
        var s := old(repo.keys[id]).serverID; s in repo.servers && Live(repo.servers[s]) ==> !r.Failed?
      ensures RenewPushed(now, id, repo.keys, repo.servers, old(outline.boxes), outline.boxes, Faults() - old(Faults()))
      ensures LedBy(Renewing, now, repo.servers, id, old(repo.keys), repo.keys, old(outline.boxes), outline.boxes)
      ensures id in old(repo.keys) ==>
        KeptInStep(now, old(repo.servers), repo.servers, old(repo.keys), repo.keys, old(outline.boxes), outline.boxes,
                   Among(Faults() > old(Faults()), old(repo.keys[id])))
    {
      ghost var keys, boxes, faults := repo.keys, outline.boxes, Faults();
      ghost var saved;
      r, saved := RenewAndPush(now, id, addGB, addDays, paid);
      if id in keys {
        RenewedInStep(now, id, repo.servers, keys, saved, repo.keys, boxes, outline.boxes, Faults() > faults);
      }
      if !r.Failed? { RenewalMeans(fl, now, keys[id], repo.keys[id], repo.servers, addGB, addDays); }
    }

    /** The renewal itself; `saved` is the row as it was saved, before the push brought its caches up to date. */
    method RenewAndPush(now: Time, id: Id, addGB: real, addDays: int, paid: bool)
      returns (r: RenewOutcome, ghost saved: Key)
      requires repo.Valid()
      modifies repo, outline
      ensures repo.Valid()
      ensures repo.users == old(repo.users) && repo.servers == old(repo.servers)
      ensures repo.snapshots == old(repo.snapshots)
      ensures RenewSaved(now, id, old(repo.keys), repo.keys, repo.servers, Grant(fl, addGB), addDays,
                         Faults() - old(Faults()))
      ensures RenewLogged(old(repo.renewals), repo.renewals, id, repo.keys, repo.servers, addGB, addDays, paid, r)
      ensures !r.Failed? ==>
        && id in old(repo.keys) && id in repo.keys
        && WhollyRenewed(now, old(repo.keys[id]), repo.keys[id], repo.servers, Grant(fl, addGB), addDays)
      ensures Faults() == old(Faults()) && id in old(repo.keys) ==>
        var s := old(repo.keys[id]).serverID; s in repo.servers && Live(repo.servers[s]) ==> !r.Failed?
      ensures RenewPushed(now, id, repo.keys, repo.servers, old(outline.boxes), outline.boxes, Faults() - old(Faults()))
      ensures id in old(repo.keys) ==>
        var key := old(repo.keys[id]);
        && saved == key.(limitBytes := saved.limitBytes, endDate := saved.endDate, priceMmk := saved.priceMmk)
        && id in repo.keys
        && PassedOver(now, OffAt(repo.servers, key.serverID), saved, repo.keys[id], old(outline.boxes), outline.boxes)
    {
      saved := *;
      var server := SaveRenewal(now, id, Grant(fl, addGB), addDays);
      if id in repo.keys { saved := repo.keys[id]; }
      if server.None? { return Failed, saved; }
      var row := repo.keys[id];
      r := LogAndPush(now, id, RenewalLog(id, addGB, addDays, row.limitBytes, row.endDate, paid,
                                          Coalesce(row.priceMmk, server.value.defaultPriceMmk)));
    }

    method LogAndPush(now: Time, id: Id, entry: RenewalLog) returns (r: RenewOutcome)
      requires repo.Valid() && id in repo.keys && entry.keyID == id
      modifies repo, outline
      ensures repo.Valid()
      ensures repo.users == old(repo.users) && repo.servers == old(repo.servers)
      ensures repo.snapshots == old(repo.snapshots)
      ensures (r.Failed? && repo.renewals == old(repo.renewals)) || repo.renewals == old(repo.renewals) + [entry]
      ensures !r.Failed? ==> repo.renewals == old(repo.renewals) + [entry]
      ensures id in repo.keys && repo.keys == old(repo.keys)[id := repo.keys[id]]
      ensures repo.keys[id] == old(repo.keys[id]) || repo.keys[id] == Reconciled(now, old(repo.keys[id]))
      ensures RenewPushed(now, id, repo.keys, repo.servers, old(outline.boxes), outline.boxes, Faults() - old(Faults()))
      ensures Faults() == old(Faults()) ==> !r.Failed?
      ensures PassedOver(now, OffAt(repo.servers, old(repo.keys[id]).serverID), old(repo.keys[id]), repo.keys[id],
                         old(outline.boxes), outline.boxes)
    {
      var err := repo.InsertRenewalLog(entry);
      if err.Some? { return Failed; }
      r := PushRenewal(now, id);
    }

    /** The tail of a renewal: nothing more is saved, only pushed and read back. */
    method PushRenewal(now: Time, id: Id) returns (r: RenewOutcome)
      requires repo.Valid() && id in repo.keys
      modifies repo, outline
      ensures repo.Valid() && OnlyKeysAndLimits()
      ensures id in repo.keys && repo.keys == old(repo.keys)[id := repo.keys[id]]
      ensures repo.keys[id] == old(repo.keys[id]) || repo.keys[id] == Reconciled(now, old(repo.keys[id]))
      ensures RenewPushed(now, id, repo.keys, repo.servers, old(outline.boxes), outline.boxes, Faults() - old(Faults()))
      ensures Faults() == old(Faults()) ==> !r.Failed?
      ensures PassedOver(now, OffAt(repo.servers, old(repo.keys[id]).serverID), old(repo.keys[id]), repo.keys[id],
                         old(outline.boxes), outline.boxes)
    {
      var err := ReconcileKeyByID(now, id);
      var updated := repo.GetKey(id);
      if updated.Err? { return Failed; }
      r := if err.None? then Done else PushFailed;
    }

    /**
      One opted-in key's turn in the sweep. `memo` caches each server's grant for the batch; `fell` says that
      the server's default could not be looked up, `stuck` that a call of the renewal itself failed.
    */
    method AutoRenewKey(now: Time, id: Id, key: Key, memo: map<Id, real>, ghost fallback: set<Id>)
      returns (newMemo: map<Id, real>, ghost fell: bool, ghost stuck: bool)
      requires repo.Valid() && id in repo.keys && repo.keys[id] == key && key.autoRenew
      requires MemoRight(fl, memo, repo.servers, fallback)
      modifies repo, outline
      ensures repo.Valid()
      ensures repo.users == old(repo.users) && repo.servers == old(repo.servers)
      ensures repo.snapshots == old(repo.snapshots)
      ensures id in repo.keys && repo.keys == old(repo.keys)[id := repo.keys[id]]
      ensures memo.Keys <= newMemo.Keys && forall s <- memo :: newMemo[s] == memo[s]
      ensures MemoRight(fl, newMemo, repo.servers, fallback + (if fell then {key.serverID} else {}))
      ensures KeyRenewed(fl, now, repo.servers, newMemo, stuck, key, repo.keys[id], old(outline.boxes), outline.boxes)
      ensures TurnLogged(now, repo.servers, newMemo, id, key, repo.keys[id], stuck, old(repo.renewals), repo.renewals)
      ensures (if fell then 1 else 0) + (if stuck then 1 else 0) <= Faults() - old(Faults())
    {
      newMemo, fell, stuck := memo, false, false;
      ThresholdIsRunningLow(now, key);
      if !CrossesThreshold(Derive(now, key)) { return; }
      var addGB;
      addGB, newMemo, fell := GrantFor(key.serverID, memo, fallback);
      ghost var keys, boxes, faults := repo.keys, outline.boxes, Faults();
      var r := RenewKey(now, id, addGB, MIN_PLAN_DAYS, false);
      stuck := Faults() > faults;
      RenewalIsTurn(fl, now, repo.servers, newMemo, id, keys, repo.keys, boxes, outline.boxes, Faults() - faults);
    }

    /** What an automatic renewal on server s grants, looked up once per sweep, come what may. */
    method GrantFor(s: Id, memo: map<Id, real>, ghost fallback: set<Id>)
      returns (addGB: real, newMemo: map<Id, real>, ghost fell: bool)
      requires repo.Valid() && MemoRight(fl, memo, repo.servers, fallback)
      modifies repo`faults
      ensures repo.Valid() && repo.faults >= old(repo.faults) + if fell then 1 else 0
      ensures memo.Keys <= newMemo.Keys && forall s <- memo :: newMemo[s] == memo[s]
      ensures MemoRight(fl, newMemo, repo.servers, fallback + (if fell then {s} else {}))
      ensures s in newMemo && newMemo[s] == addGB
      ensures addGB == AutoGB(fl, repo.servers, s) <==>
        s !in fallback + (if fell then {s} else {}) || AutoGB(fl, repo.servers, s) == MIN_PLAN_GB
    {
      fell := false;
      if s in memo { return memo[s], memo, false; }
      addGB := MIN_PLAN_GB;
      var server := repo.GetServer(s);
      if server.Ok? && server.value.defaultLimitBytes.Some? {
        addGB := GBOfBytes(fl, server.value.defaultLimitBytes.value);
      }
      fell := server == Err(Unavailable);
      newMemo := memo[s := addGB];
    }

    /** One opted-in key's turn, in the sweep and in the fleet. */
    method AutoRenewNext(now: Time, id: Id, rows: map<Id, Key>, memo: map<Id, real>, ghost done: set<Id>,
                         ghost fallback: set<Id>, ghost lost: set<Place>, ghost boxes0: Boxes,
                         ghost renewals0: seq<RenewalLog>)
      returns (newMemo: map<Id, real>, ghost nowFallback: set<Id>, ghost nowLost: set<Place>)
      requires repo.Valid() && id in rows && rows[id].autoRenew
      requires id !in done && MemoRight(fl, memo, repo.servers, fallback)
      requires AutoSwept(fl, now, repo.servers, memo, lost, done, rows, repo.keys, boxes0, outline.boxes)
      requires AutoLogged(now, repo.servers, memo, lost, done, rows, repo.keys, renewals0, repo.renewals)
      modifies repo, outline
      ensures repo.Valid()
      ensures repo.users == old(repo.users) && repo.servers == old(repo.servers)
      ensures repo.snapshots == old(repo.snapshots)
      ensures MemoRight(fl, newMemo, repo.servers, nowFallback)
      ensures AutoSwept(fl, now, repo.servers, newMemo, nowLost, done + {id}, rows, repo.keys, boxes0, outline.boxes)
      ensures AutoLogged(now, repo.servers, newMemo, nowLost, done + {id}, rows, repo.keys, renewals0, repo.renewals)
      ensures |nowFallback| + |nowLost| <= |fallback| + |lost| + Faults() - old(Faults())
    {
      ghost var db, boxes, fell, stuck := repo.View(), outline.boxes, false, false;
      assert AutoTurn(fl, now, repo.servers, memo, lost, done, id, rows[id], repo.keys[id], boxes0, boxes);
      newMemo, fell, stuck := AutoRenewKey(now, id, rows[id], memo, fallback);
      AutoSweepStep(fl, now, db, memo, newMemo, lost, done, id, stuck, rows, repo.keys, boxes0, boxes, outline.boxes);
      AutoLogStep(now, repo.servers, memo, newMemo, lost, done, id, stuck, rows, db.keys, repo.keys, renewals0,
                  db.renewals, repo.renewals);
      nowFallback := fallback + if fell then {rows[id].serverID} else {};
      nowLost := lost + Among(stuck, rows[id]);
    }

    /**
      Tops up every opted-in key running low. A call that fails costs one key its renewal or its push, or has
      one server counted as one without a default; keys not due are left alone, on record and on their boxes.
    */
    method AutoRenewKeys(now: Time) returns (ghost listed: bool, ghost fallback: set<Id>, ghost lost: set<Place>)
      requires repo.Valid()
      modifies repo, outline
      ensures repo.Valid()
      ensures repo.users == old(repo.users) && repo.servers == old(repo.servers)
      ensures repo.snapshots == old(repo.snapshots)
      ensures listed ==>
        && FleetRenewed(fl, now, repo.servers, fallback, lost, old(repo.keys), repo.keys, old(outline.boxes),
                        outline.boxes)
        && SweepLogged(fl, now, repo.servers, fallback, lost, old(repo.keys), repo.keys, old(repo.renewals),
                       repo.renewals)
      ensures !listed ==>
        repo.View() == old(repo.View()) && outline.boxes == old(outline.boxes) && Faults() == old(Faults()) + 1
      ensures (if listed then 0 else 1) + |fallback| + |lost| <= Faults() - old(Faults())
    {
      listed, fallback, lost := false, {}, {};
      var ids := repo.ListKeysWithAutoRenew();
      if ids.Err? { return; }
      listed := true;
      fallback, lost := AutoRenewEach(now, ids.value, repo.keys);
    }

    method AutoRenewEach(now: Time, ids: seq<Id>, rows: map<Id, Key>)
      returns (ghost fallback: set<Id>, ghost lost: set<Place>)
      requires repo.Valid() && repo.keys == rows && Enumerates(ids, set k | k in rows && rows[k].autoRenew)
      modifies repo, outline
      ensures repo.Valid()
      ensures repo.users == old(repo.users) && repo.servers == old(repo.servers)
      ensures repo.snapshots == old(repo.snapshots)
      ensures FleetRenewed(fl, now, repo.servers, fallback, lost, rows, repo.keys, old(outline.boxes), outline.boxes)
      ensures SweepLogged(fl, now, repo.servers, fallback, lost, rows, repo.keys, old(repo.renewals), repo.renewals)
      ensures |fallback| + |lost| <= Faults() - old(Faults())
    {
      fallback, lost := {}, {};
      var memo: map<Id, real> := map[];
      ghost var done: set<Id> := {};
      ghost var due := set k | k in rows && rows[k].autoRenew;
      AutoSweepStart(fl, now, repo.servers, rows, outline.boxes);
      AutoLogStart(now, repo.servers, rows, repo.renewals);
      for i := 0 to |ids|
        invariant repo.Valid()
        invariant repo.users == old(repo.users) && repo.servers == old(repo.servers)
        invariant repo.snapshots == old(repo.snapshots)
        invariant done == set j | 0 <= j < i :: ids[j]
        invariant MemoRight(fl, memo, repo.servers, fallback)
        invariant AutoSwept(fl, now, repo.servers, memo, lost, done, rows, repo.keys, old(outline.boxes), outline.boxes)
        invariant AutoLogged(now, repo.servers, memo, lost, done, rows, repo.keys, old(repo.renewals), repo.renewals)
        invariant |fallback| + |lost| <= Faults() - old(Faults())
      {
        Listed(ids, due, i);
        memo, fallback, lost := AutoRenewNext(now, ids[i], rows, memo, done, fallback, lost, old(outline.boxes),
                                              old(repo.renewals));
        done := done + {ids[i]};
      }
      assert done == due by { assert forall k :: k in due ==> k in ids; }
      AutoSweepEnd(fl, now, repo.servers, memo, fallback, lost, done, rows, repo.keys, old(outline.boxes),
                   outline.boxes);
      StillOptedIn(fl, now, repo.servers, fallback, lost, rows, repo.keys, old(outline.boxes), outline.boxes);
      AutoLogEnd(fl, now, repo.servers, memo, fallback, lost, done, rows, repo.keys, old(repo.renewals), repo.renewals);
    }

    // -------------------------------------------------------------- the tick

    /** One live server's turn: what was in step before it stays so, and so gets this one as far as it is reached. */
    method SyncNext(now: Time, s: Id, rows: map<Id, Server>, ghost keys0: map<Id, Key>, ghost done: set<Id>,
                    ghost unreached: set<Id>, ghost lost: set<Place>)
      returns (ghost nowUnreached: set<Id>, ghost nowLost: set<Place>)
      requires repo.Valid() && s in rows && Live(rows[s]) && s !in done
      requires FleetKept(rows, repo.servers, keys0, repo.keys)
      requires ConvergedOn(now, done, repo.servers, repo.keys, outline.boxes, unreached, lost)
      modifies repo, outline
      ensures repo.Valid()
      ensures repo.users == old(repo.users) && repo.renewals == old(repo.renewals)
      ensures FleetKept(rows, repo.servers, keys0, repo.keys)
      ensures ConvergedOn(now, done + {s}, repo.servers, repo.keys, outline.boxes, nowUnreached, nowLost)
      ensures |nowUnreached| + |nowLost| <= |unreached| + |lost| + Faults() - old(Faults())
    {
      ghost var servers, keys, boxes := repo.servers, repo.keys, outline.boxes;
      assert SameSite(rows[s], servers[s]);
      var ok, failed, ids, metrics := SyncServer(now, s, rows[s]);
      SyncKeepsFleet(s, rows, servers, repo.servers, keys0, keys, repo.keys);
      SyncConverges(now, s, done, unreached, lost, ok, failed, servers, repo.servers, keys, repo.keys, boxes,
                    outline.boxes);
      nowUnreached := unreached + if ok then {} else {s};
      nowLost := lost + failed;
    }

    /**
      Syncs every live server in turn. A server that cannot be reached does not stop the others, nor a key
      that fails the other keys: unless the servers could not be listed, no more are missed than calls failed.
    */
    method SyncAll(now: Time) returns (listed: bool, ghost unreached: set<Id>, ghost lost: set<Place>)
      requires repo.Valid()
      modifies repo, outline
      ensures repo.Valid()
      ensures repo.users == old(repo.users) && repo.renewals == old(repo.renewals)
      ensures FleetKept(old(repo.servers), repo.servers, old(repo.keys), repo.keys)
      ensures listed ==> ConvergedBut(now, repo.servers, repo.keys, outline.boxes, unreached, lost)
      ensures !listed ==>
        repo.View() == old(repo.View()) && outline.boxes == old(outline.boxes) && Faults() == old(Faults()) + 1
      ensures (if listed then 0 else 1) + |unreached| + |lost| <= Faults() - old(Faults())
    {
      KeptAll(repo.servers, repo.keys);
      unreached, lost := {}, {};
      var ids := repo.ListAllServers();
      listed := ids.Ok?;
      if !listed { return; }
      var rows := repo.servers;
      ghost var keys0 := repo.keys;
      ghost var done: set<Id> := {};
      for i := 0 to |ids.value|
        invariant repo.Valid()
        invariant repo.users == old(repo.users) && repo.renewals == old(repo.renewals)
        invariant done == set j | 0 <= j < i :: ids.value[j]
        invariant FleetKept(rows, repo.servers, keys0, repo.keys)
        invariant ConvergedOn(now, done, repo.servers, repo.keys, outline.boxes, unreached, lost)
        invariant |unreached| + |lost| <= Faults() - old(Faults())
      {
        var s := ids.value[i];
        Listed(ids.value, (set t | t in rows && Live(rows[t])), i);
        unreached, lost := SyncNext(now, s, rows, keys0, done, unreached, lost);
        done := done + {s};
      }
      assert forall s :: s in rows && Live(rows[s]) ==> s in ids.value;
      ConvergedEverywhere(now, done, rows, repo.servers, repo.keys, outline.boxes, unreached, lost);
    }

    /**
      One tick, from any rows and any limits on the boxes. Whatever calls fail, the rest of the tick does its
      work: apart from the losses, which are no more than the calls that failed, every key on the box of every
      live server ends up known and under the limit its row and its server's switch call for; no server due is
      left untripped, and no opted-in key granted more than 3 GB is left running low.
    */
    method RunOnce(now: Time) returns (ghost l: Losses)
      requires repo.Valid()
      modifies repo, outline
      ensures repo.Valid() && repo.users == old(repo.users)
      ensures l.Count() <= Faults() - old(Faults())
      ensures !l.listed ==> repo.View() == old(repo.View()) && outline.boxes == old(outline.boxes)
      ensures l.listed ==> ConvergedBut(now, repo.servers, repo.keys, outline.boxes, l.unreached, l.lost)
      ensures l.listed ==> forall k <- repo.keys :: RowInStep(now, k, l)
      ensures l.listed && l.swept ==>
        forall s <- repo.servers :: s !in l.unchecked ==> !Due(now, repo.snapshots, s, repo.servers[s])
      ensures l.listed && l.renewed ==> forall k <- repo.keys :: RowNotLow(now, k, l)
      ensures l.listed ==>
        TickedSince(fl, now, repo.servers, l, old(repo.keys), repo.keys, old(repo.renewals), repo.renewals)
      ensures repo.servers.Keys == old(repo.servers).Keys
      ensures forall s <- old(repo.servers) :: SiteTicked(now, old(repo.servers)[s], repo.servers[s])
      ensures Faults() == old(Faults()) ==> Converged(now, repo.servers, repo.keys, outline.boxes)
    {
      var listed;
      ghost var unreached, lost;
      listed, unreached, lost := SyncAll(now);
      l := Losses(listed, true, true, unreached, {}, {}, lost);
      if !listed { return; }
      ghost var servers1, keys1 := repo.servers, repo.keys;
      l := SweepFleet(now, l);
      TickedEarlier(fl, now, repo.servers, l, old(repo.keys), keys1, repo.keys, old(repo.renewals), repo.renewals);
      SitesTick(now, old(repo.servers), servers1, repo.servers);
      if l.Count() == 0 { NoLosses(l); }
    }

    /** A row of a live server that was reached agrees with its box, unless it is among the losses itself. */
    ghost predicate RowInStep(now: Time, k: Id, l: Losses)
      reads repo, outline
      requires k in repo.keys
    {
      var row := repo.keys[k];
      var s, o := row.serverID, row.outlineID;
      && s in repo.servers && repo.servers[s].deletedAt.None? && s !in l.unreached && (s, o) !in l.lost
      && s in outline.boxes && o in outline.boxes[s] ==>
        HeldTo(now, row, outline.boxes[s][o].limit, repo.servers[s].bandwidthDisabledAt.Some?)
    }

    /** A row that had a sufficient grant coming is not running low, unless it is among the losses. */
    ghost predicate RowNotLow(now: Time, k: Id, l: Losses)
      reads repo
      requires k in repo.keys
    {
      GrantsEnough(fl, repo.servers, l.fallback, repo.keys[k].serverID) && PlaceOf(repo.keys[k]) !in l.lost ==>
        !AutoDue(now, repo.keys[k])
    }

    /** The sweeps of a tick, after the syncs. */
    method SweepFleet(now: Time, ghost synced: Losses) returns (ghost l: Losses)
      requires repo.Valid() && synced == Losses(true, true, true, synced.unreached, {}, {}, synced.lost)
      requires ConvergedBut(now, repo.servers, repo.keys, outline.boxes, synced.unreached, synced.lost)
      modifies repo, outline
      ensures repo.Valid() && l.listed && repo.users == old(repo.users)
      ensures l.Count() <= synced.Count() + Faults() - old(Faults())
      ensures ConvergedBut(now, repo.servers, repo.keys, outline.boxes, l.unreached, l.lost)
      ensures forall k <- repo.keys :: RowInStep(now, k, l)
      ensures TripsOnly(now, old(repo.servers), repo.servers)
      ensures l.swept ==> forall s <- repo.servers :: s !in l.unchecked ==>
        !Due(now, repo.snapshots, s, repo.servers[s])
      ensures l.renewed ==> forall k <- repo.keys :: RowNotLow(now, k, l)
      ensures TickedSince(fl, now, repo.servers, l, old(repo.keys), repo.keys, old(repo.renewals), repo.renewals)
    {
      ghost var servers0, keys0, boxes0 := repo.servers, repo.keys, outline.boxes;
      ghost var swept, unchecked, unpushed, failed;
      swept, unchecked, unpushed, failed := CheckBandwidthLimits(now);
      SweepKeepsConverged(now, servers0, repo.servers, keys0, repo.keys, boxes0, outline.boxes,
                          synced.unreached, synced.lost, unpushed, failed);
      l := Losses(true, swept, true, synced.unreached + unpushed, unchecked, {}, synced.lost + failed);
      if swept {
        forall s <- repo.servers | s !in unchecked ensures !Due(now, repo.snapshots, s, repo.servers[s]) {
          CheckedIsNotDue(now, repo.snapshots, s, servers0[s], repo.servers[s]);
        }
      }
      ghost var keys1 := repo.keys;
      SweptKeepsTerms(now, servers0, repo.servers, keys0, keys1, boxes0, outline.boxes, unpushed, failed);
      l := RenewFleet(now, l);
      TickedEarlier(fl, now, repo.servers, l, keys0, keys1, repo.keys, old(repo.renewals), repo.renewals);
    }

    /** The renewals of a tick, after the other sweeps. */
    method RenewFleet(now: Time, ghost earlier: Losses) returns (ghost l: Losses)
      requires repo.Valid() && earlier.listed && earlier.renewed && earlier.fallback == {}
      requires ConvergedBut(now, repo.servers, repo.keys, outline.boxes, earlier.unreached, earlier.lost)
      modifies repo, outline
      ensures repo.Valid() && repo.users == old(repo.users)
      ensures repo.servers == old(repo.servers) && repo.snapshots == old(repo.snapshots)
      ensures l == earlier.(renewed := l.renewed, fallback := l.fallback, lost := l.lost)
      ensures l.Count() <= earlier.Count() + Faults() - old(Faults())
      ensures ConvergedBut(now, repo.servers, repo.keys, outline.boxes, l.unreached, l.lost)
      ensures forall k <- repo.keys :: RowInStep(now, k, l)
      ensures l.renewed ==> forall k <- repo.keys :: RowNotLow(now, k, l)
      ensures TickedSince(fl, now, repo.servers, l, old(repo.keys), repo.keys, old(repo.renewals), repo.renewals)
    {
      ghost var keys0, boxes0 := repo.keys, outline.boxes;
      ghost var renewed, fallback, failed;
      renewed, fallback, failed := AutoRenewKeys(now);
      l := earlier.(renewed := renewed, fallback := fallback, lost := earlier.lost + failed);
      if renewed {
        RenewalsKeepConverged(fl, now, repo.servers, fallback, earlier.unreached, earlier.lost, failed,
                              keys0, repo.keys, boxes0, outline.boxes);
        NotLowRows(now, l, failed, keys0, boxes0);
        RenewalsTick(fl, now, repo.servers, l, failed, keys0, repo.keys, boxes0, outline.boxes, old(repo.renewals),
                     repo.renewals);
      } else {
        NothingTicked(fl, now, repo.servers, l, repo.keys, repo.renewals);
      }
      RowsInStep(now, l);
    }

    lemma RowsInStep(now: Time, l: Losses)
      requires repo.Valid() && ConvergedBut(now, repo.servers, repo.keys, outline.boxes, l.unreached, l.lost)
      ensures forall k <- repo.keys :: RowInStep(now, k, l)
    {
      forall k <- repo.keys ensures RowInStep(now, k, l) {
        var s := repo.keys[k].serverID;
        if s in repo.servers && Live(repo.servers[s]) && s !in l.unreached && PlaceOf(repo.keys[k]) !in l.lost {
          ConvergedRowsSettled(now, repo.View(), outline.boxes, l.unreached, l.lost, k);
        }
      }
    }

    lemma NotLowRows(now: Time, l: Losses, failed: set<Place>, keys0: map<Id, Key>, boxes0: Boxes)
      requires failed <= l.lost
      requires FleetRenewed(fl, now, repo.servers, l.fallback, failed, keys0, repo.keys, boxes0, outline.boxes)
      ensures forall k <- repo.keys :: RowNotLow(now, k, l)
    {
      forall k <- repo.keys ensures RowNotLow(now, k, l) {
        assert RowRenewed(fl, now, repo.servers, l.fallback, failed, keys0[k], repo.keys[k], boxes0, outline.boxes);
        if GrantsEnough(fl, repo.servers, l.fallback, repo.keys[k].serverID) && PlaceOf(repo.keys[k]) !in l.lost {
          NotLowAfterSweep(fl, now, repo.servers, l.fallback, keys0[k], repo.keys[k]);
        }
      }
    }
  }
}
