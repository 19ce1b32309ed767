/**
  Bandwidth over a date range, derived from cumulative counter readings.

  Outline's counters restart when a key is recreated or its server restarts, so a later reading may be
  lower than an earlier one; the query clamps each key's difference at zero.
*/
module Usage {
  import opened Wrappers
  import opened Calendar
  import opened Models

  // ---------------------------------------------------------------- the query

  datatype Reading = Reading(at: Time, bytes: int)

  /** One key's readings, in log order. */
  function ReadingsOf(snapshots: seq<UsageSnapshot>, key: Id): seq<Reading> {
    if snapshots == [] then []
    else
      (if snapshots[0].keyID == Some(key) then [Reading(snapshots[0].recordedAt, snapshots[0].bytesTotal)] else [])
      + ReadingsOf(snapshots[1..], key)
  }

  /** The most recent reading at or before t; among equally recent ones, the one logged last. */
  function LatestIndex(rs: seq<Reading>, t: Time): (r: Option<nat>)
    ensures r.Some? ==> r.value < |rs| && rs[r.value].at <= t
    ensures r.None? ==> forall i | 0 <= i < |rs| :: rs[i].at > t
    ensures r.Some? ==> forall i | 0 <= i < |rs| && rs[i].at <= t :: rs[i].at <= rs[r.value].at
  {
    if rs == [] then None
    else
      var n := |rs| - 1;
      var before := LatestIndex(rs[..n], t);
      if rs[n].at <= t && (before.None? || rs[before.value].at <= rs[n].at) then Some(n) else before
  }

  /** The oldest reading of all; among equally old ones, the one logged first. */
  function EarliestIndex(rs: seq<Reading>): (r: nat)
    requires rs != []
    ensures r < |rs| && forall i | 0 <= i < |rs| :: rs[r].at <= rs[i].at
  {
    if |rs| == 1 then 0
    else
      var n := |rs| - 1;
      var before := EarliestIndex(rs[..n]);
      if rs[n].at < rs[before].at then n else before
  }

  function StartIndex(rs: seq<Reading>, from: Time): nat
    requires rs != []
  {
    LatestIndex(rs, from).GetOr(EarliestIndex(rs))
  }

  /** The most recent reading at or before `from`, else the earliest reading, else zero. */
  function StartValue(rs: seq<Reading>, from: Time): int {
    if rs == [] then 0 else rs[StartIndex(rs, from)].bytes
  }

  /** The most recent reading at or before `to`, else zero. */
  function EndValue(rs: seq<Reading>, to: Time): int {
    var i := LatestIndex(rs, to);
    if i.Some? then rs[i.value].bytes else 0
  }

  function AtLeastZero(n: int): int { if n < 0 then 0 else n }

  function KeyUsage(rs: seq<Reading>, from: Time, to: Time): int {
    AtLeastZero(EndValue(rs, to) - StartValue(rs, from))
  }

  /** SELECT DISTINCT key_id ... WHERE server_id = server */
  function KeysSeen(snapshots: seq<UsageSnapshot>, server: Id): seq<Id> {
    if snapshots == [] then []
    else
      var n := |snapshots| - 1;
      var before := KeysSeen(snapshots[..n], server);
      if snapshots[n].serverID == server && snapshots[n].keyID.Some? && snapshots[n].keyID.value !in before
      then before + [snapshots[n].keyID.value] else before
  }

  function UsageOfKeys(snapshots: seq<UsageSnapshot>, keys: seq<Id>, from: Time, to: Time): int {
    if keys == [] then 0
    else KeyUsage(ReadingsOf(snapshots, keys[0]), from, to) + UsageOfKeys(snapshots, keys[1..], from, to)
  }

  function UsageInRange(snapshots: seq<UsageSnapshot>, server: Id, from: Time, to: Time): int {
    UsageOfKeys(snapshots, KeysSeen(snapshots, server), from, to)
  }

  /** SELECT MIN(recorded_at) ... WHERE server_id = server AND key_id IS NULL */
  function EarliestServerReading(snapshots: seq<UsageSnapshot>, server: Id): Option<Time> {
    if snapshots == [] then None
    else
      var rest := EarliestServerReading(snapshots[1..], server);
      if snapshots[0].serverID == server && snapshots[0].keyID.None?
         && (rest.None? || snapshots[0].recordedAt < rest.value)
      then Some(snapshots[0].recordedAt) else rest
  }

  // ---------------------------------------------------------------- whose traffic it is

  /** Every key with a reading on the server, once. */
  lemma {:induction false} KeysSeenOnServer(snapshots: seq<UsageSnapshot>, server: Id)
    ensures forall i, j | 0 <= i < j < |KeysSeen(snapshots, server)| ::
      KeysSeen(snapshots, server)[i] != KeysSeen(snapshots, server)[j]
    ensures forall k :: k in KeysSeen(snapshots, server) <==>
      exists i :: 0 <= i < |snapshots| && snapshots[i].serverID == server && snapshots[i].keyID == Some(k)
  {
    if snapshots != [] {
      var n := |snapshots| - 1;
      var before := snapshots[..n];
      KeysSeenOnServer(before, server);
      forall k
        ensures k in KeysSeen(snapshots, server) <==>
          exists i :: 0 <= i < |snapshots| && snapshots[i].serverID == server && snapshots[i].keyID == Some(k)
      {
        if k in KeysSeen(before, server) {
          var i :| 0 <= i < n && before[i].serverID == server && before[i].keyID == Some(k);
          assert snapshots[i].serverID == server && snapshots[i].keyID == Some(k);
        }
        if i :| 0 <= i < n && snapshots[i].serverID == server && snapshots[i].keyID == Some(k) {
          assert before[i].serverID == server && before[i].keyID == Some(k);
        }
      }
    }
  }

  /** A key's readings are its own, all of them, in log order. */
  lemma {:induction false} ReadingsAreItsOwn(snapshots: seq<UsageSnapshot>, key: Id) returns (ids: seq<nat>)
    ensures Ascending(ids, set i | 0 <= i < |snapshots| && snapshots[i].keyID == Some(key))
    ensures |ids| == |ReadingsOf(snapshots, key)|
    ensures forall a | 0 <= a < |ids| ::
      && ids[a] < |snapshots|
      && ReadingsOf(snapshots, key)[a] == Reading(snapshots[ids[a]].recordedAt, snapshots[ids[a]].bytesTotal)
  {
    if snapshots == [] { return []; }
    var tail, first := snapshots[1..], snapshots[0].keyID == Some(key);
    var rest := ReadingsAreItsOwn(tail, key);
    ids := Later(rest, first);
    LaterAscends(rest, (set i | 0 <= i < |tail| && tail[i].keyID == Some(key)), first,
                 (set i | 0 <= i < |snapshots| && snapshots[i].keyID == Some(key)));
    var rs, shift := ReadingsOf(snapshots, key), if first then 1 else 0;
    forall a | shift <= a < |ids|
      ensures ids[a] < |snapshots| && rs[a] == Reading(snapshots[ids[a]].recordedAt, snapshots[ids[a]].bytesTotal)
    {
      assert ids[a] == rest[a - shift] + 1 && rs[a] == ReadingsOf(tail, key)[a - shift];
    }
  }

  /** A reading of another server, of a key never read on this one, makes no difference wherever it is logged. */
  lemma OtherServersAside(before: seq<UsageSnapshot>, e: UsageSnapshot, after: seq<UsageSnapshot>, server: Id,
                          from: Time, to: Time)
    requires e.serverID != server && (e.keyID.Some? ==> e.keyID.value !in KeysSeen(before + after, server))
    ensures UsageInRange(before + [e] + after, server, from, to) == UsageInRange(before + after, server, from, to)
  {
    SeenAlike(before, e, after, server);
    ReadAlike(before, e, after, KeysSeen(before + after, server), from, to);
  }

  lemma {:induction false} SeenAlike(before: seq<UsageSnapshot>, e: UsageSnapshot, after: seq<UsageSnapshot>,
                                     server: Id)
    requires e.serverID != server
    ensures KeysSeen(before + [e] + after, server) == KeysSeen(before + after, server)
  {
    if after == [] {
      assert before + [e] + after == before + [e] && before + after == before;
    } else {
      var n := |after| - 1;
      SeenAlike(before, e, after[..n], server);
      assert (before + [e] + after)[..|before| + 1 + n] == before + [e] + after[..n];
      assert (before + after)[..|before| + n] == before + after[..n];
    }
  }

  lemma {:induction false} ReadAlike(before: seq<UsageSnapshot>, e: UsageSnapshot, after: seq<UsageSnapshot>,
                                     keys: seq<Id>, from: Time, to: Time)
    requires e.keyID.Some? ==> e.keyID.value !in keys
    ensures UsageOfKeys(before + [e] + after, keys, from, to) == UsageOfKeys(before + after, keys, from, to)
  {
    if keys != [] {
      ReadingsAlike(before, e, after, keys[0]);
      ReadAlike(before, e, after, keys[1..], from, to);
    }
  }

  lemma {:induction false} ReadingsAlike(before: seq<UsageSnapshot>, e: UsageSnapshot, after: seq<UsageSnapshot>, k: Id)
    requires e.keyID != Some(k)
    ensures ReadingsOf(before + [e] + after, k) == ReadingsOf(before + after, k)
  {
    if before == [] {
      assert before + [e] + after == [e] + after && before + after == after;
    } else {
      ReadingsAlike(before[1..], e, after, k);
      assert (before + [e] + after)[1..] == before[1..] + [e] + after;
      assert (before + after)[1..] == before[1..] + after;
    }
  }

  /** The earliest server-wide reading, if there is one. */
  lemma {:induction false} EarliestServerReadingIs(snapshots: seq<UsageSnapshot>, server: Id)
    ensures var earliest := EarliestServerReading(snapshots, server);
      && (earliest.Some? ==> exists i ::
            && 0 <= i < |snapshots| && snapshots[i].serverID == server && snapshots[i].keyID.None?
            && snapshots[i].recordedAt == earliest.value)
      && (forall i | 0 <= i < |snapshots| && snapshots[i].serverID == server && snapshots[i].keyID.None? ::
            earliest.Some? && earliest.value <= snapshots[i].recordedAt)
  {
    if snapshots != [] {
      var rest := snapshots[1..];
      EarliestServerReadingIs(rest, server);
      assert forall i | 0 <= i < |rest| :: rest[i] == snapshots[i + 1];
      var earliest, later := EarliestServerReading(snapshots, server), EarliestServerReading(rest, server);
      if earliest.Some? && earliest == later {
        var i :| 0 <= i < |rest| && rest[i].serverID == server && rest[i].keyID.None?
                 && rest[i].recordedAt == earliest.value;
        assert snapshots[i + 1].recordedAt == earliest.value;
      }
    }
  }

  // ---------------------------------------------------------------- splitting a range

  ghost predicate CountersNonNegative(rs: seq<Reading>) {
    forall i | 0 <= i < |rs| :: rs[i].bytes >= 0
  }

  /** At b the counter has turned: it rose up to the reading there and fell after it, or the reverse. */
  predicate Turns(rs: seq<Reading>, a: Time, b: Time, c: Time) {
    && LatestIndex(rs, b).Some?
    && var before, after := EndValue(rs, b) - StartValue(rs, a), EndValue(rs, c) - EndValue(rs, b);
       (before > 0 && after < 0) || (before < 0 && after > 0)
  }

  lemma KeySplit(rs: seq<Reading>, a: Time, b: Time, c: Time)
    requires a <= b <= c && CountersNonNegative(rs)
    ensures KeyUsage(rs, a, b) + KeyUsage(rs, b, c) >= KeyUsage(rs, a, c)
    ensures KeyUsage(rs, a, b) + KeyUsage(rs, b, c) == KeyUsage(rs, a, c) <==> !Turns(rs, a, b, c)
  {
  }

  /**
    Cutting a range in two never loses traffic, and counts the same total exactly when no key of the
    server turns at the cut.
  */
  lemma RangeSplit(snapshots: seq<UsageSnapshot>, server: Id, a: Time, b: Time, c: Time)
    requires a <= b <= c
    requires forall i | 0 <= i < |snapshots| :: snapshots[i].bytesTotal >= 0
    ensures UsageInRange(snapshots, server, a, b) + UsageInRange(snapshots, server, b, c)
            >= UsageInRange(snapshots, server, a, c)
    ensures UsageInRange(snapshots, server, a, b) + UsageInRange(snapshots, server, b, c)
            == UsageInRange(snapshots, server, a, c)
            <==> forall k <- KeysSeen(snapshots, server) :: !Turns(ReadingsOf(snapshots, k), a, b, c)
  {
    KeysSplit(snapshots, KeysSeen(snapshots, server), a, b, c);
  }

  lemma {:induction false} KeysSplit(snapshots: seq<UsageSnapshot>, keys: seq<Id>, a: Time, b: Time, c: Time)
    requires a <= b <= c
    requires forall i | 0 <= i < |snapshots| :: snapshots[i].bytesTotal >= 0
    ensures UsageOfKeys(snapshots, keys, a, b) + UsageOfKeys(snapshots, keys, b, c)
            >= UsageOfKeys(snapshots, keys, a, c)
    ensures UsageOfKeys(snapshots, keys, a, b) + UsageOfKeys(snapshots, keys, b, c)
            == UsageOfKeys(snapshots, keys, a, c)
            <==> forall k <- keys :: !Turns(ReadingsOf(snapshots, k), a, b, c)
  {
    if keys != [] {
      var k, rest := keys[0], keys[1..];
      ReadingsNonNegative(snapshots, k);
      KeySplit(ReadingsOf(snapshots, k), a, b, c);
      KeysSplit(snapshots, rest, a, b, c);
      assert (forall j <- keys :: !Turns(ReadingsOf(snapshots, j), a, b, c)) <==>
             !Turns(ReadingsOf(snapshots, k), a, b, c) && forall j <- rest ::
               !Turns(ReadingsOf(snapshots, j), a, b, c) by {
        assert forall j :: j in keys <==> j == k || j in rest;
      }
    }
  }

  lemma {:induction false} ReadingsNonNegative(snapshots: seq<UsageSnapshot>, key: Id)
    requires forall i | 0 <= i < |snapshots| :: snapshots[i].bytesTotal >= 0
    ensures CountersNonNegative(ReadingsOf(snapshots, key))
  {
    if snapshots != [] { ReadingsNonNegative(snapshots[1..], key); }
  }

  /** Cut where the counter turned, ten bytes are counted that the whole range does not show. */
  lemma SplitCanExceedWhole() returns (rs: seq<Reading>)
    ensures CountersNonNegative(rs) && InTimeOrder(rs)
    ensures KeyUsage(rs, 0, 1) + KeyUsage(rs, 1, 2) == 10 && KeyUsage(rs, 0, 2) == 0
  {
    rs := [Reading(0, 0), Reading(1, 10), Reading(2, 0)];
    LatestAt(rs, 0);
    LatestAt(rs, 1);
    LatestAt(rs, 2);
  }

  lemma LatestAt(rs: seq<Reading>, i: nat)
    requires i < |rs| && forall j | 0 <= j < |rs| :: rs[j].at == j
    ensures LatestIndex(rs, i) == Some(i)
  {
  }

  // ---------------------------------------------------------------- readings and real traffic

  ghost predicate InTimeOrder(rs: seq<Reading>) {
    forall i, j | 0 <= i < j < |rs| :: rs[i].at <= rs[j].at
  }

  /**
    carried[i] is the traffic a key really carried up to its i-th reading. Between two readings the
    counter goes up by that traffic, or it restarted in between (as often as it likes) and shows no more
    than what came through since.
  */
  ghost predicate Explains(carried: seq<int>, restarted: seq<bool>, rs: seq<Reading>) {
    && |carried| == |restarted| == |rs|
    && CountersNonNegative(rs)
    && forall i | 0 < i < |rs| ::
         var traffic := carried[i] - carried[i - 1];
         && traffic >= 0
         && (if restarted[i] then rs[i].bytes <= traffic else rs[i].bytes - rs[i - 1].bytes == traffic)
  }

  lemma {:induction false} CounterNeverOverstates(carried: seq<int>, restarted: seq<bool>, rs: seq<Reading>, i: nat,
                                                  j: nat)
    requires Explains(carried, restarted, rs) && i <= j < |rs|
    ensures AtLeastZero(rs[j].bytes - rs[i].bytes) <= carried[j] - carried[i]
    ensures (forall n | i < n <= j :: !restarted[n]) ==> rs[j].bytes - rs[i].bytes == carried[j] - carried[i]
    decreases j - i
  {
    if i < j { CounterNeverOverstates(carried, restarted, rs, i, j - 1); }
  }

  /** In a log kept in time order, the reading the query ends on is not logged before the one it starts on. */
  lemma {:induction false} LatestIsLast(rs: seq<Reading>, t: Time)
    requires InTimeOrder(rs)
    ensures LatestIndex(rs, t).Some? ==> forall i | LatestIndex(rs, t).value < i < |rs| :: rs[i].at > t
  {
    if rs != [] { LatestIsLast(rs[..|rs| - 1], t); }
  }

  lemma {:induction false} EarliestIsFirst(rs: seq<Reading>)
    requires InTimeOrder(rs) && rs != []
    ensures EarliestIndex(rs) == 0
  {
    if |rs| > 1 { EarliestIsFirst(rs[..|rs| - 1]); }
  }

  /** A key's figure never exceeds what it really carried between the two readings the query compares, and
      is exactly that when its counter did not restart between them. */
  lemma UsageNeverExceedsTraffic(carried: seq<int>, restarted: seq<bool>, rs: seq<Reading>, from: Time, to: Time)
    requires from <= to && InTimeOrder(rs) && Explains(carried, restarted, rs)
    ensures LatestIndex(rs, to).None? ==> KeyUsage(rs, from, to) == 0
    ensures LatestIndex(rs, to).Some? ==>
      var i, j := StartIndex(rs, from), LatestIndex(rs, to).value;
      && i <= j
      && KeyUsage(rs, from, to) <= carried[j] - carried[i]
      && ((forall n | i < n <= j :: !restarted[n]) ==> KeyUsage(rs, from, to) == carried[j] - carried[i])
  {
    if LatestIndex(rs, to).Some? {
      LatestIsLast(rs, to);
      EarliestIsFirst(rs);
      var i, j := StartIndex(rs, from), LatestIndex(rs, to).value;
      assert i <= j;
      CounterNeverOverstates(carried, restarted, rs, i, j);
    }
  }

  /** What a key really carried between the two readings compared for it. */
  function CarriedBetween(carried: seq<int>, rs: seq<Reading>, from: Time, to: Time): int
    requires |carried| == |rs|
  {
    var end := LatestIndex(rs, to);
    if end.None? then 0 else carried[end.value] - carried[StartIndex(rs, from)]
  }

  ghost predicate Explained(snapshots: seq<UsageSnapshot>, keys: seq<Id>, carried: map<Id, seq<int>>,
                            restarted: map<Id, seq<bool>>)
  {
    forall k <- keys ::
      && k in carried && k in restarted && |carried[k]| == |ReadingsOf(snapshots, k)|
      && InTimeOrder(ReadingsOf(snapshots, k)) && Explains(carried[k], restarted[k], ReadingsOf(snapshots, k))
  }

  function CarriedByKeys(snapshots: seq<UsageSnapshot>, keys: seq<Id>, carried: map<Id, seq<int>>, from: Time,
                         to: Time): int
    requires forall k <- keys :: k in carried && |carried[k]| == |ReadingsOf(snapshots, k)|
  {
    if keys == [] then 0
    else
      CarriedBetween(carried[keys[0]], ReadingsOf(snapshots, keys[0]), from, to)
      + CarriedByKeys(snapshots, keys[1..], carried, from, to)
  }

  /** The keys of a server together: never more than they really carried, and exactly that without restarts. */
  lemma ServerUsageNeverExceedsTraffic(snapshots: seq<UsageSnapshot>, server: Id, carried: map<Id, seq<int>>,
                                       restarted: map<Id, seq<bool>>, from: Time, to: Time)
    requires from <= to && Explained(snapshots, KeysSeen(snapshots, server), carried, restarted)
    ensures
      var traffic := CarriedByKeys(snapshots, KeysSeen(snapshots, server), carried, from, to);
      && UsageInRange(snapshots, server, from, to) <= traffic
      && ((forall k <- KeysSeen(snapshots, server) :: true !in restarted[k]) ==>
            UsageInRange(snapshots, server, from, to) == traffic)
  {
    KeysNeverExceedTraffic(snapshots, KeysSeen(snapshots, server), carried, restarted, from, to);
  }

  lemma {:induction false} KeysNeverExceedTraffic(snapshots: seq<UsageSnapshot>, keys: seq<Id>,
                                                  carried: map<Id, seq<int>>, restarted: map<Id, seq<bool>>,
                                                  from: Time, to: Time)
    requires from <= to && Explained(snapshots, keys, carried, restarted)
    ensures UsageOfKeys(snapshots, keys, from, to) <= CarriedByKeys(snapshots, keys, carried, from, to)
    ensures (forall k <- keys :: true !in restarted[k]) ==>
      UsageOfKeys(snapshots, keys, from, to) == CarriedByKeys(snapshots, keys, carried, from, to)
  {
    if keys != [] {
      var k := keys[0];
      UsageNeverExceedsTraffic(carried[k], restarted[k], ReadingsOf(snapshots, k), from, to);
      KeysNeverExceedTraffic(snapshots, keys[1..], carried, restarted, from, to);
    }
  }

  /** A counter that never restarts never turns, so its ranges add up exactly. */
  lemma SteadyCounterNeverTurns(carried: seq<int>, restarted: seq<bool>, rs: seq<Reading>, a: Time, b: Time, c: Time)
    requires a <= b <= c && InTimeOrder(rs) && Explains(carried, restarted, rs)
    requires forall n | 0 <= n < |rs| :: !restarted[n]
    ensures !Turns(rs, a, b, c)
  {
    if LatestIndex(rs, b).Some? {
      UsageNeverExceedsTraffic(carried, restarted, rs, a, b);
      UsageNeverExceedsTraffic(carried, restarted, rs, b, c);
      CounterNeverOverstates(carried, restarted, rs, StartIndex(rs, a), LatestIndex(rs, b).value);
      CounterNeverOverstates(carried, restarted, rs, LatestIndex(rs, b).value, LatestIndex(rs, c).value);
    }
  }
}
