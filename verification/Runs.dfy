/** Bounds over whole runs: how often a server's switch can trip, and how often a key can be renewed. */
module Runs {
  import opened Wrappers
  import opened Calendar
  import opened Arithmetic
  import opened Models
  import opened Store
  import opened Repositories
  import opened Outline
  import opened Convergence
  import opened Enforcement

  // ---------------------------------------------------------------- trips of the kill switch

  /** What can happen to a server row, and when. */
  datatype ServerEvent =
    | Sweep(now: Time, reached: bool)
    | Reenable(now: Time)
    | Synced(now: Time, failed: bool)
    | Edit(now: Time, details: ServerDetails)
    | Archive(now: Time)
    | Revive(now: Time, details: ServerDetails)

  function After(row: Server, e: ServerEvent): Server {
    match e
    case Sweep(now, reached) => if Live(row) && MayTrip(now, row) && reached then Tripped(now, row) else row
    case Reenable(now) =>
      if Live(row) then row.(bandwidthDisabledAt := None, bandwidthReenabledAt := Some(now)) else row
    case Synced(_, failed) => row.(syncFailed := failed)
    case Edit(_, details) => Revived(row, details).(deletedAt := row.deletedAt, syncFailed := row.syncFailed)
    case Archive(now) => if Live(row) then row.(deletedAt := Some(now)) else row
    case Revive(_, details) => if Live(row) then row else Revived(row, details)
  }

  function AfterAll(row: Server, events: seq<ServerEvent>): Server {
    if events == [] then row else After(AfterAll(row, events[..|events| - 1]), events[|events| - 1])
  }

  predicate Trips(row: Server, e: ServerEvent) { e.Sweep? && After(row, e) != row }

  /** The instants at which the switch tripped. */
  function TripTimes(row: Server, events: seq<ServerEvent>): seq<Time> {
    if events == [] then []
    else
      var n := |events| - 1;
      TripTimes(row, events[..n]) + (if Trips(AfterAll(row, events[..n]), events[n]) then [events[n].now] else [])
  }

  ghost predicate ClockAdvances(events: seq<ServerEvent>) {
    forall i, j | 0 <= i < j < |events| :: events[i].now <= events[j].now
  }

  /** A sweep over the database does to each row what a sweep event does. */
  lemma SweepIsEvent(now: Time, before: Server, after: Server)
    ensures TripStep(now, before, after) <==> exists reached :: after == After(before, Sweep(now, reached))
  {
    assert After(before, Sweep(now, false)) == before;
    if Live(before) && MayTrip(now, before) { assert After(before, Sweep(now, true)) == Tripped(now, before); }
  }

  /** Since its last trip a server is still off, or it was re-enabled no earlier than that trip. */
  lemma {:induction false} TrippedUntilReenabled(row: Server, events: seq<ServerEvent>, i: nat)
    requires ClockAdvances(events) && i < |TripTimes(row, events)|
    ensures var now := AfterAll(row, events);
      now.bandwidthDisabledAt.Some? ||
      (now.bandwidthReenabledAt.Some?
       && TripTimes(row, events)[i] <= now.bandwidthReenabledAt.value <= events[|events| - 1].now)
    ensures TripTimes(row, events)[i] <= events[|events| - 1].now
    decreases |events|
  {
    var n := |events| - 1;
    if i < |TripTimes(row, events[..n])| {
      TrippedUntilReenabled(row, events[..n], i);
      assert events[..n][n - 1].now <= events[n].now;
    }
  }

  /** No server trips twice in one calendar month, however often it is swept, synced, re-enabled, archived
      and revived, and whatever its cap, URL or other settings are changed to in between. */
  lemma {:induction false} OneTripPerMonth(row: Server, events: seq<ServerEvent>, i: nat, j: nat)
    requires ClockAdvances(events) && i < j < |TripTimes(row, events)|
    ensures MonthOf(TripTimes(row, events)[i]) < MonthOf(TripTimes(row, events)[j])
    decreases |events|
  {
    var n := |events| - 1;
    var earlier := TripTimes(row, events[..n]);
    if j < |earlier| {
      OneTripPerMonth(row, events[..n], i, j);
    } else {
      var t, now, before := earlier[i], events[n].now, AfterAll(row, events[..n]);
      TrippedUntilReenabled(row, events[..n], i);
      assert MayTrip(now, before);
      var r := before.bandwidthReenabledAt.value;
      assert t <= r <= now && !SameMonth(r, now);
      MonthOfMonotone(t, r);
      MonthOfMonotone(r, now);
    }
  }

  /** ... so a run trips at most once for every calendar month it touches. */
  lemma {:induction false} TripsAtMostMonths(row: Server, events: seq<ServerEvent>)
    requires ClockAdvances(events) && events != []
    ensures |TripTimes(row, events)| <= MonthOf(events[|events| - 1].now) - MonthOf(events[0].now) + 1
  {
    var trips := TripTimes(row, events);
    MonthOfMonotone(events[0].now, events[|events| - 1].now);
    if trips != [] {
      TripWithinRun(row, events, 0);
      TripWithinRun(row, events, |trips| - 1);
      MonthOfMonotone(events[0].now, trips[0]);
      MonthOfMonotone(trips[|trips| - 1], events[|events| - 1].now);
      MonthsPass(row, events, |trips| - 1);
    }
  }

  lemma {:induction false} MonthsPass(row: Server, events: seq<ServerEvent>, j: nat)
    requires ClockAdvances(events) && j < |TripTimes(row, events)|
    ensures MonthOf(TripTimes(row, events)[0]) + j <= MonthOf(TripTimes(row, events)[j])
  {
    if j > 0 {
      MonthsPass(row, events, j - 1);
      OneTripPerMonth(row, events, j - 1, j);
    }
  }

  lemma {:induction false} TripWithinRun(row: Server, events: seq<ServerEvent>, i: nat)
    requires ClockAdvances(events) && i < |TripTimes(row, events)|
    ensures events != [] && events[0].now <= TripTimes(row, events)[i] <= events[|events| - 1].now
    decreases |events|
  {
    var n := |events| - 1;
    if i < |TripTimes(row, events[..n])| {
      TripWithinRun(row, events[..n], i);
      assert events[..n][0].now == events[0].now && events[..n][n - 1].now <= events[n].now;
    }
  }

  // ---------------------------------------------------------------- automatic renewals

  /** One sweep as it finds and leaves one key; `fallback` are the servers whose default it could not look up. */
  datatype Turn = Turn(now: Time, servers: map<Id, Server>, fallback: set<Id>, before: Key, after: Key)

  function GrantOf(fl: Rounding, t: Turn): Option<int> {
    Grant(fl, GrantGB(fl, t.servers, t.fallback, t.before.serverID))
  }

  /** The sweep did about the key what it should. */
  predicate GoesThrough(fl: Rounding, t: Turn) { AutoRenewedRow(fl, t.now, t.servers, t.fallback, t.before, t.after) }

  /** The sweep did what it should, or was stopped before it had saved anything. */
  predicate SweptTurn(fl: Rounding, t: Turn) { GoesThrough(fl, t) || t.after == t.before }

  /** One turn, under a server default that grants at least `quota` bytes: the sweep does its work, or is stopped
      before it has saved anything. */
  predicate IsTurn(fl: Rounding, t: Turn, quota: int) {
    && t.before.autoRenew
    && SweptTurn(fl, t)
    && GrantOf(fl, t).Some? && GrantOf(fl, t).value >= quota
  }

  /** What a sweep does to a row, whatever calls fail, is such a turn. */
  lemma SweepIsTurn(fl: Rounding, t: Turn, lost: set<Place>, boxes0: Boxes, boxes: Boxes, quota: int)
    requires RowRenewed(fl, t.now, t.servers, t.fallback, lost, t.before, t.after, boxes0, boxes)
    ensures SweptTurn(fl, t)
    ensures t.before.autoRenew && GrantOf(fl, t).Some? && GrantOf(fl, t).value >= quota ==> IsTurn(fl, t, quota)
    ensures PlaceOf(t.before) !in lost ==> GoesThrough(fl, t)
    ensures
      var s := t.before.serverID;
      PlaceOf(t.before) !in lost && AutoDue(t.now, t.before) && s in t.servers && Live(t.servers[s]) ==>
        t.servers[s].defaultPriceMmk.Some? ==> HeldAgainst(fl, t, t.servers[s].defaultPriceMmk.value)
  {
  }

  /** Between two sweeps time passes and traffic flows, but nobody edits the key's plan. */
  predicate Follows(t: Turn, u: Turn) {
    && t.now <= u.now && t.before.usedBytes <= u.before.usedBytes
    && u.before.limitBytes == t.after.limitBytes && u.before.endDate == t.after.endDate
  }

  ghost predicate IsHistory(fl: Rounding, turns: seq<Turn>, quota: int) {
    && (forall i | 0 <= i < |turns| :: IsTurn(fl, turns[i], quota))
    && (forall i | 0 < i < |turns| :: Follows(turns[i - 1], turns[i]))
  }

  /** The key was due and its new limit and end date were saved. */
  predicate Renews(fl: Rounding, t: Turn) { AutoDue(t.now, t.before) && GoesThrough(fl, t) }

  function Renewals(fl: Rounding, turns: seq<Turn>): nat {
    if turns == [] then 0 else Renewals(fl, turns[..|turns| - 1]) + if Renews(fl, turns[|turns| - 1]) then 1 else 0
  }

  const PERIOD: nat := 29 * 86_400_000_000

  /** The state the renewal at sweep `last` at least leaves: nothing has changed the plan by the end of sweep `end`. */
  predicate RenewedAt(last: Turn, end: Turn, quota: int) {
    && last.now <= end.now && last.before.usedBytes <= end.before.usedBytes
    && end.after.limitBytes.Some? && end.after.limitBytes.value >= last.before.usedBytes + quota
    && end.after.endDate == Some(last.now + MIN_PLAN_DAYS * DAY)
  }

  /** What a turn means for limit and end date. */
  lemma TurnTargets(fl: Rounding, t: Turn, quota: int)
    requires IsTurn(fl, t, quota)
    ensures
      if Renews(fl, t) then
        && t.after.limitBytes.Some? && t.after.limitBytes.value >= t.before.usedBytes + quota
        && t.after.endDate == Some(t.now + MIN_PLAN_DAYS * DAY)
      else t.after.limitBytes == t.before.limitBytes && t.after.endDate == t.before.endDate
    ensures AutoDue(t.now, t.before) <==> RunningLow(t.now, t.before)
  {
  }

  /** A renewal after another has waited 29 days, or used up all of the last grant but 3 GB. */
  lemma NextRenewal(fl: Rounding, last: Turn, end: Turn, t: Turn, quota: int)
    requires RenewedAt(last, end, quota) && Follows(end, t) && IsTurn(fl, t, quota)
    ensures !Renews(fl, t) ==> RenewedAt(last, t, quota)
    ensures Renews(fl, t) ==> RenewedAt(t, t, quota)
    ensures Renews(fl, t) ==>
      || PERIOD <= t.now - last.now
      || quota - 3_000_000_000 <= t.before.usedBytes - last.before.usedBytes
  {
  }

  /** Waiting so many periods and using so many grants is paid for by the time and traffic between two turns. */
  ghost predicate Paid(first: Turn, last: Turn, days: nat, grants: nat, quota: int) {
    && Times(days, PERIOD) <= last.now - first.now
    && Times(grants, quota - 3_000_000_000) <= last.before.usedBytes - first.before.usedBytes
  }

  lemma PaidFurther(fl: Rounding, first: Turn, last: Turn, end: Turn, t: Turn, days: nat, grants: nat, quota: int)
    requires Paid(first, last, days, grants, quota) && quota > 3_000_000_000
    requires RenewedAt(last, end, quota) && Follows(end, t) && IsTurn(fl, t, quota) && Renews(fl, t)
    ensures Paid(first, t, days + 1, grants, quota) || Paid(first, t, days, grants + 1, quota)
  {
  }

  lemma FirstRenewal(fl: Rounding, turns: seq<Turn>, quota: int)
    requires IsHistory(fl, turns, quota) && turns != [] && Renews(fl, turns[|turns| - 1])
    ensures Paid(turns[0], turns[|turns| - 1], 0, 0, quota)
    ensures RenewedAt(turns[|turns| - 1], turns[|turns| - 1], quota)
  {
    StartToEnd(fl, turns, quota);
    TurnTargets(fl, turns[|turns| - 1], quota);
  }

  /** The time and traffic since the first sweep pay for all renewals but one. `last` is the latest so far. */
  lemma {:induction false} RenewalsArePaidFor(fl: Rounding, turns: seq<Turn>, quota: int)
    returns (days: nat, grants: nat, last: Turn)
    requires IsHistory(fl, turns, quota) && quota > 3_000_000_000 && Renewals(fl, turns) > 0
    ensures Renewals(fl, turns) == 1 + days + grants
    ensures Paid(turns[0], last, days, grants, quota)
    ensures RenewedAt(last, turns[|turns| - 1], quota)
  {
    var n := |turns| - 1;
    var t, prefix := turns[n], turns[..n];
    PrefixIsHistory(fl, turns, quota);
    if Renewals(fl, prefix) == 0 {
      FirstRenewal(fl, turns, quota);
      return 0, 0, t;
    }
    days, grants, last := RenewalsArePaidFor(fl, prefix, quota);
    days, grants, last := OneTurnMore(fl, turns[0], last, turns[n - 1], t, days, grants, quota);
  }

  /** A further turn renews, and is paid for, or leaves the last renewal as it was. */
  lemma OneTurnMore(fl: Rounding, first: Turn, last: Turn, end: Turn, t: Turn, days: nat, grants: nat, quota: int)
    returns (newDays: nat, newGrants: nat, newLast: Turn)
    requires Paid(first, last, days, grants, quota) && quota > 3_000_000_000
    requires RenewedAt(last, end, quota) && Follows(end, t) && IsTurn(fl, t, quota)
    ensures newDays + newGrants == days + grants + if Renews(fl, t) then 1 else 0
    ensures Paid(first, newLast, newDays, newGrants, quota) && RenewedAt(newLast, t, quota)
  {
    NextRenewal(fl, last, end, t, quota);
    newDays, newGrants, newLast := days, grants, last;
    if Renews(fl, t) {
      PaidFurther(fl, first, last, end, t, days, grants, quota);
      if Paid(first, t, days + 1, grants, quota) { newDays := days + 1; } else { newGrants := grants + 1; }
      newLast := t;
    }
  }

  lemma PrefixIsHistory(fl: Rounding, turns: seq<Turn>, quota: int)
    requires IsHistory(fl, turns, quota) && turns != []
    ensures var n := |turns| - 1;
      && IsHistory(fl, turns[..n], quota) && IsTurn(fl, turns[n], quota)
      && (n > 0 ==> Follows(turns[n - 1], turns[n]) && turns[..n][n - 1] == turns[n - 1] && turns[..n][0] == turns[0])
  {
  }

  lemma {:induction false} StartToEnd(fl: Rounding, turns: seq<Turn>, quota: int)
    requires IsHistory(fl, turns, quota) && turns != []
    ensures turns[0].now <= turns[|turns| - 1].now
    ensures turns[0].before.usedBytes <= turns[|turns| - 1].before.usedBytes
  {
    if |turns| > 1 {
      PrefixIsHistory(fl, turns, quota);
      StartToEnd(fl, turns[..|turns| - 1], quota);
    }
  }

  function Span(turns: seq<Turn>): int
    requires turns != []
  {
    turns[|turns| - 1].now - turns[0].now
  }

  function Traffic(turns: seq<Turn>): int
    requires turns != []
  {
    turns[|turns| - 1].before.usedBytes - turns[0].before.usedBytes
  }

  /**
    Over sweeps spanning D days and U bytes of traffic, a key granted more than 3 GB a time is renewed at
    most 1 + floor(D / 29) + floor(U / (grant - 3 GB)) times.
  */
  lemma AutoRenewBound(fl: Rounding, turns: seq<Turn>, quota: int)
    requires IsHistory(fl, turns, quota) && quota > 3_000_000_000 && turns != []
    ensures Renewals(fl, turns) <= 1 + Span(turns) / PERIOD + Traffic(turns) / (quota - 3_000_000_000)
  {
    StartToEnd(fl, turns, quota);
    var days, grants := 0, 0;
    if Renewals(fl, turns) > 0 {
      var last;
      days, grants, last := RenewalsArePaidFor(fl, turns, quota);
    }
    AtMostQuotient(days, PERIOD, Span(turns));
    AtMostQuotient(grants, quota - 3_000_000_000, Traffic(turns));
  }

  /** Between two sweeps nobody edits the key's price. */
  predicate PriceFollows(t: Turn, u: Turn) { u.before.priceMmk == t.after.priceMmk }

  /** The price was held against the default of the key's server. */
  predicate HeldAgainst(fl: Rounding, t: Turn, d: int) {
    && AutoDue(t.now, t.before) && WhollyRenewed(t.now, t.before, t.after, t.servers, GrantOf(fl, t), MIN_PLAN_DAYS)
    && t.servers[t.before.serverID].defaultPriceMmk == Some(d)
  }

  lemma TurnRatchetsPrice(fl: Rounding, t: Turn)
    requires SweptTurn(fl, t)
    ensures
      var before, after := t.before.priceMmk, t.after.priceMmk;
      && (before.None? <==> after.None?)
      && (before.Some? ==>
            && after.value >= before.value && (forall d | HeldAgainst(fl, t, d) :: d <= after.value)
            && (after == before || HeldAgainst(fl, t, after.value)))
  {
  }

  /**
    Over any run of sweeps without price edits, wherever each of them stops, a set price only rises, to at least
    every default it was held against on the way, and an unset price stays unset.
  */
  lemma {:induction false} SweepsRatchetPrice(fl: Rounding, turns: seq<Turn>)
    requires turns != [] && forall i | 0 <= i < |turns| :: SweptTurn(fl, turns[i])
    requires forall i | 0 < i < |turns| :: PriceFollows(turns[i - 1], turns[i])
    ensures
      var first, last := turns[0].before.priceMmk, turns[|turns| - 1].after.priceMmk;
      && (first.None? <==> last.None?)
      && (first.Some? ==>
            && last.value >= first.value
            && (forall i, d | 0 <= i < |turns| && HeldAgainst(fl, turns[i], d) :: d <= last.value)
            && (last == first || exists i :: 0 <= i < |turns| && HeldAgainst(fl, turns[i], last.value)))
  {
    var n := |turns| - 1;
    TurnRatchetsPrice(fl, turns[n]);
    if n > 0 {
      var before := turns[..n];
      assert forall i | 0 <= i < n :: before[i] == turns[i];
      SweepsRatchetPrice(fl, before);
      assert PriceFollows(turns[n - 1], turns[n]);
    }
  }

  /** Sweeping again at the same instant finds nothing to renew, if the first sweep got through to the key. */
  lemma SecondSweepRenewsNothing(fl: Rounding, t: Turn, u: Turn, quota: int)
    requires IsTurn(fl, t, quota) && IsTurn(fl, u, quota) && Follows(t, u) && quota > 3_000_000_000
    requires t.now == u.now && t.before.usedBytes == u.before.usedBytes
    ensures AutoDue(u.now, u.before) <==> AutoDue(t.now, t.before) && !GoesThrough(fl, t)
    ensures GoesThrough(fl, t) ==> !Renews(fl, u) && u.after == u.before
  {
  }
}
