/**
  Daily traffic series, derived from cumulative readings: each day takes its highest reading and
  subtracts the day before's, clamped at zero.
*/
module Daily {
  import opened Wrappers
  import opened Calendar
  import opened Models
  import opened Usage

  datatype DayTotal = DayTotal(day: nat, total: int)

  datatype DailyUsage = DailyUsage(day: nat, bytes: int)

  function Larger(a: int, b: int): int { if a < b then b else a }

  // ---------------------------------------------------------------- daily maxima of one counter

  /** One reading more in a table grouped by day, in day order, keeping each day's maximum. */
  function Note(table: seq<DayTotal>, day: nat, bytes: int): seq<DayTotal> {
    if table == [] || day < table[0].day then [DayTotal(day, bytes)] + table
    else if day == table[0].day then [DayTotal(day, Larger(table[0].total, bytes))] + table[1..]
    else [table[0]] + Note(table[1..], day, bytes)
  }

  /** SELECT day, MAX(bytes_total) ... GROUP BY day ORDER BY day, over one counter's readings. */
  function Maxima(rs: seq<Reading>): seq<DayTotal> {
    if rs == [] then [] else Note(Maxima(rs[..|rs| - 1]), rs[|rs| - 1].at / DAY, rs[|rs| - 1].bytes)
  }

  ghost predicate DaysAscend(table: seq<DayTotal>) {
    forall i, j | 0 <= i < j < |table| :: table[i].day < table[j].day
  }

  /** What a note holds is its reading or was there before. */
  lemma {:induction false} NoteInvents(table: seq<DayTotal>, day: nat, bytes: int, t: DayTotal)
    requires t in Note(table, day, bytes)
    ensures t == DayTotal(day, bytes) || t in table
  {
    if table != [] && day > table[0].day && t != table[0] { NoteInvents(table[1..], day, bytes, t); }
  }

  lemma {:induction false} NoteKeepsOrder(table: seq<DayTotal>, day: nat, bytes: int)
    requires DaysAscend(table)
    ensures DaysAscend(Note(table, day, bytes))
  {
    if table != [] && day > table[0].day {
      var rest := Note(table[1..], day, bytes);
      NoteKeepsOrder(table[1..], day, bytes);
      forall j | 0 <= j < |rest| ensures table[0].day < rest[j].day { NoteInvents(table[1..], day, bytes, rest[j]); }
      AscendCons(table[0], rest);
    }
  }

  lemma AscendCons(t: DayTotal, table: seq<DayTotal>)
    requires DaysAscend(table) && forall j | 0 <= j < |table| :: t.day < table[j].day
    ensures DaysAscend([t] + table)
  {
  }

  lemma {:induction false} MaximaAscend(rs: seq<Reading>)
    ensures DaysAscend(Maxima(rs))
  {
    if rs != [] {
      MaximaAscend(rs[..|rs| - 1]);
      NoteKeepsOrder(Maxima(rs[..|rs| - 1]), rs[|rs| - 1].at / DAY, rs[|rs| - 1].bytes);
    }
  }

  /** A note covers its reading, and what the table already covered. */
  lemma {:induction false} NoteCovers(table: seq<DayTotal>, day: nat, bytes: int, d: nat, b: int)
    requires (d == day && b <= bytes) || exists t <- table :: t.day == d && b <= t.total
    ensures exists t <- Note(table, day, bytes) :: t.day == d && b <= t.total
  {
    if table == [] || day < table[0].day {
      var head := DayTotal(day, bytes);
      assert head in Note(table, day, bytes);
      assert forall t <- table :: t in Note(table, day, bytes);
    } else if day == table[0].day {
      var head := DayTotal(day, Larger(table[0].total, bytes));
      assert head in Note(table, day, bytes);
      assert forall t <- table :: t == table[0] || t in table[1..];
    } else {
      if d == table[0].day && b <= table[0].total {
        assert table[0] in Note(table, day, bytes);
      } else {
        assert forall t <- table :: t == table[0] || t in table[1..];
        NoteCovers(table[1..], day, bytes, d, b);
        var t :| t in Note(table[1..], day, bytes) && t.day == d && b <= t.total;
        assert t in Note(table, day, bytes);
      }
    }
  }

  ghost predicate Read(rs: seq<Reading>, day: nat, bytes: int) {
    exists i :: 0 <= i < |rs| && rs[i].at / DAY == day && rs[i].bytes == bytes
  }

  /** Every reading is at most its day's entry. */
  lemma {:induction false} ReadingCovered(rs: seq<Reading>, i: nat)
    requires i < |rs|
    ensures exists t <- Maxima(rs) :: t.day == rs[i].at / DAY && rs[i].bytes <= t.total
  {
    var n := |rs| - 1;
    if i < n { ReadingCovered(rs[..n], i); }
    NoteCovers(Maxima(rs[..n]), rs[n].at / DAY, rs[n].bytes, rs[i].at / DAY, rs[i].bytes);
  }

  /** Every entry is one of its day's readings. */
  lemma {:induction false} EntryWasRead(rs: seq<Reading>, t: DayTotal)
    requires t in Maxima(rs)
    ensures Read(rs, t.day, t.total)
  {
    var n := |rs| - 1;
    NoteInvents(Maxima(rs[..n]), rs[n].at / DAY, rs[n].bytes, t);
    if t in Maxima(rs[..n]) {
      EntryWasRead(rs[..n], t);
      var i :| 0 <= i < n && rs[..n][i].at / DAY == t.day && rs[..n][i].bytes == t.total;
      assert rs[i].at / DAY == t.day;
    } else {
      assert rs[n].at / DAY == t.day;
    }
  }

  // ---------------------------------------------------------------- one key

  /** LAG(total, 1, 0): a counter starts from zero, so its first day counts whole. */
  function FromZero(table: seq<DayTotal>): seq<DailyUsage> {
    if table == [] then []
    else
      var n := |table| - 1;
      FromZero(table[..n])
      + [DailyUsage(table[n].day, AtLeastZero(table[n].total - if n == 0 then 0 else table[n - 1].total))]
  }

  /** WHERE day >= since, after the differences are taken. */
  function Since(series: seq<DailyUsage>, since: int): seq<DailyUsage> {
    if series == [] then []
    else
      var n := |series| - 1;
      var before := Since(series[..n], since);
      if Recent(series[n], since) then before + [series[n]] else before
  }

  predicate Recent(d: DailyUsage, since: int) { d.day * DAY >= since }

  function DailyUsageByKey(snapshots: seq<UsageSnapshot>, key: Id, now: Time, days: int): seq<DailyUsage> {
    Since(FromZero(Maxima(ReadingsOf(snapshots, key))), now - days * DAY)
  }

  function Total(series: seq<DailyUsage>): int {
    if series == [] then 0 else Total(series[..|series| - 1]) + series[|series| - 1].bytes
  }

  lemma {:induction false} FromZeroDays(table: seq<DayTotal>)
    ensures |FromZero(table)| == |table|
    ensures forall i | 0 <= i < |table| :: FromZero(table)[i].day == table[i].day
  {
    if table != [] { FromZeroDays(table[..|table| - 1]); }
  }

  ghost predicate SeriesAscends(series: seq<DailyUsage>) {
    forall i, j | 0 <= i < j < |series| :: series[i].day < series[j].day
  }

  /** Later days, and longer windows, are no less recent. */
  lemma RecencyGrows(d: DailyUsage, e: DailyUsage, since: int, earlier: int)
    requires d.day <= e.day && earlier <= since && Recent(d, since)
    ensures Recent(e, earlier)
  {
  }

  /** In day order, a window the last day is not in is empty. */
  lemma {:induction false} NothingRecent(series: seq<DailyUsage>, since: int)
    requires SeriesAscends(series)
    requires series != [] ==> !Recent(series[|series| - 1], since)
    ensures Since(series, since) == []
  {
    if |series| > 1 {
      var n := |series| - 1;
      if Recent(series[n - 1], since) { RecencyGrows(series[n - 1], series[n], since, since); }
      NothingRecent(series[..n], since);
    }
  }

  /** Of a series in day order, the shorter window is a suffix of the longer one. */
  lemma {:induction false} ShorterIsSuffix(series: seq<DailyUsage>, later: int, earlier: int) returns (cut: nat)
    requires SeriesAscends(series) && earlier <= later
    ensures cut <= |Since(series, earlier)| && Since(series, later) == Since(series, earlier)[cut..]
  {
    cut := 0;
    if series != [] {
      var n := |series| - 1;
      if Recent(series[n], later) {
        RecencyGrows(series[n], series[n], later, earlier);
        cut := ShorterIsSuffix(series[..n], later, earlier);
      } else {
        NothingRecent(series, later);
        cut := |Since(series, earlier)|;
      }
    }
  }

  lemma KeySeriesAscends(rs: seq<Reading>)
    ensures SeriesAscends(FromZero(Maxima(rs)))
  {
    MaximaAscend(rs);
    FromZeroDays(Maxima(rs));
  }

  /** A key's series over fewer days is a suffix of its series over more days. */
  lemma FewerDaysIsSuffix(snapshots: seq<UsageSnapshot>, key: Id, now: Time, fewer: int, more: int) returns (cut: nat)
    requires fewer <= more
    ensures cut <= |DailyUsageByKey(snapshots, key, now, more)|
    ensures DailyUsageByKey(snapshots, key, now, fewer) == DailyUsageByKey(snapshots, key, now, more)[cut..]
  {
    var rs := ReadingsOf(snapshots, key);
    KeySeriesAscends(rs);
    cut := ShorterIsSuffix(FromZero(Maxima(rs)), now - fewer * DAY, now - more * DAY);
  }

  /** The daily maxima never fall, starting from a counter at zero. */
  ghost predicate NeverFalls(table: seq<DayTotal>) {
    && (table != [] ==> table[0].total >= 0)
    && forall i | 0 < i < |table| :: table[i - 1].total <= table[i].total
  }

  function LastTotal(table: seq<DayTotal>): int { if table == [] then 0 else table[|table| - 1].total }

  lemma OneDayAdds(table: seq<DayTotal>, t: DayTotal)
    ensures Total(FromZero(table + [t])) == Total(FromZero(table)) + AtLeastZero(t.total - LastTotal(table))
  {
    assert (table + [t])[..|table|] == table;
    var series := FromZero(table);
    assert (series + [DailyUsage(t.day, AtLeastZero(t.total - LastTotal(table)))])[..|series|] == series;
  }

  lemma OneDayFalls(table: seq<DayTotal>, t: DayTotal)
    ensures NeverFalls(table + [t]) <==> NeverFalls(table) && LastTotal(table) <= t.total
  {
    var all := table + [t];
    if NeverFalls(all) {
      forall i | 0 < i < |table|
        ensures table[i - 1].total <= table[i].total { assert all[i - 1].total <= all[i].total; }
      if table != [] { assert all[|table| - 1].total <= all[|table|].total && all[0] == table[0]; }
    }
    if NeverFalls(table) && LastTotal(table) <= t.total {
      forall i | 0 < i < |all| ensures all[i - 1].total <= all[i].total {
        if i < |table| { assert table[i - 1].total <= table[i].total; }
      }
    }
  }

  /** The days add up to at least every entry. */
  lemma {:induction false} DaysCoverEntry(table: seq<DayTotal>, i: nat)
    requires i < |table|
    ensures Total(FromZero(table)) >= table[i].total
  {
    var n := |table| - 1;
    var before := table[..n];
    assert table == before + [table[n]];
    OneDayAdds(before, table[n]);
    if i < n { DaysCoverEntry(before, i); } else if n > 0 { DaysCoverEntry(before, n - 1); }
  }

  /** ... and to the last one exactly when the maxima never fall. */
  lemma {:induction false} DaysAddUp(table: seq<DayTotal>)
    ensures Total(FromZero(table)) >= LastTotal(table)
    ensures Total(FromZero(table)) == LastTotal(table) <==> NeverFalls(table)
  {
    if table != [] {
      var n := |table| - 1;
      DaysAddUp(table[..n]);
      assert table == table[..n] + [table[n]];
      OneDayAdds(table[..n], table[n]);
      OneDayFalls(table[..n], table[n]);
    }
  }

  /** The last day a counter was read, and its highest reading that day. */
  function LastDay(rs: seq<Reading>): Option<DayTotal> {
    var table := Maxima(rs);
    if table == [] then None else Some(table[|table| - 1])
  }

  /**
    A key's days over its whole history add up to at least any reading ever taken of it, and to the last
    day's highest reading exactly when the daily maxima never fall.
  */
  lemma WholeHistoryAddsUp(snapshots: seq<UsageSnapshot>, key: Id, now: Time, days: int)
    requires now <= days * DAY
    ensures var rs := ReadingsOf(snapshots, key);
      var total := Total(DailyUsageByKey(snapshots, key, now, days));
      && (forall i | 0 <= i < |rs| :: total >= rs[i].bytes)
      && (rs == [] ==> total == 0)
      && (LastDay(rs).Some? ==> (total == LastDay(rs).value.total <==> NeverFalls(Maxima(rs))))
  {
    var rs := ReadingsOf(snapshots, key);
    WholeWindow(FromZero(Maxima(rs)), now - days * DAY);
    assert DailyUsageByKey(snapshots, key, now, days) == FromZero(Maxima(rs));
    forall i | 0 <= i < |rs| ensures Total(FromZero(Maxima(rs))) >= rs[i].bytes { DaysCoverReading(rs, i); }
    LastDayReached(rs);
  }

  lemma LastDayReached(rs: seq<Reading>)
    ensures rs == [] ==> Total(FromZero(Maxima(rs))) == 0
    ensures LastDay(rs).Some? ==> (Total(FromZero(Maxima(rs))) == LastDay(rs).value.total <==> NeverFalls(Maxima(rs)))
  {
    DaysAddUp(Maxima(rs));
  }

  lemma {:induction false} WholeWindow(series: seq<DailyUsage>, since: int)
    requires since <= 0
    ensures Since(series, since) == series
  {
    if series != [] { WholeWindow(series[..|series| - 1], since); }
  }

  lemma DaysCoverReading(rs: seq<Reading>, i: nat)
    requires i < |rs|
    ensures Total(FromZero(Maxima(rs))) >= rs[i].bytes
  {
    var table := Maxima(rs);
    ReadingCovered(rs, i);
    var t :| t in table && t.day == rs[i].at / DAY && rs[i].bytes <= t.total;
    var j :| 0 <= j < |table| && table[j] == t;
    DaysCoverEntry(table, j);
  }

  /** The highest reading of a day. */
  ghost predicate IsTop(rs: seq<Reading>, day: nat, top: int) {
    && (exists i :: 0 <= i < |rs| && OnDay(rs[i], day) && rs[i].bytes == top)
    && (forall i | 0 <= i < |rs| && OnDay(rs[i], day) :: rs[i].bytes <= top)
  }

  predicate OnDay(r: Reading, day: nat) { day * 86_400_000_000 <= r.at < (day + 1) * 86_400_000_000 }

  /** The highest reading of the last day before this one that has any, or zero. */
  ghost predicate IsTopBefore(rs: seq<Reading>, day: nat, top: int) {
    || (top == 0 && forall i | 0 <= i < |rs| :: rs[i].at >= day * 86_400_000_000)
    || exists d: nat :: d < day && IsTop(rs, d, top)
         && forall i | 0 <= i < |rs| && rs[i].at >= (d + 1) * 86_400_000_000 :: rs[i].at >= day * 86_400_000_000
  }

  /** One day of a key's series: its highest reading less that of the day read before it, and never below zero. */
  ghost predicate IsDayOf(rs: seq<Reading>, e: DailyUsage) {
    exists top, before :: IsTop(rs, e.day, top) && IsTopBefore(rs, e.day, before)
      && e.bytes == if top > before then top - before else 0
  }

  predicate InWindow(day: nat, since: int) { day * 86_400_000_000 >= since }

  ghost predicate ListsDay(series: seq<DailyUsage>, day: nat) { exists e <- series :: e.day == day }

  /** One entry for each day in the window with a reading, in order, and no other. */
  ghost predicate ListsDays(rs: seq<Reading>, series: seq<DailyUsage>, since: int) {
    && (forall i, j | 0 <= i < j < |series| :: series[i].day < series[j].day)
    && (forall e <- series :: InWindow(e.day, since) && IsDayOf(rs, e))
    && (forall i, day {:trigger OnDay(rs[i], day)} | 0 <= i < |rs| && OnDay(rs[i], day) ::
          InWindow(day, since) ==> ListsDay(series, day))
  }

  /** A key's series is that of the days in the window it was read on. */
  lemma DaysAreThoseRead(snapshots: seq<UsageSnapshot>, key: Id, now: Time, days: int)
    ensures ListsDays(ReadingsOf(snapshots, key), DailyUsageByKey(snapshots, key, now, days),
                      now - days * 86_400_000_000)
  {
    var rs, since := ReadingsOf(snapshots, key), now - days * DAY;
    var all := FromZero(Maxima(rs));
    MaximaAscend(rs);
    FromZeroDays(Maxima(rs));
    SinceAscends(all, since);
    forall e <- Since(all, since) ensures InWindow(e.day, since) && IsDayOf(rs, e) {
      SinceKeeps(all, since, e);
      var i :| 0 <= i < |all| && all[i] == e;
      DayIsRight(rs, i);
    }
    forall i, day | 0 <= i < |rs| && OnDay(rs[i], day) && InWindow(day, since)
      ensures ListsDay(Since(all, since), day) { DayIsListed(rs, since, i, day); }
  }

  lemma DayIsListed(rs: seq<Reading>, since: int, i: nat, day: nat)
    requires i < |rs| && OnDay(rs[i], day) && InWindow(day, since)
    ensures ListsDay(Since(FromZero(Maxima(rs)), since), day)
  {
    var all := FromZero(Maxima(rs));
    FromZeroDays(Maxima(rs));
    DayOfReading(rs[i], day);
    ReadingCovered(rs, i);
    var t :| t in Maxima(rs) && t.day == day;
    var j :| 0 <= j < |Maxima(rs)| && Maxima(rs)[j] == t;
    SinceKeeps(all, since, all[j]);
  }

  lemma DayOfReading(r: Reading, day: nat)
    requires OnDay(r, day)
    ensures r.at / DAY == day
  {
  }

  lemma {:induction false} SinceKeeps(series: seq<DailyUsage>, since: int, e: DailyUsage)
    ensures e in Since(series, since) <==> e in series && InWindow(e.day, since)
  {
    if series != [] {
      SinceKeeps(series[..|series| - 1], since, e);
      assert series == series[..|series| - 1] + [series[|series| - 1]];
    }
  }

  lemma {:induction false} SinceAscends(series: seq<DailyUsage>, since: int)
    requires forall i, j | 0 <= i < j < |series| :: series[i].day < series[j].day
    ensures forall i, j | 0 <= i < j < |Since(series, since)| ::
      Since(series, since)[i].day < Since(series, since)[j].day
  {
    if series != [] {
      var before := series[..|series| - 1];
      SinceAscends(before, since);
      forall i | 0 <= i < |Since(before, since)|
        ensures Since(before, since)[i].day < series[|series| - 1].day
      {
        SinceKeeps(before, since, Since(before, since)[i]);
        var j :| 0 <= j < |before| && before[j] == Since(before, since)[i];
        assert series[j] == before[j];
      }
    }
  }

  lemma EntryIsTop(rs: seq<Reading>, i: nat)
    requires i < |Maxima(rs)|
    ensures IsTop(rs, Maxima(rs)[i].day, Maxima(rs)[i].total)
  {
    var table := Maxima(rs);
    var t := table[i];
    EntryWasRead(rs, t);
    MaximaAscend(rs);
    var k :| 0 <= k < |rs| && rs[k].at / DAY == t.day && rs[k].bytes == t.total;
    assert OnDay(rs[k], t.day);
    forall j | 0 <= j < |rs| && OnDay(rs[j], t.day) ensures rs[j].bytes <= t.total {
      assert rs[j].at / DAY == t.day;
      ReadingCovered(rs, j);
      var u :| u in table && u.day == t.day && rs[j].bytes <= u.total;
      var n :| 0 <= n < |table| && table[n] == u;
    }
  }

  lemma {:induction false} FromZeroAt(table: seq<DayTotal>, i: nat)
    requires i < |table|
    ensures |FromZero(table)| == |table|
    ensures FromZero(table)[i] ==
      DailyUsage(table[i].day, AtLeastZero(table[i].total - if i == 0 then 0 else table[i - 1].total))
  {
    FromZeroDays(table);
    FromZeroDays(table[..|table| - 1]);
    if i < |table| - 1 { FromZeroAt(table[..|table| - 1], i); }
  }

  lemma DayIsRight(rs: seq<Reading>, i: nat)
    requires i < |Maxima(rs)|
    ensures |FromZero(Maxima(rs))| == |Maxima(rs)| && IsDayOf(rs, FromZero(Maxima(rs))[i])
  {
    var table := Maxima(rs);
    FromZeroAt(table, i);
    EntryIsTop(rs, i);
    var before := if i == 0 then 0 else table[i - 1].total;
    TopBefore(rs, i);
    assert IsTop(rs, table[i].day, table[i].total) && IsTopBefore(rs, table[i].day, before);
  }

  lemma TopBefore(rs: seq<Reading>, i: nat)
    requires i < |Maxima(rs)|
    ensures IsTopBefore(rs, Maxima(rs)[i].day, if i == 0 then 0 else Maxima(rs)[i - 1].total)
  {
    var table := Maxima(rs);
    MaximaAscend(rs);
    if i > 0 { EntryIsTop(rs, i - 1); }
    forall j | 0 <= j < |rs|
      ensures rs[j].at >= (if i == 0 then 0 else (table[i - 1].day + 1) * DAY) ==> rs[j].at >= table[i].day * DAY
    {
      ReadingCovered(rs, j);
      var u :| u in table && u.day == rs[j].at / DAY;
      var n :| 0 <= n < |table| && table[n] == u;
      assert n >= i ==> table[n].day >= table[i].day;
      assert i > 0 && n < i ==> table[n].day <= table[i - 1].day;
      assert u.day * DAY <= rs[j].at < (u.day + 1) * DAY;
    }
  }

  // ---------------------------------------------------------------- one server

  /** A server's own readings (key_id IS NULL) since a given time. */
  function ServerReadings(snapshots: seq<UsageSnapshot>, server: Id, since: int): seq<Reading> {
    if snapshots == [] then []
    else
      var n := |snapshots| - 1;
      var s, before := snapshots[n], ServerReadings(snapshots[..n], server, since);
      if s.keyID.None? && s.serverID == server && s.recordedAt >= since
      then before + [Reading(s.recordedAt, s.bytesTotal)] else before
  }

  /** LAG(total) with no predecessor is NULL: the first day of the window is dropped. */
  function Measured(table: seq<DayTotal>): seq<DailyUsage> {
    if |table| <= 1 then []
    else
      var n := |table| - 1;
      Measured(table[..n]) + [DailyUsage(table[n].day, AtLeastZero(table[n].total - table[n - 1].total))]
  }

  function DailyUsageByServer(snapshots: seq<UsageSnapshot>, server: Id, now: Time, days: int): seq<DailyUsage> {
    Measured(Maxima(ServerReadings(snapshots, server, now - days * DAY)))
  }

  // ---------------------------------------------------------------- all servers in one query

  datatype Row = Row(server: Id, day: nat, total: int)

  predicate Before(server: Id, day: nat, row: Row) { server < row.server || (server == row.server && day < row.day) }

  /** One reading more in a table grouped by server and day, ordered by both. */
  function NoteRow(rows: seq<Row>, server: Id, day: nat, bytes: int): seq<Row> {
    if rows == [] || Before(server, day, rows[0]) then [Row(server, day, bytes)] + rows
    else if rows[0].server == server && rows[0].day == day
    then [Row(server, day, Larger(rows[0].total, bytes))] + rows[1..]
    else [rows[0]] + NoteRow(rows[1..], server, day, bytes)
  }

  function AllMaxima(snapshots: seq<UsageSnapshot>, since: int): seq<Row> {
    if snapshots == [] then []
    else
      var n := |snapshots| - 1;
      var s := snapshots[n];
      var before := AllMaxima(snapshots[..n], since);
      if s.keyID.None? && s.recordedAt >= since
      then NoteRow(before, s.serverID, s.recordedAt / DAY, s.bytesTotal) else before
  }

  /** LAG(total) OVER (PARTITION BY server_id ORDER BY day): the last earlier row of the same server. */
  function Lag(rows: seq<Row>, server: Id): Option<int> {
    if rows == [] then None
    else if rows[|rows| - 1].server == server then Some(rows[|rows| - 1].total)
    else Lag(rows[..|rows| - 1], server)
  }

  /** The rows that have a predecessor, with what came through since it. */
  function AllMeasured(rows: seq<Row>): seq<(Id, DailyUsage)> {
    if rows == [] then []
    else
      var n := |rows| - 1;
      var lag, before := Lag(rows[..n], rows[n].server), AllMeasured(rows[..n]);
      if lag.Some?
      then before + [(rows[n].server, DailyUsage(rows[n].day, AtLeastZero(rows[n].total - lag.value)))] else before
  }

  /** One server's rows. */
  function Only(rows: seq<Row>, server: Id): seq<DayTotal> {
    if rows == [] then []
    else if rows[0].server == server then [DayTotal(rows[0].day, rows[0].total)] + Only(rows[1..], server)
    else Only(rows[1..], server)
  }

  function OnlySeries(series: seq<(Id, DailyUsage)>, server: Id): seq<DailyUsage> {
    if series == [] then []
    else
      var n := |series| - 1;
      var before := OnlySeries(series[..n], server);
      if series[n].0 == server then before + [series[n].1] else before
  }

  ghost predicate ServersAscend(rows: seq<Row>) {
    forall i, j | 0 <= i < j < |rows| :: rows[i].server <= rows[j].server
  }

  lemma {:induction false} NoneOf(rows: seq<Row>, server: Id)
    requires forall row <- rows :: row.server != server
    ensures Only(rows, server) == []
  {
    if rows != [] { NoneOf(rows[1..], server); }
  }

  lemma {:induction false} NoteRowInvents(rows: seq<Row>, server: Id, day: nat, bytes: int, row: Row)
    requires row in NoteRow(rows, server, day, bytes)
    ensures row.server == server || row in rows
  {
    if rows != [] && row != rows[0] && !Before(server, day, rows[0])
       && !(rows[0].server == server && rows[0].day == day) {
      NoteRowInvents(rows[1..], server, day, bytes, row);
    }
  }

  lemma {:induction false} NoteRowKeepsOrder(rows: seq<Row>, server: Id, day: nat, bytes: int)
    requires ServersAscend(rows)
    ensures ServersAscend(NoteRow(rows, server, day, bytes))
  {
    if rows != [] && !Before(server, day, rows[0])
       && !(rows[0].server == server && rows[0].day == day) {
      var rest := NoteRow(rows[1..], server, day, bytes);
      NoteRowKeepsOrder(rows[1..], server, day, bytes);
      forall j | 0 <= j < |rest| ensures rows[0].server <= rest[j].server {
        NoteRowInvents(rows[1..], server, day, bytes, rest[j]);
      }
    }
  }

  /** Noting a row changes its own server's table, as noting it there does, and no other's. */
  lemma {:induction false} NoteRowOnly(rows: seq<Row>, server: Id, day: nat, bytes: int, s: Id)
    requires ServersAscend(rows)
    ensures Only(NoteRow(rows, server, day, bytes), s)
            == if s == server then Note(Only(rows, s), day, bytes) else Only(rows, s)
  {
    if rows == [] {
    } else if Before(server, day, rows[0]) {
      assert ([Row(server, day, bytes)] + rows)[1..] == rows;
      if server < rows[0].server { NoneOf(rows, server); }
    } else if !(rows[0].server == server && rows[0].day == day) {
      var rest := rows[1..];
      NoteRowOnly(rest, server, day, bytes, s);
      assert rows == [rows[0]] + rest;
      OnlyCons(rows[0], rest, s);
      OnlyCons(rows[0], NoteRow(rest, server, day, bytes), s);
      if s == server == rows[0].server { NoteSkips(rows, day, bytes, s); }
    } else {
      OnlyCons(Row(server, day, Larger(rows[0].total, bytes)), rows[1..], s);
    }
  }

  lemma OnlyCons(row: Row, rows: seq<Row>, s: Id)
    ensures Only([row] + rows, s)
            == if row.server == s then [DayTotal(row.day, row.total)] + Only(rows, s) else Only(rows, s)
  {
  }

  lemma NoteSkips(rows: seq<Row>, day: nat, bytes: int, s: Id)
    requires rows != [] && rows[0].server == s && rows[0].day < day
    ensures Note(Only(rows, s), day, bytes)
            == [DayTotal(rows[0].day, rows[0].total)] + Note(Only(rows[1..], s), day, bytes)
  {
  }

  lemma MaximaSnoc(rs: seq<Reading>, r: Reading)
    ensures Maxima(rs + [r]) == Note(Maxima(rs), r.at / DAY, r.bytes)
  {
  }

  /** Grouping all servers at once gives each server the table it would get alone. */
  lemma {:induction false} GroupedAlike(snapshots: seq<UsageSnapshot>, since: int, server: Id)
    ensures ServersAscend(AllMaxima(snapshots, since))
    ensures Only(AllMaxima(snapshots, since), server) == Maxima(ServerReadings(snapshots, server, since))
  {
    if snapshots != [] {
      var n := |snapshots| - 1;
      var s, before := snapshots[n], AllMaxima(snapshots[..n], since);
      GroupedAlike(snapshots[..n], since, server);
      if s.keyID.None? && s.recordedAt >= since {
        NoteRowKeepsOrder(before, s.serverID, s.recordedAt / DAY, s.bytesTotal);
        NoteRowOnly(before, s.serverID, s.recordedAt / DAY, s.bytesTotal, server);
        MaximaSnoc(ServerReadings(snapshots[..n], server, since), Reading(s.recordedAt, s.bytesTotal));
      }
    }
  }

  lemma {:induction false} OnlySnoc(rows: seq<Row>, row: Row, s: Id)
    ensures Only(rows + [row], s)
            == if row.server == s then Only(rows, s) + [DayTotal(row.day, row.total)] else Only(rows, s)
  {
    if rows == [] {
      assert [] + [row] == [row];
    } else {
      OnlySnoc(rows[1..], row, s);
      assert (rows + [row])[1..] == rows[1..] + [row];
    }
  }

  /** A row's predecessor in its partition is the last row of its server's own table. */
  lemma {:induction false} LagIsLast(rows: seq<Row>, server: Id)
    ensures var own := Only(rows, server);
      Lag(rows, server) == if own == [] then None else Some(own[|own| - 1].total)
  {
    if rows != [] {
      var n := |rows| - 1;
      assert rows == rows[..n] + [rows[n]];
      OnlySnoc(rows[..n], rows[n], server);
      LagIsLast(rows[..n], server);
    }
  }

  /** Differences over partitions are the differences within each server's own table. */
  lemma {:induction false} MeasuredAlike(rows: seq<Row>, server: Id)
    ensures OnlySeries(AllMeasured(rows), server) == Measured(Only(rows, server))
  {
    if rows != [] {
      var n := |rows| - 1;
      assert rows == rows[..n] + [rows[n]];
      MeasuredAlike(rows[..n], server);
      MeasuredAlikeStep(rows[..n], rows[n], server);
    }
  }

  lemma MeasuredAlikeStep(rows: seq<Row>, row: Row, server: Id)
    requires OnlySeries(AllMeasured(rows), server) == Measured(Only(rows, server))
    ensures OnlySeries(AllMeasured(rows + [row]), server) == Measured(Only(rows + [row], server))
  {
    OnlySnoc(rows, row, server);
    LagIsLast(rows, row.server);
    MeasuredSnoc(Only(rows, server), DayTotal(row.day, row.total));
    assert (rows + [row])[..|rows|] == rows;
    var lag := Lag(rows, row.server);
    if lag.Some? {
      OnlySeriesSnoc(AllMeasured(rows), (row.server, DailyUsage(row.day, AtLeastZero(row.total - lag.value))), server);
    }
  }

  lemma MeasuredSnoc(table: seq<DayTotal>, t: DayTotal)
    ensures Measured(table + [t])
            == if table == [] then []
               else Measured(table) + [DailyUsage(t.day, AtLeastZero(t.total - table[|table| - 1].total))]
  {
  }

  lemma OnlySeriesSnoc(series: seq<(Id, DailyUsage)>, e: (Id, DailyUsage), s: Id)
    ensures OnlySeries(series + [e], s) == if e.0 == s then OnlySeries(series, s) + [e.1] else OnlySeries(series, s)
  {
  }

  /** The series listed under a server id, none when the id is absent. */
  function SeriesIn(out: map<Id, seq<DailyUsage>>, server: Id): seq<DailyUsage> {
    if server in out then out[server] else []
  }

  /** One row drained: appended to its server's series, every other series as it was. */
  lemma DrainOne(out: map<Id, seq<DailyUsage>>, row: (Id, DailyUsage), s: Id)
    ensures SeriesIn(out[row.0 := SeriesIn(out, row.0) + [row.1]], s)
            == if row.0 == s then SeriesIn(out, s) + [row.1] else SeriesIn(out, s)
  {
  }

  ghost predicate Drained(out: map<Id, seq<DailyUsage>>, rows: seq<(Id, DailyUsage)>) {
    && (forall s {:trigger SeriesIn(out, s)} :: SeriesIn(out, s) == OnlySeries(rows, s))
    && forall s <- out :: out[s] != []
  }

  lemma DrainedMore(out: map<Id, seq<DailyUsage>>, rows: seq<(Id, DailyUsage)>, row: (Id, DailyUsage))
    requires Drained(out, rows)
    ensures Drained(out[row.0 := SeriesIn(out, row.0) + [row.1]], rows + [row])
  {
    var after := out[row.0 := SeriesIn(out, row.0) + [row.1]];
    forall s ensures SeriesIn(after, s) == OnlySeries(rows + [row], s) {
      assert SeriesIn(out, s) == OnlySeries(rows, s);
      DrainOne(out, row, s);
      OnlySeriesSnoc(rows, row, s);
    }
  }

  /** Drains the query's rows into a map of series. */
  method Drain(rows: seq<(Id, DailyUsage)>) returns (out: map<Id, seq<DailyUsage>>)
    ensures Drained(out, rows)
  {
    out := map[];
    for i := 0 to |rows|
      invariant Drained(out, rows[..i])
    {
      var row := rows[i];
      DrainedMore(out, rows[..i], row);
      assert rows[..i] + [row] == rows[..i + 1];
      out := out[row.0 := SeriesIn(out, row.0) + [row.1]];
    }
    assert rows[..|rows|] == rows;
  }

  /** Every server's series in one query; each is what asking for that server alone gives. */
  method DailyUsageAllServers(snapshots: seq<UsageSnapshot>, now: Time, days: int)
    returns (out: map<Id, seq<DailyUsage>>)
    ensures forall server :: SeriesIn(out, server) == DailyUsageByServer(snapshots, server, now, days)
    ensures forall server <- out :: out[server] != []
  {
    var since := now - days * DAY;
    var rows := AllMeasured(AllMaxima(snapshots, since));
    out := Drain(rows);
    forall server ensures SeriesIn(out, server) == DailyUsageByServer(snapshots, server, now, days) {
      assert SeriesIn(out, server) == OnlySeries(rows, server);
      AllOrOne(snapshots, since, server);
    }
  }

  /** The all-servers query restricted to one server is the single-server query. */
  lemma AllOrOne(snapshots: seq<UsageSnapshot>, since: int, server: Id)
    ensures OnlySeries(AllMeasured(AllMaxima(snapshots, since)), server)
            == Measured(Maxima(ServerReadings(snapshots, server, since)))
  {
    GroupedAlike(snapshots, since, server);
    MeasuredAlike(AllMaxima(snapshots, since), server);
  }
}
