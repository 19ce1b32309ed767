/** The revenue trend chart: merging the servers' daily points and resampling them to coarser periods. */
module Revenue {
  import opened Wrappers
  import opened Text

  /** One server's reading for a day. */
  datatype RevenuePoint = RevenuePoint(date: string, revenueMmk: int, costUsdPerMonth: Option<real>)

  /** One day of the chart, or one period of it. */
  datatype Point = Point(date: string, revenueMmk: int, costMmk: real)

  datatype Granularity = Day | Month | Year

  // ---------------------------------------------------------------- merging

  function CostOf(p: RevenuePoint, mmkPerUsd: real): real { p.costUsdPerMonth.GetOr(0.0) * mmkPerUsd }

  /** What all readings for one date come to. */
  function OnDate(ps: seq<RevenuePoint>, date: string, mmkPerUsd: real): Point {
    if ps == [] then Point(date, 0, 0.0)
    else
      var n := |ps| - 1;
      var before := OnDate(ps[..n], date, mmkPerUsd);
      if ps[n].date == date
      then Point(date, before.revenueMmk + ps[n].revenueMmk, before.costMmk + CostOf(ps[n], mmkPerUsd))
      else before
  }

  /** Revenue and cost of one date; a reading without a cost has none. */
  function RevenueOnDate(ps: seq<RevenuePoint>, date: string): int {
    if ps == [] then 0
    else RevenueOnDate(ps[..|ps| - 1], date) + if ps[|ps| - 1].date == date then ps[|ps| - 1].revenueMmk else 0
  }

  function CostOnDate(ps: seq<RevenuePoint>, date: string, mmkPerUsd: real): real {
    if ps == [] then 0.0
    else
      var p := ps[|ps| - 1];
      CostOnDate(ps[..|ps| - 1], date, mmkPerUsd)
      + if p.date == date && p.costUsdPerMonth.Some? then p.costUsdPerMonth.value * mmkPerUsd else 0.0
  }

  lemma {:induction false} OnDateSays(ps: seq<RevenuePoint>, date: string, mmkPerUsd: real)
    ensures OnDate(ps, date, mmkPerUsd)
            == Point(date, RevenueOnDate(ps, date), CostOnDate(ps, date, mmkPerUsd))
  {
    if ps != [] { OnDateSays(ps[..|ps| - 1], date, mmkPerUsd); }
  }

  function Flatten(servers: seq<seq<RevenuePoint>>): seq<RevenuePoint> {
    if servers == [] then [] else Flatten(servers[..|servers| - 1]) + servers[|servers| - 1]
  }

  function TotalRevenue(ps: seq<RevenuePoint>): int {
    if ps == [] then 0 else TotalRevenue(ps[..|ps| - 1]) + ps[|ps| - 1].revenueMmk
  }

  function TotalOf(points: seq<Point>): int {
    if points == [] then 0 else TotalOf(points[..|points| - 1]) + points[|points| - 1].revenueMmk
  }

  /** A Map in insertion order: its keys, and the point under each. */
  ghost predicate IsMap(keys: seq<string>, byDate: map<string, Point>) {
    Distinct(keys) && forall d :: d in keys <==> d in byDate
  }

  function PointsOf(keys: seq<string>, byDate: map<string, Point>): seq<Point>
    requires forall i | 0 <= i < |keys| :: keys[i] in byDate
  {
    if keys == [] then [] else PointsOf(keys[..|keys| - 1], byDate) + [byDate[keys[|keys| - 1]]]
  }

  predicate HasReading(ps: seq<RevenuePoint>, date: string) { exists i :: 0 <= i < |ps| && ps[i].date == date }

  predicate HasPoint(points: seq<Point>, date: string) { exists i :: 0 <= i < |points| && points[i].date == date }

  ghost predicate Merges(ps: seq<RevenuePoint>, keys: seq<string>, byDate: map<string, Point>, mmkPerUsd: real) {
    && IsMap(keys, byDate)
    && (forall d :: d in byDate <==> HasReading(ps, d))
    && (forall d <- byDate :: byDate[d] == OnDate(ps, d, mmkPerUsd))
  }

  lemma AbsentIsZero(ps: seq<RevenuePoint>, date: string, mmkPerUsd: real)
    requires forall i | 0 <= i < |ps| :: ps[i].date != date
    ensures OnDate(ps, date, mmkPerUsd) == Point(date, 0, 0.0)
  {
  }

  lemma {:induction false} PointsOfAt(keys: seq<string>, byDate: map<string, Point>)
    requires forall i | 0 <= i < |keys| :: keys[i] in byDate
    ensures |PointsOf(keys, byDate)| == |keys|
    ensures forall i | 0 <= i < |keys| :: PointsOf(keys, byDate)[i] == byDate[keys[i]]
  {
    if keys != [] { PointsOfAt(keys[..|keys| - 1], byDate); }
  }

  /** The revenue of the given dates together. */
  function RevenueOn(ps: seq<RevenuePoint>, dates: seq<string>, mmkPerUsd: real): int {
    if dates == [] then 0
    else RevenueOn(ps, dates[..|dates| - 1], mmkPerUsd) + OnDate(ps, dates[|dates| - 1], mmkPerUsd).revenueMmk
  }

  lemma {:induction false} TotalOfPoints(ps: seq<RevenuePoint>, dates: seq<string>, points: seq<Point>, mmkPerUsd: real)
    requires |points| == |dates|
    requires forall i | 0 <= i < |dates| :: points[i] == OnDate(ps, dates[i], mmkPerUsd)
    ensures TotalOf(points) == RevenueOn(ps, dates, mmkPerUsd)
  {
    if dates != [] { TotalOfPoints(ps, dates[..|dates| - 1], points[..|dates| - 1], mmkPerUsd); }
  }

  lemma {:induction false} OneReadingMore(ps: seq<RevenuePoint>, p: RevenuePoint, dates: seq<string>, mmkPerUsd: real)
    requires Distinct(dates)
    ensures RevenueOn(ps + [p], dates, mmkPerUsd)
            == RevenueOn(ps, dates, mmkPerUsd) + if p.date in dates then p.revenueMmk else 0
  {
    if dates != [] {
      var n := |dates| - 1;
      OneReadingMore(ps, p, dates[..n], mmkPerUsd);
      assert (ps + [p])[..|ps|] == ps;
      assert p.date in dates <==> p.date in dates[..n] || p.date == dates[n];
    }
  }

  lemma {:induction false} NothingOnNoReadings(dates: seq<string>, mmkPerUsd: real)
    ensures RevenueOn([], dates, mmkPerUsd) == 0
  {
    if dates != [] { NothingOnNoReadings(dates[..|dates| - 1], mmkPerUsd); }
  }

  /** Distinct dates that cover all readings account for all revenue, once. */
  lemma {:induction false} AllRevenueCounted(ps: seq<RevenuePoint>, dates: seq<string>, mmkPerUsd: real)
    requires Distinct(dates) && forall i | 0 <= i < |ps| :: ps[i].date in dates
    ensures RevenueOn(ps, dates, mmkPerUsd) == TotalRevenue(ps)
  {
    if ps == [] {
      NothingOnNoReadings(dates, mmkPerUsd);
    } else {
      var n := |ps| - 1;
      AllRevenueCounted(ps[..n], dates, mmkPerUsd);
      OneReadingMore(ps[..n], ps[n], dates, mmkPerUsd);
      assert ps[..n] + [ps[n]] == ps;
    }
  }

  /** One more reading, added to its date's point or starting a new one. */
  method AddReading(ghost ps: seq<RevenuePoint>, p: RevenuePoint, keys: seq<string>, byDate: map<string, Point>,
                    mmkPerUsd: real)
    returns (newKeys: seq<string>, newByDate: map<string, Point>)
    requires Merges(ps, keys, byDate, mmkPerUsd)
    ensures Merges(ps + [p], newKeys, newByDate, mmkPerUsd)
  {
    var costMmk := CostOf(p, mmkPerUsd);
    var existing := if p.date in byDate then byDate[p.date] else Point(p.date, 0, 0.0);
    newByDate := byDate[p.date := Point(p.date, existing.revenueMmk + p.revenueMmk, existing.costMmk + costMmk)];
    newKeys := if p.date in byDate then keys else keys + [p.date];
    var all := ps + [p];
    assert all[..|ps|] == ps;
    if p.date !in byDate {
      forall i | 0 <= i < |ps| ensures ps[i].date != p.date { assert HasReading(ps, ps[i].date); }
      AbsentIsZero(ps, p.date, mmkPerUsd);
    }
    forall d ensures d in newByDate <==> HasReading(all, d) {
      assert d in byDate <==> HasReading(ps, d);
      if HasReading(ps, d) { var i :| 0 <= i < |ps| && ps[i].date == d; assert all[i].date == d; }
      if d == p.date { assert all[|ps|].date == d; }
    }
  }

  /** Fills the map with every server's readings, server by server. */
  method Collect(servers: seq<seq<RevenuePoint>>, mmkPerUsd: real)
    returns (keys: seq<string>, byDate: map<string, Point>)
    ensures Merges(Flatten(servers), keys, byDate, mmkPerUsd)
  {
    keys, byDate := [], map[];
    for s := 0 to |servers|
      invariant Merges(Flatten(servers[..s]), keys, byDate, mmkPerUsd)
    {
      var series := servers[s];
      ghost var before := Flatten(servers[..s]);
      assert before + series[..0] == before;
      for i := 0 to |series|
        invariant Merges(before + series[..i], keys, byDate, mmkPerUsd)
      {
        keys, byDate := AddReading(before + series[..i], series[i], keys, byDate, mmkPerUsd);
        assert before + series[..i] + [series[i]] == before + series[..i + 1];
      }
      assert series[..|series|] == series;
      assert servers[..s + 1][..s] == servers[..s];
    }
    assert servers[..|servers|] == servers;
  }

  /** Sums every server's reading for each day, in date order. */
  method MergeByDate(servers: seq<seq<RevenuePoint>>, mmkPerUsd: real) returns (points: seq<Point>)
    ensures TotalOf(points) == TotalRevenue(Flatten(servers))
    ensures InOrder(points)
    ensures forall i | 0 <= i < |points| :: points[i] == OnDate(Flatten(servers), points[i].date, mmkPerUsd)
    ensures forall i | 0 <= i < |points| ::
      && points[i].revenueMmk == RevenueOnDate(Flatten(servers), points[i].date)
      && points[i].costMmk == CostOnDate(Flatten(servers), points[i].date, mmkPerUsd)
    ensures forall d :: HasPoint(points, d) <==> HasReading(Flatten(servers), d)
  {
    var keys, byDate := Collect(servers, mmkPerUsd);
    var sorted := Sort(keys);
    SortedKeys(keys, byDate);
    points := PointsOf(sorted, byDate);
    ghost var ps := Flatten(servers);
    PointsListed(ps, sorted, byDate, mmkPerUsd);
    ListedTotal(ps, sorted, points, mmkPerUsd);
    ListedInOrder(ps, sorted, points, mmkPerUsd);
    forall i | 0 <= i < |points|
      ensures points[i].revenueMmk == RevenueOnDate(ps, points[i].date)
      ensures points[i].costMmk == CostOnDate(ps, points[i].date, mmkPerUsd)
    {
      OnDateSays(ps, points[i].date, mmkPerUsd);
    }
    forall d ensures HasPoint(points, d) <==> HasReading(ps, d) {
      ListedDates(ps, sorted, points, mmkPerUsd, d);
    }
  }

  lemma SortedKeys(keys: seq<string>, byDate: map<string, Point>)
    requires IsMap(keys, byDate)
    ensures Sorted(Sort(keys)) && IsMap(Sort(keys), byDate)
    ensures forall i | 0 <= i < |Sort(keys)| :: Sort(keys)[i] in byDate
  {
    SortSorts(keys);
    var sorted := Sort(keys);
    assert forall d :: d in sorted <==> d in multiset(sorted);
    forall i | 0 <= i < |sorted| ensures sorted[i] in byDate { assert sorted[i] in multiset(sorted); }
  }

  /** The points listed under the given dates: the i-th is dated, and counts, what the i-th date's readings come to. */
  ghost predicate Lists(ps: seq<RevenuePoint>, dates: seq<string>, points: seq<Point>, mmkPerUsd: real) {
    && |points| == |dates|
    && forall i | 0 <= i < |dates| :: points[i].date == dates[i] && points[i] == OnDate(ps, dates[i], mmkPerUsd)
  }

  lemma PointsListed(ps: seq<RevenuePoint>, sorted: seq<string>, byDate: map<string, Point>, mmkPerUsd: real)
    requires forall d <- byDate :: byDate[d] == OnDate(ps, d, mmkPerUsd)
    requires forall i | 0 <= i < |sorted| :: sorted[i] in byDate
    ensures Lists(ps, sorted, PointsOf(sorted, byDate), mmkPerUsd)
  {
    PointsOfAt(sorted, byDate);
    forall i | 0 <= i < |sorted| ensures OnDate(ps, sorted[i], mmkPerUsd).date == sorted[i] {
      OnDateDated(ps, sorted[i], mmkPerUsd);
    }
  }

  lemma ListedTotal(ps: seq<RevenuePoint>, sorted: seq<string>, points: seq<Point>, mmkPerUsd: real)
    requires Lists(ps, sorted, points, mmkPerUsd) && Distinct(sorted)
    requires forall d | HasReading(ps, d) :: d in sorted
    ensures TotalOf(points) == TotalRevenue(ps)
  {
    TotalOfPoints(ps, sorted, points, mmkPerUsd);
    forall i | 0 <= i < |ps| ensures ps[i].date in sorted { assert HasReading(ps, ps[i].date); }
    AllRevenueCounted(ps, sorted, mmkPerUsd);
  }

  lemma ListedDates(ps: seq<RevenuePoint>, sorted: seq<string>, points: seq<Point>, mmkPerUsd: real, d: string)
    requires Lists(ps, sorted, points, mmkPerUsd)
    ensures HasPoint(points, d) <==> d in sorted
  {
  }

  lemma ListedInOrder(ps: seq<RevenuePoint>, sorted: seq<string>, points: seq<Point>, mmkPerUsd: real)
    requires Lists(ps, sorted, points, mmkPerUsd) && Sorted(sorted) && Distinct(sorted)
    ensures InOrder(points)
  {
  }

  lemma {:induction false} OnDateDated(ps: seq<RevenuePoint>, date: string, mmkPerUsd: real)
    ensures OnDate(ps, date, mmkPerUsd).date == date
  {
    if ps != [] { OnDateDated(ps[..|ps| - 1], date, mmkPerUsd); }
  }

  /** Strictly increasing dates: one point per date, in date order. */
  ghost predicate InOrder(points: seq<Point>) {
    forall i, j | 0 <= i < j < |points| :: AtMost(points[i].date, points[j].date) && points[i].date != points[j].date
  }

  // ---------------------------------------------------------------- resampling

  function PeriodKey(date: string, g: Granularity): string {
    match g
    case Year => Take(date, 4)
    case Month => Take(date, 7)
    case Day => date
  }

  /** Map.set: replaces the point already under that key, in its place, or appends a new one. */
  function Put(entries: seq<Point>, key: string, p: Point): seq<Point> {
    if entries == [] then [p.(date := key)]
    else if entries[0].date == key then [p.(date := key)] + entries[1..]
    else [entries[0]] + Put(entries[1..], key, p)
  }

  /** A level, not a sum: each period takes its latest reading. */
  function Resampled(points: seq<Point>, g: Granularity): seq<Point> {
    if g == Day then points
    else if points == [] then []
    else
      var n := |points| - 1;
      Put(Resampled(points[..n], g), PeriodKey(points[n].date, g), points[n])
  }

  method Resample(points: seq<Point>, g: Granularity) returns (out: seq<Point>)
    ensures out == Resampled(points, g)
  {
    if g == Day { return points; }
    out := [];
    for i := 0 to |points|
      invariant out == Resampled(points[..i], g)
    {
      assert points[..i + 1][..i] == points[..i];
      out := Put(out, PeriodKey(points[i].date, g), points[i]);
    }
    assert points[..|points|] == points;
  }

  /** On dates in order, setting a key replaces the last entry or appends. */
  lemma {:induction false} PutAtEnd(entries: seq<Point>, key: string, p: Point)
    requires forall i | 0 <= i < |entries| - 1 :: entries[i].date != key
    ensures Put(entries, key, p) ==
      if entries != [] && entries[|entries| - 1].date == key then entries[..|entries| - 1] + [p.(date := key)]
      else entries + [p.(date := key)]
  {
    if entries != [] && entries[0].date != key {
      PutAtEnd(entries[1..], key, p);
      assert entries == [entries[0]] + entries[1..];
    }
  }

  /** Only the last value set under a key counts, and of its date only the key. */
  lemma {:induction false} PutTwice(entries: seq<Point>, key: string, p: Point, q: Point, r: Point)
    requires q.(date := key) == r.(date := key)
    ensures Put(Put(entries, key, p), key, q) == Put(entries, key, r) && Put(entries, key, q) == Put(entries, key, r)
  {
    if entries != [] && entries[0].date != key { PutTwice(entries[1..], key, p, q, r); }
  }

  ghost predicate DatesAscend(points: seq<Point>) {
    forall i, j | 0 <= i < j < |points| :: AtMost(points[i].date, points[j].date)
  }

  /** Where the k-th stretch of readings begins, given where each one ends. */
  function StartOf(ends: seq<nat>, k: nat): nat
    requires k < |ends|
  {
    if k == 0 then 0 else ends[k - 1] + 1
  }

  /** The k-th entry is the last reading of the k-th stretch, all of which is of that entry's period. */
  ghost predicate IsStretch(points: seq<Point>, out: seq<Point>, ends: seq<nat>, g: Granularity, k: nat)
    requires k < |ends| == |out|
  {
    && StartOf(ends, k) <= ends[k] < |points|
    && out[k] == points[ends[k]].(date := out[k].date)
    && forall i | StartOf(ends, k) <= i <= ends[k] :: Names(out[k].date, points[i].date, g)
  }

  /** The year of a date is its first four characters, its month the first seven. */
  predicate Names(period: string, date: string, g: Granularity) {
    var n := if g == Year then 4 else 7;
    period <= date && |period| == if |date| < n then |date| else n
  }

  /** The readings fall into consecutive stretches, one per entry. */
  ghost predicate Stretches(points: seq<Point>, out: seq<Point>, ends: seq<nat>, g: Granularity) {
    && |ends| == |out|
    && (points == [] ==> out == [])
    && (points != [] ==> out != [] && ends[|ends| - 1] == |points| - 1)
    && forall k: nat {:trigger IsStretch(points, out, ends, g, k)} | k < |ends| :: IsStretch(points, out, ends, g, k)
  }

  /** The next date's period is the last entry's or comes after all entries. */
  lemma NextPeriod(points: seq<Point>, out: seq<Point>, g: Granularity)
    requires DatesAscend(points) && |points| > 1 && g != Day && InOrder(out) && out != []
    requires out[|out| - 1].date == PeriodKey(points[|points| - 2].date, g)
    ensures var key := PeriodKey(points[|points| - 1].date, g);
      && (forall k | 0 <= k < |out| :: AtMost(out[k].date, key))
      && (forall k | 0 <= k < |out| - 1 :: out[k].date != key)
  {
    var n, last := |points| - 1, |out| - 1;
    var key := PeriodKey(points[n].date, g);
    TakeMonotone(points[n - 1].date, points[n].date, if g == Year then 4 else 7);
    forall k | 0 <= k < last ensures out[k].date != key && AtMost(out[k].date, key) {
      AtMostTransitive(out[k].date, out[last].date, key);
      AtMostTotal(out[k].date, out[last].date);
    }
  }

  lemma NewStretch(points: seq<Point>, p: Point, out: seq<Point>, ends: seq<nat>, g: Granularity)
    requires Stretches(points, out, ends, g) && g != Day
    ensures Stretches(points + [p], out + [p.(date := PeriodKey(p.date, g))], ends + [|points|], g)
  {
    var all, newOut, newEnds := points + [p], out + [p.(date := PeriodKey(p.date, g))], ends + [|points|];
    forall k: nat | k < |newEnds| ensures IsStretch(all, newOut, newEnds, g, k) {
      if k < |ends| { assert IsStretch(points, out, ends, g, k); }
    }
  }

  lemma LongerStretch(points: seq<Point>, p: Point, out: seq<Point>, ends: seq<nat>, g: Granularity)
    requires points != [] && Stretches(points, out, ends, g) && g != Day
    requires out[|out| - 1].date == PeriodKey(p.date, g)
    ensures var last := |out| - 1;
      Stretches(points + [p], out[..last] + [p.(date := PeriodKey(p.date, g))], ends[..last] + [|points|], g)
  {
    var last := |out| - 1;
    var all := points + [p];
    var newOut, newEnds := out[..last] + [p.(date := PeriodKey(p.date, g))], ends[..last] + [|points|];
    forall k: nat | k < |newEnds| ensures IsStretch(all, newOut, newEnds, g, k) {
      assert IsStretch(points, out, ends, g, k);
    }
  }

  /** Dates in order, resampled: one entry per period, periods in order, each the last reading in its period. */
  lemma {:induction false} LatestOfEachPeriod(points: seq<Point>, g: Granularity) returns (ends: seq<nat>)
    requires DatesAscend(points) && g != Day
    ensures InOrder(Resampled(points, g)) && Stretches(points, Resampled(points, g), ends, g)
  {
    ends := [];
    if points != [] {
      var n := |points| - 1;
      var p, before := points[n], points[..n];
      assert points == before + [p];
      ends := LatestOfEachPeriod(before, g);
      ends := OneMoreReading(before, p, Resampled(before, g), ends, g);
      ResampledSnoc(before, p, g);
    }
  }

  lemma OrderedEnd(out: seq<Point>, n: nat, e: Point)
    requires n <= |out| && InOrder(out)
    requires forall k | 0 <= k < n :: AtMost(out[k].date, e.date) && out[k].date != e.date
    ensures InOrder(out[..n] + [e])
  {
  }

  lemma OneMoreReading(points: seq<Point>, p: Point, out: seq<Point>, ends: seq<nat>,
                       g: Granularity) returns (newEnds: seq<nat>)
    requires DatesAscend(points + [p]) && g != Day
    requires InOrder(out) && Stretches(points, out, ends, g)
    ensures InOrder(Put(out, PeriodKey(p.date, g), p))
    ensures Stretches(points + [p], Put(out, PeriodKey(p.date, g), p), newEnds, g)
  {
    var key, last := PeriodKey(p.date, g), |out| - 1;
    LastOrNone(points, p, out, ends, g);
    PutAtEnd(out, key, p);
    if points != [] && out[last].date == key {
      OrderedEnd(out, last, p.(date := key));
      LongerStretch(points, p, out, ends, g);
      newEnds := ends[..last] + [|points|];
    } else {
      OrderedEnd(out, |out|, p.(date := key));
      assert out[..|out|] == out;
      NewStretch(points, p, out, ends, g);
      newEnds := ends + [|points|];
    }
  }

  lemma ResampledSnoc(points: seq<Point>, p: Point, g: Granularity)
    requires g != Day
    ensures Resampled(points + [p], g) == Put(Resampled(points, g), PeriodKey(p.date, g), p)
  {
  }

  /** The entry a further reading joins is the last one, if any. */
  lemma LastOrNone(points: seq<Point>, p: Point, out: seq<Point>, ends: seq<nat>, g: Granularity)
    requires DatesAscend(points + [p]) && g != Day
    requires InOrder(out) && Stretches(points, out, ends, g)
    ensures forall k | 0 <= k < |out| :: AtMost(out[k].date, PeriodKey(p.date, g))
    ensures forall k | 0 <= k < |out| - 1 :: out[k].date != PeriodKey(p.date, g)
  {
    if points != [] {
      var all := points + [p];
      assert IsStretch(points, out, ends, g, |out| - 1);
      assert all[|all| - 2] == points[|points| - 1];
      NextPeriod(all, out, g);
    }
  }

  /** Resampling one reading more appends an entry or replaces the last one. */
  lemma AppendOrReplace(points: seq<Point>, p: Point, g: Granularity)
    requires DatesAscend(points + [p]) && g != Day
    ensures
      var before, entry := Resampled(points, g), p.(date := PeriodKey(p.date, g));
      || Resampled(points + [p], g) == before + [entry]
      || (before != [] && before[|before| - 1].date == entry.date
          && Resampled(points + [p], g) == before[..|before| - 1] + [entry])
  {
    AscendPrefix(points, p);
    var ends := LatestOfEachPeriod(points, g);
    LastOrNone(points, p, Resampled(points, g), ends, g);
    PutAtEnd(Resampled(points, g), PeriodKey(p.date, g), p);
    ResampledSnoc(points, p, g);
  }

  lemma AscendPrefix(points: seq<Point>, p: Point)
    requires DatesAscend(points + [p])
    ensures DatesAscend(points)
  {
    var all := points + [p];
    forall i, j | 0 <= i < j < |points| ensures AtMost(points[i].date, points[j].date) {
      assert AtMost(all[i].date, all[j].date);
    }
  }

  /** Either way, the years see only the new reading. */
  lemma YearsSeeLatest(months: seq<Point>, after: seq<Point>, p: Point)
    requires var entry := p.(date := PeriodKey(p.date, Month));
      || after == months + [entry]
      || (months != [] && months[|months| - 1].date == entry.date && after == months[..|months| - 1] + [entry])
    ensures Resampled(after, Year) == Put(Resampled(months, Year), PeriodKey(p.date, Year), p)
  {
    var entry, year := p.(date := PeriodKey(p.date, Month)), PeriodKey(p.date, Year);
    assert PeriodKey(entry.date, Year) == year;
    if after == months + [entry] {
      ResampledSnoc(months, entry, Year);
      PutTwice(Resampled(months, Year), year, entry, entry, p);
    } else {
      var rest, replaced := months[..|months| - 1], months[|months| - 1];
      assert months == rest + [replaced];
      ResampledSnoc(rest, replaced, Year);
      ResampledSnoc(rest, entry, Year);
      PutTwice(Resampled(rest, Year), year, replaced, p, entry);
    }
  }

  /** Resampling to months and those to years is resampling to years. */
  lemma {:induction false} MonthsThenYears(points: seq<Point>)
    requires DatesAscend(points)
    ensures Resampled(Resampled(points, Month), Year) == Resampled(points, Year)
  {
    if points != [] {
      var n := |points| - 1;
      var p, before := points[n], points[..n];
      assert points == before + [p];
      MonthsThenYears(before);
      AppendOrReplace(before, p, Month);
      YearsSeeLatest(Resampled(before, Month), Resampled(points, Month), p);
      ResampledSnoc(before, p, Year);
    }
  }
}
