/**
  Instants and calendar months.

  An instant counts microseconds (the resolution of a Postgres timestamptz) from the zero time of
  Go's time package, midnight on 1 January of year 1, in one UTC-like zone.
  Months are counted from that same January, so month n is month n % 12 + 1 of year n / 12 + 1.
*/
module Calendar {

  type Time = nat

  const DAY: nat := 86_400_000_000

  predicate Leap(year: int) {
    year % 4 == 0 && (year % 100 != 0 || year % 400 == 0)
  }

  function MonthLength(year: int, month: int): (days: nat)
    ensures 28 <= days <= 31
  {
    if month == 2 then (if Leap(year) then 29 else 28)
    else if month == 4 || month == 6 || month == 9 || month == 11 then 30
    else 31
  }

  /** The number of days before the first day of month n. */
  function MonthStart(n: nat): nat {
    if n == 0 then 0 else MonthStart(n - 1) + MonthLength((n - 1) / 12 + 1, (n - 1) % 12 + 1)
  }

  /** The month, at or after month n, that a day falls in. */
  function MonthFrom(day: nat, n: nat): (m: nat)
    requires MonthStart(n) <= day
    ensures n <= m && MonthStart(m) <= day < MonthStart(m + 1)
    decreases day - MonthStart(n)
  {
    if day < MonthStart(n + 1) then n else MonthFrom(day, n + 1)
  }

  function MonthOf(t: Time): nat { MonthFrom(t / DAY, 0) }

  lemma MonthBounds(t: Time)
    ensures MonthStart(MonthOf(t)) * DAY <= t < MonthStart(MonthOf(t) + 1) * DAY
  {
  }

  function Year(t: Time): nat { MonthOf(t) / 12 + 1 }

  function Month(t: Time): nat { MonthOf(t) % 12 + 1 }

  function StartOfMonth(t: Time): Time {
    MonthStart(MonthOf(t)) * DAY
  }

  predicate SameMonth(a: Time, b: Time) {
    Year(a) == Year(b) && Month(a) == Month(b)
  }

  /** Leap days among the first `years` years. */
  function LeapDays(years: nat): int {
    years / 4 - years / 100 + years / 400
  }

  /** The month lengths above add up to the Gregorian year: n years take 365 days each and the leap
      days of every fourth year, less every hundredth, plus every four-hundredth. */
  lemma {:induction false} YearsAreGregorian(years: nat)
    ensures MonthStart(12 * years) == 365 * years + LeapDays(years)
  {
    if years > 0 {
      YearsAreGregorian(years - 1);
      LeapDaysStep(years);
      YearLength(years);
    }
  }

  lemma LeapDaysStep(year: nat)
    requires 1 <= year
    ensures LeapDays(year) == LeapDays(year - 1) + if Leap(year) then 1 else 0
  {
    var a, b, c := year / 4, year / 100, year / 400;
    assert a == (year - 1) / 4 + if year % 4 == 0 then 1 else 0;
    assert b == (year - 1) / 100 + if year % 100 == 0 then 1 else 0;
    assert c == (year - 1) / 400 + if year % 400 == 0 then 1 else 0;
  }

  /** The number of days in the first `months` months of a year. */
  function DaysInto(year: nat, months: nat): nat {
    if months == 0 then 0 else DaysInto(year, months - 1) + MonthLength(year, months)
  }

  lemma YearLength(year: nat)
    requires 1 <= year
    ensures MonthStart(12 * year) == MonthStart(12 * (year - 1)) + 365 + if Leap(year) then 1 else 0
  {
    MonthsIntoYear(year - 1, 12);
    assert 12 * (year - 1) + 12 == 12 * year;
    assert DaysInto(year, 1) == 31;
    assert DaysInto(year, 2) == 59 + if Leap(year) then 1 else 0;
    assert DaysInto(year, 4) == DaysInto(year, 2) + 61;
    assert DaysInto(year, 6) == DaysInto(year, 4) + 61;
    assert DaysInto(year, 8) == DaysInto(year, 6) + 62;
    assert DaysInto(year, 10) == DaysInto(year, 8) + 61;
    assert DaysInto(year, 12) == DaysInto(year, 10) + 61;
  }

  /** The first days of the months, counted from the first of the year. */
  lemma MonthTable(years: nat, months: nat)
    requires months <= 12
    ensures
      var leap := if (years + 1) % 4 == 0 && ((years + 1) % 100 != 0 || (years + 1) % 400 == 0) then 1 else 0;
      MonthStart(12 * years + months) - MonthStart(12 * years) ==
        if months == 0 then 0 else if months == 1 then 31
        else [59, 90, 120, 151, 181, 212, 243, 273, 304, 334, 365][months - 2] + leap
  {
    MonthsIntoYear(years, months);
    DaysIntoTable(years + 1, months);
  }

  lemma DaysIntoTable(year: nat, months: nat)
    requires months <= 12
    ensures DaysInto(year, months) ==
      if months == 0 then 0 else if months == 1 then 31
      else [59, 90, 120, 151, 181, 212, 243, 273, 304, 334, 365][months - 2] + if Leap(year) then 1 else 0
  {
    assert DaysInto(year, 1) == 31;
    assert DaysInto(year, 2) == 59 + if Leap(year) then 1 else 0;
    assert DaysInto(year, 3) == DaysInto(year, 2) + 31;
    assert DaysInto(year, 4) == DaysInto(year, 3) + 30;
    assert DaysInto(year, 5) == DaysInto(year, 4) + 31;
    assert DaysInto(year, 6) == DaysInto(year, 5) + 30;
    assert DaysInto(year, 7) == DaysInto(year, 6) + 31;
    assert DaysInto(year, 8) == DaysInto(year, 7) + 31;
    assert DaysInto(year, 9) == DaysInto(year, 8) + 30;
    assert DaysInto(year, 10) == DaysInto(year, 9) + 31;
    assert DaysInto(year, 11) == DaysInto(year, 10) + 30;
    assert DaysInto(year, 12) == DaysInto(year, 11) + 31;
  }

  lemma {:induction false} MonthsIntoYear(years: nat, months: nat)
    requires months <= 12
    ensures MonthStart(12 * years + months) == MonthStart(12 * years) + DaysInto(years + 1, months)
  {
    if months > 0 {
      MonthsIntoYear(years, months - 1);
      YearAndMonth(years, months - 1);
    }
  }

  lemma YearAndMonth(years: nat, months: nat)
    requires months < 12
    ensures (12 * years + months) / 12 == years && (12 * years + months) % 12 == months
  {
  }

  lemma {:induction false} MonthStartIncreases(m: nat, n: nat)
    requires m <= n
    ensures MonthStart(m) + 28 * (n - m) <= MonthStart(n)
    decreases n - m
  {
    if m < n { MonthStartIncreases(m, n - 1); }
  }

  /** A month is pinned down by its bounds. */
  lemma MonthOfUnique(t: Time, m: nat)
    requires MonthStart(m) * DAY <= t < MonthStart(m + 1) * DAY
    ensures MonthOf(t) == m
  {
    var n := MonthOf(t);
    MonthBounds(t);
    if n < m { MonthStartIncreases(n + 1, m); }
    if m < n { MonthStartIncreases(m + 1, n); }
  }

  /** Later instants never fall in earlier months. */
  lemma MonthOfMonotone(a: Time, b: Time)
    requires a <= b
    ensures MonthOf(a) <= MonthOf(b)
  {
    MonthBounds(a);
    MonthBounds(b);
    if MonthOf(b) < MonthOf(a) { MonthStartIncreases(MonthOf(b) + 1, MonthOf(a)); }
  }

  /** Calendar months are intervals: whatever lies between two instants of a month is in it. */
  lemma SameMonthConvex(a: Time, b: Time, c: Time)
    requires a <= b <= c && SameMonth(a, c)
    ensures SameMonth(a, b) && SameMonth(b, c)
  {
    MonthOfMonotone(a, b);
    MonthOfMonotone(b, c);
  }

  lemma StartInMonth(t: Time)
    ensures StartOfMonth(t) <= t && MonthOf(StartOfMonth(t)) == MonthOf(t)
  {
    MonthBounds(t);
    MonthStartIncreases(MonthOf(t), MonthOf(t) + 1);
    MonthOfUnique(StartOfMonth(t), MonthOf(t));
  }

  /** The start of the month is the first instant of the month. */
  lemma StartOfMonthIsFirst(t: Time, u: Time)
    ensures StartOfMonth(t) <= t && SameMonth(StartOfMonth(t), t)
    ensures SameMonth(u, t) ==> StartOfMonth(t) <= u
    ensures StartOfMonth(t) <= u <= t ==> SameMonth(u, t)
  {
    StartInMonth(t);
    if SameMonth(u, t) {
      assert MonthOf(u) == MonthOf(t);
      StartInMonth(u);
    }
    if StartOfMonth(t) <= u <= t { SameMonthConvex(StartOfMonth(t), u, t); }
  }
}
