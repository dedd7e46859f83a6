/** The Gregorian calendar as Python's `date` has it: month lengths, day numbers
    and weekdays, and that day numbers order dates. */
module GregorianCalendar {

  datatype Date = Date(year: int, month: int, day: int)

  predicate Leap(y: int) {
    y % 4 == 0 && (y % 100 != 0 || y % 400 == 0)
  }

  function MonthLength(y: int, m: int): (n: int)
    requires 1 <= m <= 12
    ensures 28 <= n <= 31
  {
    if m == 2 then (if Leap(y) then 29 else 28)
    else if m in {4, 6, 9, 11} then 30
    else 31
  }

  predicate Valid(d: Date) {
    1 <= d.month <= 12 && 1 <= d.day <= MonthLength(d.year, d.month)
  }

  function DaysBeforeYear(y: int): int {
    365 * (y - 1) + (y - 1) / 4 - (y - 1) / 100 + (y - 1) / 400
  }

  function DaysBeforeMonth(y: int, m: int): int
    requires 1 <= m <= 12
  {
    if m == 1 then 0 else DaysBeforeMonth(y, m - 1) + MonthLength(y, m - 1)
  }

  /** The day number of a date; day 1 is the first of January of year 1. */
  function Ordinal(d: Date): int
    requires Valid(d)
  {
    DaysBeforeYear(d.year) + DaysBeforeMonth(d.year, d.month) + d.day
  }

  /** Monday is 0. */
  function Weekday(d: Date): (w: int)
    requires Valid(d)
    ensures 0 <= w <= 6
  {
    (Ordinal(d) + 6) % 7
  }

  predicate Earlier(a: Date, b: Date) {
    a.year < b.year || (a.year == b.year && (a.month < b.month || (a.month == b.month && a.day < b.day)))
  }

  function NextDay(d: Date): (e: Date)
    requires Valid(d)
    ensures Valid(e)
  {
    if d.day < MonthLength(d.year, d.month) then Date(d.year, d.month, d.day + 1)
    else if d.month < 12 then Date(d.year, d.month + 1, 1)
    else Date(d.year + 1, 1, 1)
  }

  // ---- months in a row -----------------------------------------------------

  /** Months counted through the years. */
  function MonthIndex(y: int, m: int): int {
    12 * y + m - 1
  }

  function YearOf(n: int): int {
    n / 12
  }

  function MonthOf(n: int): (m: int)
    ensures 1 <= m <= 12
  {
    n % 12 + 1
  }

  lemma MonthIndexRoundTrip(y: int, m: int)
    requires 1 <= m <= 12
    ensures YearOf(MonthIndex(y, m)) == y && MonthOf(MonthIndex(y, m)) == m
  {
  }

  /** The day number of the last day before month n. */
  function MonthStart(n: int): int {
    DaysBeforeYear(YearOf(n)) + DaysBeforeMonth(YearOf(n), MonthOf(n))
  }

  lemma {:induction false} YearLength(y: int)
    ensures DaysBeforeYear(y + 1) == DaysBeforeYear(y)
      + if y % 4 == 0 && (y % 100 != 0 || y % 400 == 0) then 366 else 365
  {
    var z := y - 1;
    assert (z + 1) / 4 == z / 4 + if (z + 1) % 4 == 0 then 1 else 0;
    assert (z + 1) / 100 == z / 100 + if (z + 1) % 100 == 0 then 1 else 0;
    assert (z + 1) / 400 == z / 400 + if (z + 1) % 400 == 0 then 1 else 0;
    assert y % 400 == 0 ==> y % 100 == 0;
    assert y % 100 == 0 ==> y % 4 == 0;
  }

  /** The days before each month of a year, in closed form: this fixes the length of
      every month. */
  lemma {:induction false} MonthLengths(y: int, m: int)
    requires 1 <= m <= 12
    ensures DaysBeforeMonth(y, m) == (367 * m - 362) / 12
      - if m <= 2 then 0 else if y % 4 == 0 && (y % 100 != 0 || y % 400 == 0) then 1 else 2
    ensures m == 12 ==> MonthLength(y, m) == 31
  {
    if m > 1 {
      MonthLengths(y, m - 1);
      assert m in {2, 3, 4, 5, 6, 7, 8, 9, 10, 11, 12};
    }
  }

  /** The first of January 1970 is day 719163, a Thursday. */
  lemma Anchored()
    ensures Ordinal(Date(1970, 1, 1)) == 719163 && Weekday(Date(1970, 1, 1)) == 3
  {
  }

  /** Days of the week follow one another. */
  lemma NextWeekday(d: Date)
    requires Valid(d)
    ensures Weekday(NextDay(d)) == (Weekday(d) + 1) % 7
  {
    hide Ordinal;
    NextDayOrdinal(d);
  }

  lemma DaysInYear(y: int)
    ensures DaysBeforeMonth(y, 12) + 31 == if Leap(y) then 366 else 365
  {
    assert DaysBeforeMonth(y, 4) == DaysBeforeMonth(y, 2) + MonthLength(y, 2) + 31;
    assert DaysBeforeMonth(y, 6) == DaysBeforeMonth(y, 4) + 61;
    assert DaysBeforeMonth(y, 8) == DaysBeforeMonth(y, 6) + 61;
    assert DaysBeforeMonth(y, 10) == DaysBeforeMonth(y, 8) + 61;
  }

  lemma MonthSpan(n: int)
    ensures MonthStart(n + 1) == MonthStart(n) + MonthLength(YearOf(n), MonthOf(n))
  {
    if MonthOf(n) == 12 {
      YearLength(YearOf(n));
      DaysInYear(YearOf(n));
      assert YearOf(n + 1) == YearOf(n) + 1 && MonthOf(n + 1) == 1;
    } else {
      assert YearOf(n + 1) == YearOf(n) && MonthOf(n + 1) == MonthOf(n) + 1;
    }
  }

  lemma {:induction false} MonthsApart(a: int, b: int)
    requires a <= b
    ensures MonthStart(a) + 28 * (b - a) <= MonthStart(b)
    decreases b - a
  {
    if a < b {
      MonthSpan(b - 1);
      MonthsApart(a, b - 1);
    }
  }

  lemma {:induction false} OrdinalInMonth(d: Date)
    requires Valid(d)
    ensures var n := MonthIndex(d.year, d.month);
      Ordinal(d) == MonthStart(n) + d.day && MonthStart(n) < Ordinal(d) <= MonthStart(n + 1)
  {
    MonthIndexRoundTrip(d.year, d.month);
    MonthSpan(MonthIndex(d.year, d.month));
  }

  /** Day numbers and the year-month-day order agree. */
  lemma OrdinalOrders(a: Date, b: Date)
    requires Valid(a) && Valid(b)
    ensures Earlier(a, b) <==> Ordinal(a) < Ordinal(b)
    ensures a == b <==> Ordinal(a) == Ordinal(b)
  {
    hide Ordinal, MonthStart, MonthLength;
    var i, j := MonthIndex(a.year, a.month), MonthIndex(b.year, b.month);
    OrdinalInMonth(a);
    OrdinalInMonth(b);
    if i < j {
      MonthsApart(i + 1, j);
    } else if j < i {
      MonthsApart(j + 1, i);
    } else {
      MonthIndexRoundTrip(a.year, a.month);
      MonthIndexRoundTrip(b.year, b.month);
    }
  }

  lemma NextDayOrdinal(d: Date)
    requires Valid(d)
    ensures Ordinal(NextDay(d)) == Ordinal(d) + 1
  {
    hide Ordinal, MonthStart, MonthLength;
    var n := MonthIndex(d.year, d.month);
    MonthIndexRoundTrip(d.year, d.month);
    OrdinalInMonth(d);
    OrdinalInMonth(NextDay(d));
    MonthSpan(n);
  }
}
