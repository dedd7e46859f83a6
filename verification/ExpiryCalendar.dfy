/** Monthly expiries on the last Tuesday, the roll to the next one, and the
    capital periods between them. */
module ExpiryCalendar {
  import opened GregorianCalendar

  const EXPIRY_WEEKDAY := 1

  /** The last expiry weekday of a month. */
  function LastExpiry(y: int, m: int): (d: Date)
    requires 1 <= m <= 12
    ensures Valid(d) && d.year == y && d.month == m
  {
    var last := Date(y, m, MonthLength(y, m));
    Date(y, m, last.day - (Weekday(last) - EXPIRY_WEEKDAY) % 7)
  }

  /** It is a Tuesday, and the month has no later one. */
  lemma LastExpiryIsLast(y: int, m: int)
    requires 1 <= m <= 12
    ensures Weekday(LastExpiry(y, m)) == 1
    ensures forall k :: LastExpiry(y, m).day < k <= MonthLength(y, m) ==> Weekday(Date(y, m, k)) != 1
  {
    hide DaysBeforeYear, DaysBeforeMonth, MonthLength;
    var e := LastExpiry(y, m);
    var last := Date(y, m, MonthLength(y, m));
    assert Ordinal(last) - Ordinal(e) == (Weekday(last) - EXPIRY_WEEKDAY) % 7;
    forall k | e.day < k <= MonthLength(y, m) ensures Weekday(Date(y, m, k)) != EXPIRY_WEEKDAY {
      assert Ordinal(Date(y, m, k)) == Ordinal(e) + (k - e.day);
    }
  }

  method LastExpiryWeekday(year: int, month: int) returns (d: Date)
    requires 1 <= month <= 12
    ensures d == LastExpiry(year, month)
  {
    LastExpiryIsLast(year, month);
    ghost var e := LastExpiry(year, month);
    d := Date(year, month, MonthLength(year, month));
    while Weekday(d) != EXPIRY_WEEKDAY
      invariant d.year == year && d.month == month && e.day <= d.day <= MonthLength(year, month)
      decreases d.day
    {
      d := d.(day := d.day - 1);
    }
    assert d == Date(year, month, d.day);
  }

  function NextMonthExpiry(y: int, m: int): (d: Date)
    requires 1 <= m <= 12
    ensures Valid(d)
  {
    if m == 12 then LastExpiry(y + 1, 1) else LastExpiry(y, m + 1)
  }

  // ---- expiries in a row ---------------------------------------------------

  /** The day number of the expiry of month n. */
  function ExpiryDay(n: int): int {
    Ordinal(LastExpiry(YearOf(n), MonthOf(n)))
  }

  lemma {:induction false} ExpiryDayOf(y: int, m: int)
    requires 1 <= m <= 12
    ensures Ordinal(LastExpiry(y, m)) == ExpiryDay(MonthIndex(y, m))
    ensures Ordinal(NextMonthExpiry(y, m)) == ExpiryDay(MonthIndex(y, m) + 1)
    ensures var n := MonthIndex(y, m) + 1; NextMonthExpiry(y, m) == LastExpiry(YearOf(n), MonthOf(n))
  {
    hide Ordinal, LastExpiry;
    MonthIndexRoundTrip(y, m);
    if m == 12 {
      assert MonthIndex(y, m) + 1 == MonthIndex(y + 1, 1);
      MonthIndexRoundTrip(y + 1, 1);
    } else {
      MonthIndexRoundTrip(y, m + 1);
    }
  }

  lemma {:induction false} ExpiryNearMonthEnd(n: int)
    ensures MonthStart(n + 1) - 7 < ExpiryDay(n) <= MonthStart(n + 1) && ExpiryDay(n) > MonthStart(n)
    ensures (ExpiryDay(n) + 6) % 7 == EXPIRY_WEEKDAY
  {
    var y, m := YearOf(n), MonthOf(n);
    var e := LastExpiry(y, m);
    MonthSpan(n);
    LastExpiryIsLast(y, m);
    assert Ordinal(e) == MonthStart(n) + e.day;
  }

  /** Consecutive monthly expiries are four or five weeks apart. */
  lemma {:induction false} ExpiryGap(n: int)
    ensures ExpiryDay(n + 1) - ExpiryDay(n) == 28 || ExpiryDay(n + 1) - ExpiryDay(n) == 35
  {
    hide ExpiryDay, MonthStart, MonthLength;
    ExpiryNearMonthEnd(n);
    ExpiryNearMonthEnd(n + 1);
    MonthSpan(n + 1);
    var gap := ExpiryDay(n + 1) - ExpiryDay(n);
    assert gap % 7 == 0;
    assert 21 < gap < 38;
  }

  lemma {:induction false} ExpiriesApart(a: int, b: int)
    requires a <= b
    ensures ExpiryDay(a) + 28 * (b - a) <= ExpiryDay(b)
    decreases b - a
  {
    if a < b {
      ExpiryGap(b - 1);
      ExpiriesApart(a, b - 1);
    }
  }

  // ---- the roll ------------------------------------------------------------

  const DAY_MICROS := 86400000000

  /** A wall-clock reading: a date and the microseconds into it. */
  datatype Instant = Instant(date: Date, micros: nat)

  predicate ValidInstant(t: Instant) {
    Valid(t.date) && t.micros < DAY_MICROS
  }

  /** Whole days from `now` to midnight of `e`, rounded down. */
  function Dte(e: Date, now: Instant): int
    requires Valid(e) && ValidInstant(now)
  {
    ((Ordinal(e) - Ordinal(now.date)) * DAY_MICROS - now.micros) / DAY_MICROS
  }

  lemma DteDays(e: Date, now: Instant)
    requires Valid(e) && ValidInstant(now)
    ensures Dte(e, now) == Ordinal(e) - Ordinal(now.date) - if now.micros > 0 then 1 else 0
  {
  }

  function NearMonthExpiry(now: Instant): (d: Date)
    requires ValidInstant(now)
    ensures Valid(d)
  {
    var e := LastExpiry(now.date.year, now.date.month);
    if Dte(e, now) < 7 then NextMonthExpiry(now.date.year, now.date.month) else e
  }

  function EntryExpiry(minDte: int, now: Instant): (d: Date)
    requires ValidInstant(now)
    ensures Valid(d)
  {
    var e := NearMonthExpiry(now);
    if Dte(e, now) < minDte then NextMonthExpiry(e.year, e.month) else e
  }

  /** `d` is a monthly expiry at least `least` days out, and no monthly expiry
      at least that far out comes before it. */
  ghost predicate EarliestExpiry(d: Date, least: int, now: Instant)
    requires Valid(d) && ValidInstant(now)
  {
    && 1 <= d.month <= 12 && d == LastExpiry(d.year, d.month)
    && Dte(d, now) >= least
    && forall y: int, m: int :: 1 <= m <= 12 && Dte(LastExpiry(y, m), now) >= least ==> !Earlier(LastExpiry(y, m), d)
  }

  lemma {:induction false} EarliestFromIndex(d: Date, n: int, least: int, now: Instant)
    requires ValidInstant(now) && Valid(d) && d == LastExpiry(YearOf(n), MonthOf(n))
    requires Dte(d, now) >= least
    requires Ordinal(now.date) + least + (if now.micros > 0 then 1 else 0) > ExpiryDay(n - 1)
    ensures EarliestExpiry(d, least, now)
  {
    forall y: int, m: int | 1 <= m <= 12 && Dte(LastExpiry(y, m), now) >= least
      ensures !Earlier(LastExpiry(y, m), d)
    {
      var e := LastExpiry(y, m);
      var k := MonthIndex(y, m);
      MonthIndexRoundTrip(y, m);
      DteDays(e, now);
      if k < n { ExpiriesApart(k, n - 1); } else { ExpiriesApart(n, k); }
      OrdinalOrders(e, d);
    }
  }

  lemma NearMonthIndex(now: Instant) returns (n: int)
    requires ValidInstant(now)
    ensures NearMonthExpiry(now) == LastExpiry(YearOf(n), MonthOf(n))
    ensures 7 <= Dte(NearMonthExpiry(now), now) <= 41
    ensures ExpiryDay(n - 1) < Ordinal(now.date) + 7 + (if now.micros > 0 then 1 else 0)
  {
    hide Ordinal, LastExpiry, MonthStart, DaysBeforeYear, DaysBeforeMonth, MonthLength, ExpiryDay, Dte, Weekday, Leap;
    var d := now.date;
    var i := MonthIndex(d.year, d.month);
    MonthIndexRoundTrip(d.year, d.month);
    OrdinalInMonth(d);
    MonthSpan(i);
    ExpiryDayOf(d.year, d.month);
    ExpiryNearMonthEnd(i - 1);
    ExpiryNearMonthEnd(i);
    ExpiryGap(i);
    var e := LastExpiry(d.year, d.month);
    DteDays(e, now);
    DteDays(NextMonthExpiry(d.year, d.month), now);
    n := if Dte(e, now) < 7 then i + 1 else i;
  }

  /** At any instant the near-month expiry is the earliest one at least seven
      days out, and never more than 41 days out. */
  lemma {:induction false} NearMonthIsEarliest(now: Instant)
    requires ValidInstant(now)
    ensures EarliestExpiry(NearMonthExpiry(now), 7, now)
    ensures 7 <= Dte(NearMonthExpiry(now), now) <= 41
  {
    var n := NearMonthIndex(now);
    EarliestFromIndex(NearMonthExpiry(now), n, 7, now);
  }

  function Max(a: int, b: int): int {
    if a < b then b else a
  }

  /** Up to 35 days, a fresh entry gets the earliest expiry that leaves it the
      days it asks for (and at least the seven of the near-month roll). */
  lemma {:induction false} EntryIsEarliest(minDte: int, now: Instant)
    requires ValidInstant(now) && minDte <= 35
    ensures EarliestExpiry(EntryExpiry(minDte, now), Max(minDte, 7), now)
  {
    hide Ordinal, LastExpiry, MonthStart, DaysBeforeYear, DaysBeforeMonth, MonthLength, ExpiryDay, Dte, Weekday, Leap;
    var n := NearMonthIndex(now);
    var e := NearMonthExpiry(now);
    var y, m := YearOf(n), MonthOf(n);
    assert n == MonthIndex(y, m);
    DteDays(e, now);
    ExpiryDayOf(y, m);
    if Dte(e, now) < minDte {
      var f := NextMonthExpiry(y, m);
      ExpiryGap(n);
      DteDays(f, now);
      assert f == LastExpiry(YearOf(n + 1), MonthOf(n + 1));
      EarliestFromIndex(f, n + 1, minDte, now);
    } else {
      EarliestFromIndex(e, n, Max(minDte, 7), now);
    }
  }

  /** Thirty-five days is exactly what one roll can promise at every instant. */
  lemma {:induction false} EntryPromiseIff(minDte: int)
    ensures (forall now: Instant :: ValidInstant(now) ==> Dte(EntryExpiry(minDte, now), now) >= minDte)
      <==> minDte <= 35
  {
    if minDte <= 35 {
      forall now: Instant | ValidInstant(now) ensures Dte(EntryExpiry(minDte, now), now) >= minDte {
        EntryIsEarliest(minDte, now);
      }
    } else {
      var now := Instant(Date(2025, 1, 21), 0);
      assert LastExpiry(2025, 1) == Date(2025, 1, 28);
      assert LastExpiry(2025, 2) == Date(2025, 2, 25);
      DteDays(Date(2025, 1, 28), now);
      DteDays(Date(2025, 2, 25), now);
      assert ValidInstant(now) && Dte(EntryExpiry(minDte, now), now) == 35;
    }
  }

  /** And 41 days to expiry does happen right after a roll. */
  lemma FortyOneReached()
    ensures var now := Instant(Date(2025, 3, 19), 0); ValidInstant(now) && Dte(NearMonthExpiry(now), now) == 41
  {
    var now := Instant(Date(2025, 3, 19), 0);
    assert LastExpiry(2025, 3) == Date(2025, 3, 25);
    assert LastExpiry(2025, 4) == Date(2025, 4, 29);
    DteDays(Date(2025, 3, 25), now);
    DteDays(Date(2025, 4, 29), now);
  }

  // ---- capital periods -----------------------------------------------------

  datatype Period = Period(start: Date, end: Date)

  /** From the day after one expiry to the next, expiry day included. */
  function CapitalPeriod(d: Date): (p: Period)
    requires Valid(d)
    ensures Valid(p.start) && Valid(p.end)
  {
    var e := LastExpiry(d.year, d.month);
    var (y, m) :=
      if !Earlier(e, d) then (d.year, d.month)
      else if d.month == 12 then (d.year + 1, 1)
      else (d.year, d.month + 1);
    var (py, pm) := if m == 1 then (y - 1, 12) else (y, m - 1);
    Period(NextDay(LastExpiry(py, pm)), LastExpiry(y, m))
  }

  predicate Within(d: Date, p: Period) {
    !Earlier(d, p.start) && !Earlier(p.end, d)
  }

  /** The month whose expiry ends the date's period. */
  lemma {:induction false} PeriodIndex(d: Date) returns (n: int)
    requires Valid(d)
    ensures ExpiryDay(n - 1) < Ordinal(d) <= ExpiryDay(n)
    ensures var p := CapitalPeriod(d); Ordinal(p.start) == ExpiryDay(n - 1) + 1 && Ordinal(p.end) == ExpiryDay(n)
  {
    hide Ordinal, LastExpiry, MonthStart, DaysBeforeYear, DaysBeforeMonth, MonthLength, ExpiryDay, Dte, Weekday, Leap;
    var i := MonthIndex(d.year, d.month);
    var e := LastExpiry(d.year, d.month);
    OrdinalInMonth(d);
    OrdinalOrders(e, d);
    ExpiryDayOf(d.year, d.month);
    ExpiryNearMonthEnd(i - 1);
    ExpiryNearMonthEnd(i + 1);
    n := if Earlier(e, d) then i + 1 else i;
    if n == i {
      var (py, pm) := if d.month == 1 then (d.year - 1, 12) else (d.year, d.month - 1);
      assert MonthIndex(py, pm) == i - 1;
      ExpiryDayOf(py, pm);
      NextDayOrdinal(LastExpiry(py, pm));
    } else {
      NextDayOrdinal(e);
    }
  }

  lemma {:induction false} SameExpiryIndex(a: int, b: int, x: int)
    requires ExpiryDay(a - 1) < x <= ExpiryDay(a) && ExpiryDay(b - 1) < x <= ExpiryDay(b)
    ensures a == b
  {
    if a < b { ExpiriesApart(a, b - 1); }
    if b < a { ExpiriesApart(b, a - 1); }
  }

  /** A period runs from the Wednesday after one expiry to the next expiry. */
  lemma PeriodEnds(d: Date)
    requires Valid(d)
    ensures var p := CapitalPeriod(d); p.end == LastExpiry(p.end.year, p.end.month) && Weekday(p.start) == 2
  {
    hide Ordinal, LastExpiry, MonthStart, ExpiryDay;
    var n := PeriodIndex(d);
    ExpiryNearMonthEnd(n - 1);
  }

  /** Capital periods partition time: every date lies in its period, which runs from
      a Wednesday to the last Tuesday of a month, two dates
      share a period exactly when one lies in the other's, the next period starts
      the day after one ends, and each is four or five weeks long. */
  lemma {:induction false} PeriodsPartition(d: Date, x: Date)
    requires Valid(d) && Valid(x)
    ensures var p := CapitalPeriod(d);
      && Within(d, p)
      && p.end == LastExpiry(p.end.year, p.end.month) && Weekday(p.start) == 2
      && (Within(x, p) <==> CapitalPeriod(x) == p)
      && CapitalPeriod(NextDay(p.end)).start == NextDay(p.end)
      && (Ordinal(p.end) - Ordinal(p.start) + 1 == 28 || Ordinal(p.end) - Ordinal(p.start) + 1 == 35)
  {
    hide Ordinal, LastExpiry, MonthStart, DaysBeforeYear, DaysBeforeMonth, MonthLength, ExpiryDay, Dte, Weekday, Leap;
    var p, q := CapitalPeriod(d), CapitalPeriod(x);
    var n := PeriodIndex(d);
    var k := PeriodIndex(x);
    OrdinalOrders(d, p.start);
    OrdinalOrders(p.end, d);
    OrdinalOrders(x, p.start);
    OrdinalOrders(p.end, x);
    OrdinalOrders(p.start, q.start);
    OrdinalOrders(p.end, q.end);
    if Within(x, p) {
      SameExpiryIndex(n, k, Ordinal(x));
    } else if p == q {
      assert false;
    }
    ExpiryGap(n - 1);
    NextPeriod(d, n);
    PeriodEnds(d);
  }

  lemma NextPeriod(d: Date, n: int)
    requires Valid(d) && Ordinal(CapitalPeriod(d).end) == ExpiryDay(n)
    ensures CapitalPeriod(NextDay(CapitalPeriod(d).end)).start == NextDay(CapitalPeriod(d).end)
  {
    hide Ordinal, LastExpiry, MonthStart, DaysBeforeYear, DaysBeforeMonth, MonthLength, ExpiryDay, Dte, Weekday, Leap;
    var next := NextDay(CapitalPeriod(d).end);
    NextDayOrdinal(CapitalPeriod(d).end);
    var m := PeriodIndex(next);
    ExpiryGap(n);
    SameExpiryIndex(n + 1, m, Ordinal(next));
    OrdinalOrders(CapitalPeriod(next).start, next);
  }
}
