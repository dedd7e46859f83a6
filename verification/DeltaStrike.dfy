/** Picking the strike of a short leg by delta: a scan outwards from the money,
    then a clamp that keeps the strike out of the money. */
module DeltaStrike {
  import opened Reals

  /** Rounding to the nearest integer, ties to the even one. */
  function RoundHalfEven(x: real): (n: int)
    ensures -0.5 <= x - n as real <= 0.5
    ensures x - n as real == 0.5 || x - n as real == -0.5 ==> n % 2 == 0
  {
    var f := x.Floor;
    var rest := x - f as real;
    if rest < 0.5 then f
    else if rest > 0.5 then f + 1
    else if f % 2 == 0 then f else f + 1
  }

  /** A request: `absDelta` is the size of the option's delta as a function of
      the strike, whatever model computes it. */
  datatype Quote = Quote(underlying: real, target: real, call: bool, interval: real, absDelta: real -> real)

  function AtTheMoney(q: Quote): int
    requires q.interval > 0.0
  {
    RoundHalfEven(q.underlying / q.interval)
  }

  /** The n-th strike of a grid. */
  function Grid(n: int, interval: real): real {
    n as real * interval
  }

  /** The strike `i` intervals out of the money. */
  function Strike(q: Quote, i: int): real
    requires q.interval > 0.0
  {
    Grid(if q.call then AtTheMoney(q) + i else AtTheMoney(q) - i, q.interval)
  }

  function Miss(q: Quote, i: int): real
    requires q.interval > 0.0
  {
    Abs(q.absDelta(Strike(q, i)) - Abs(q.target))
  }

  const INNERMOST := -2
  const OUTERMOST := 30

  /** Of the positive strikes from `from` intervals outwards, `i` is the first
      whose delta is closest to the target. */
  ghost predicate Closest(q: Quote, from: int, until: int, i: int)
    requires q.interval > 0.0
  {
    && from <= i < until && Strike(q, i) > 0.0
    && forall j :: from <= j < until && Strike(q, j) > 0.0 ==>
         && Miss(q, i) <= Miss(q, j)
         && (j < i ==> Miss(q, i) < Miss(q, j))
  }

  /** Closeness, spelt out: the sign of the target plays no part. */
  lemma ClosestIs(q: Quote, from: int, until: int, i: int)
    requires q.interval > 0.0 && Closest(q, from, until, i)
    ensures var t := if q.target < 0.0 then -q.target else q.target;
      forall j :: from <= j < until && Strike(q, j) > 0.0 ==>
        -Abs(q.absDelta(Strike(q, j)) - t) <= q.absDelta(Strike(q, i)) - t <= Abs(q.absDelta(Strike(q, j)) - t)
  {
    forall j | from <= j < until && Strike(q, j) > 0.0 ensures Miss(q, i) <= Miss(q, j) {
    }
  }

  ghost predicate NonePositive(q: Quote, until: int)
    requires q.interval > 0.0
  {
    forall j :: INNERMOST <= j < until ==> Strike(q, j) <= 0.0
  }

  /** The size of the delta falls as the strike moves out of the money. */
  ghost predicate Monotone(q: Quote) {
    forall a: real, b: real :: 0.0 < a <= b ==>
      if q.call then q.absDelta(b) <= q.absDelta(a) else q.absDelta(a) <= q.absDelta(b)
  }

  // ---- the scan and the clamp ----------------------------------------------

  method FindDeltaStrike(q: Quote, enforceMinOtm: bool) returns (strike: real)
    requires q.interval > 0.0
    ensures !enforceMinOtm && !NonePositive(q, 31) ==>
      exists i :: Closest(q, -2, 31, i) && strike == Strike(q, i)
    ensures NonePositive(q, 31) ==> strike == Strike(q, if enforceMinOtm then 1 else 0)
    ensures enforceMinOtm && Monotone(q) && Strike(q, 1) > 0.0 ==>
      exists i :: Closest(q, 1, 31, i) && strike == Strike(q, i)
    ensures enforceMinOtm ==> exists i :: 1 <= i <= 30 && strike == Strike(q, i)
    ensures enforceMinOtm && q.underlying > 0.0 ==> (strike > 0.0 <==> Strike(q, 1) > 0.0)
  {
    strike := Strike(q, 0);
    var bestMiss := 0.0;
    ghost var best := 0;
    var found := false;
    for i := INNERMOST to OUTERMOST + 1
      invariant strike == Strike(q, best)
      invariant if found then Closest(q, INNERMOST, i, best) && bestMiss == Miss(q, best)
                else best == 0 && NonePositive(q, i)
    {
      var k := Strike(q, i);
      if k > 0.0 {
        var miss := Abs(q.absDelta(k) - Abs(q.target));
        if !found || miss < bestMiss {
          bestMiss, strike, found, best := miss, k, true, i;
        }
      }
    }
    StrikesOrdered(q, best, 1);
    if enforceMinOtm {
      var limit := if q.call then Strike(q, 0) + q.interval else Strike(q, 0) - q.interval;
      NextStrike(q);
      if found && Monotone(q) && Strike(q, 1) > 0.0 {
        ClampIsOptimal(q, best);
      }
      if found && q.underlying > 0.0 {
        PositiveBeyond(q, best);
      }
      if (if q.call then strike < limit else strike > limit) {
        strike := limit;
        best := 1;
      }
      assert 1 <= best <= OUTERMOST && strike == Strike(q, best);
    }
  }

  lemma GridOrdered(a: int, b: int, interval: real)
    requires interval > 0.0
    ensures a < b <==> Grid(a, interval) < Grid(b, interval)
    ensures Grid(a, interval) > 0.0 <==> a > 0
  {
    Sign((a - b) as real, interval);
    Sign((-a) as real, interval);
    assert Grid(a, interval) - Grid(b, interval) == (a - b) as real * interval;
    assert -Grid(a, interval) == (-a) as real * interval;
  }

  lemma StrikesOrdered(q: Quote, i: int, j: int)
    requires q.interval > 0.0
    ensures q.call ==> (i < j <==> Strike(q, i) < Strike(q, j))
    ensures !q.call ==> (i < j <==> Strike(q, j) < Strike(q, i))
    ensures Strike(q, i) > 0.0 <==> if q.call then AtTheMoney(q) + i > 0 else AtTheMoney(q) - i > 0
  {
    hide Grid, AtTheMoney;
    var n := AtTheMoney(q);
    if q.call {
      GridOrdered(n + i, n + j, q.interval);
    } else {
      GridOrdered(n - i, n - j, q.interval);
      GridOrdered(n - j, n - i, q.interval);
    }
  }

  lemma NextStrike(q: Quote)
    requires q.interval > 0.0
    ensures Strike(q, 1) == if q.call then Strike(q, 0) + q.interval else Strike(q, 0) - q.interval
  {
  }

  lemma MissesFall(q: Quote, i: int, j: int)
    requires q.interval > 0.0 && Monotone(q) && i <= j && Strike(q, i) > 0.0 && Strike(q, j) > 0.0
    ensures q.absDelta(Strike(q, j)) <= q.absDelta(Strike(q, i))
  {
    StrikesOrdered(q, i, j);
    StrikesOrdered(q, j, i);
  }

  /** Clamping the best of all the candidates gives the best of those out of the
      money. */
  lemma ClampIsOptimal(q: Quote, i: int)
    requires q.interval > 0.0 && Monotone(q) && Strike(q, 1) > 0.0
    requires Closest(q, INNERMOST, OUTERMOST + 1, i)
    ensures Closest(q, 1, OUTERMOST + 1, if i < 1 then 1 else i)
  {
    if i < 1 {
      hide Strike;
      MissesFall(q, i, 1);
      forall j | 1 <= j < OUTERMOST + 1 && Strike(q, j) > 0.0 ensures Miss(q, 1) <= Miss(q, j) {
        MissesFall(q, 1, j);
      }
    }
  }

  lemma PositiveBeyond(q: Quote, i: int)
    requires q.interval > 0.0 && q.underlying > 0.0 && Strike(q, i) > 0.0
    ensures i >= 1 ==> Strike(q, 1) > 0.0
  {
    StrikesOrdered(q, i, 1);
    StrikesOrdered(q, 1, i);
    AtTheMoneyNear(q);
  }

  // ---- how far out the result lies -----------------------------------------

  lemma AtTheMoneyNear(q: Quote)
    requires q.interval > 0.0
    ensures Abs(q.underlying - AtTheMoney(q) as real * q.interval) <= q.interval / 2.0
    ensures q.underlying > 0.0 ==> AtTheMoney(q) >= 0
    ensures AtTheMoney(q) >= 2 <==> 2.0 * q.underlying >= 3.0 * q.interval
  {
    var x := q.underlying / q.interval;
    var n := AtTheMoney(q);
    assert q.underlying == x * q.interval;
    assert q.underlying - n as real * q.interval == (x - n as real) * q.interval;
    Bounded(x - n as real, q.interval);
    if q.underlying > 0.0 {
      assert x > 0.0;
    }
    CompareQuotient(x, q.underlying, q.interval);
    assert x >= 1.5 <==> n >= 2;
  }

  lemma Sign(a: real, w: real)
    requires w > 0.0
    ensures a >= 0.0 <==> a * w >= 0.0
  {
    if a < 0.0 { assert (-a) * w > 0.0; }
  }

  lemma Bounded(a: real, w: real)
    requires -0.5 <= a <= 0.5 && w > 0.0
    ensures Abs(a * w) <= w / 2.0
  {
    Sign(0.5 - a, w);
    Sign(0.5 + a, w);
    assert w / 2.0 - a * w == (0.5 - a) * w;
    assert w / 2.0 + a * w == (0.5 + a) * w;
  }

  lemma CompareQuotient(x: real, u: real, w: real)
    requires w > 0.0 && u == x * w
    ensures x >= 1.5 <==> 2.0 * u >= 3.0 * w
  {
    Sign(x - 1.5, w);
    assert (x - 1.5) * w == u - 1.5 * w;
  }

  /** An out-of-the-money candidate is on the grid and at least half an interval
      away from the underlying, on the right side of it. */
  lemma HalfAnIntervalOut(q: Quote, i: int)
    requires q.interval > 0.0 && i >= 1
    ensures Strike(q, i) / q.interval == (if q.call then AtTheMoney(q) + i else AtTheMoney(q) - i) as real
    ensures q.call ==> Strike(q, i) - q.underlying >= q.interval / 2.0
    ensures !q.call ==> q.underlying - Strike(q, i) >= q.interval / 2.0
  {
    hide AtTheMoney;
    AtTheMoneyNear(q);
    NextStrike(q);
    assert Strike(q, 0) == AtTheMoney(q) as real * q.interval;
    StrikesOrdered(q, 1, i);
    StrikesOrdered(q, i, 1);
    Multiple(if q.call then AtTheMoney(q) + i else AtTheMoney(q) - i, q.interval);
  }

  lemma Multiple(n: int, interval: real)
    requires interval > 0.0
    ensures Grid(n, interval) / interval == n as real
  {
    assert (n as real * interval) / interval == n as real;
  }

  /** There is a positive strike out of the money for every call, and for a put
      exactly when the underlying is worth at least an interval and a half. */
  lemma RoomOutOfTheMoney(q: Quote)
    requires q.interval > 0.0 && q.underlying > 0.0
    ensures Strike(q, 1) > 0.0 <==> q.call || 2.0 * q.underlying >= 3.0 * q.interval
  {
    AtTheMoneyNear(q);
    StrikesOrdered(q, 1, 1);
  }

  /** The clamp keeps a whole interval from the underlying exactly when rounding
      did not move the money towards the strike's side. */
  lemma WholeIntervalIff(q: Quote)
    requires q.interval > 0.0
    ensures Abs(Strike(q, 1) - q.underlying) >= q.interval <==>
      if q.call then q.underlying <= Strike(q, 0) else Strike(q, 0) <= q.underlying
  {
    hide AtTheMoney;
    NextStrike(q);
    HalfAnIntervalOut(q, 1);
  }

  /** At 149 on a grid of 100 the call that is clamped to lies 51 away. */
  lemma LessThanAnInterval(q: Quote)
    requires q.underlying == 149.0 && q.interval == 100.0 && q.call
    ensures Strike(q, 1) == 200.0 && Strike(q, 1) - q.underlying == 51.0 < q.interval
  {
    assert q.underlying / q.interval == 1.49;
  }
}
