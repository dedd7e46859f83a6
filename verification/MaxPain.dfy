/** The max-pain strike of an option chain: the scan over the listed strikes, and
    that the strike it settles on is a minimum over every price there is. */
module MaxPain {

  /** One strike of one side of the chain and its open interest. */
  datatype Entry = Entry(strike: real, oi: nat)

  /** One side of a chain, in the order its dictionary is walked. */
  type Chain = seq<Entry>

  function Over(a: real): (r: real)
    ensures r >= 0.0 && r >= a
  {
    if a > 0.0 then a else 0.0
  }

  function Times(amount: real, oi: nat): real {
    amount * oi as real
  }

  function CallPays(e: Entry, x: real): real {
    Times(Over(x - e.strike), e.oi)
  }

  function PutPays(e: Entry, x: real): real {
    Times(Over(e.strike - x), e.oi)
  }

  /** What the calls pay their holders when the underlying settles at `x`. */
  function CallLoss(calls: Chain, x: real): real {
    if calls == [] then 0.0
    else CallLoss(calls[..|calls| - 1], x) + CallPays(calls[|calls| - 1], x)
  }

  function PutLoss(puts: Chain, x: real): real {
    if puts == [] then 0.0
    else PutLoss(puts[..|puts| - 1], x) + PutPays(puts[|puts| - 1], x)
  }

  function Pain(calls: Chain, puts: Chain, x: real): real {
    CallLoss(calls, x) + PutLoss(puts, x)
  }

  ghost predicate Lists(chain: Chain, k: real) {
    exists i :: 0 <= i < |chain| && chain[i].strike == k
  }

  // ---- the strikes in order ------------------------------------------------

  predicate Ascending(s: seq<real>) {
    forall i, j :: 0 <= i < j < |s| ==> s[i] < s[j]
  }

  function Insert(s: seq<real>, k: real): (r: seq<real>)
    requires Ascending(s)
    ensures Ascending(r)
    ensures forall x :: x in r <==> x in s || x == k
  {
    if s == [] || k > s[|s| - 1] then s + [k]
    else if k == s[|s| - 1] then s
    else
      var t := Insert(s[..|s| - 1], k);
      assert s == s[..|s| - 1] + [s[|s| - 1]];
      assert forall i :: 0 <= i < |t| ==> t[i] < s[|s| - 1] by {
        AllBelow(s, t, k);
      }
      t + [s[|s| - 1]]
  }

  lemma AllBelow(s: seq<real>, t: seq<real>, k: real)
    requires Ascending(s) && s != [] && k < s[|s| - 1]
    requires forall x :: x in t <==> x in s[..|s| - 1] || x == k
    ensures forall i :: 0 <= i < |t| ==> t[i] < s[|s| - 1]
  {
    forall i | 0 <= i < |t| ensures t[i] < s[|s| - 1] {
      assert t[i] in t;
      if t[i] != k {
        var j :| 0 <= j < |s| - 1 && s[..|s| - 1][j] == t[i];
      }
    }
  }

  lemma ListsLast(chain: Chain)
    requires chain != []
    ensures forall k :: Lists(chain, k) <==> Lists(chain[..|chain| - 1], k) || k == chain[|chain| - 1].strike
  {
    var rest, e := chain[..|chain| - 1], chain[|chain| - 1];
    forall k ensures Lists(chain, k) <==> Lists(rest, k) || k == e.strike {
      if Lists(rest, k) {
        var i :| 0 <= i < |rest| && rest[i].strike == k;
        assert chain[i].strike == k;
      }
    }
  }

  /** The strikes of both sides, each once, ascending. */
  function Strikes(chain: Chain): (r: seq<real>)
    ensures Ascending(r)
    ensures forall k :: k in r <==> Lists(chain, k)
  {
    if chain == [] then []
    else
      var rest := chain[..|chain| - 1];
      var r := Insert(Strikes(rest), chain[|chain| - 1].strike);
      assert forall k :: Lists(chain, k) <==> Lists(rest, k) || k == chain[|chain| - 1].strike by {
        ListsLast(chain);
      }
      r
  }

  lemma StrikesEmpty(chain: Chain)
    ensures Strikes(chain) == [] <==> chain == []
  {
    if chain != [] {
      assert Lists(chain, chain[0].strike);
    }
  }

  // ---- the scan ------------------------------------------------------------

  /** No listed strike hurts less than `k`, and every lower one hurts more. */
  ghost predicate LeastPain(calls: Chain, puts: Chain, k: real) {
    && k in Strikes(calls + puts)
    && forall s :: s in Strikes(calls + puts) ==>
         && Pain(calls, puts, k) <= Pain(calls, puts, s)
         && (s < k ==> Pain(calls, puts, k) < Pain(calls, puts, s))
  }

  method CalculateMaxPain(calls: Chain, puts: Chain) returns (maxPain: real)
    ensures |calls| + |puts| == 0 ==> maxPain == 0.0
    ensures |calls| + |puts| > 0 ==> LeastPain(calls, puts, maxPain)
  {
    StrikesEmpty(calls + puts);
    var strikes := Strikes(calls + puts);
    if |strikes| == 0 {
      return 0.0;
    }
    maxPain := strikes[|strikes| / 2];
    var minPain := 0.0;
    var n := 0;
    while n < |strikes|
      invariant 0 <= n <= |strikes|
      invariant n > 0 ==> maxPain in strikes[..n] && minPain == Pain(calls, puts, maxPain)
      invariant forall i :: 0 <= i < n ==>
        && minPain <= Pain(calls, puts, strikes[i])
        && (strikes[i] < maxPain ==> minPain < Pain(calls, puts, strikes[i]))
    {
      var price := strikes[n];
      var callLoss := LossOfCalls(calls, price);
      var putLoss := LossOfPuts(puts, price);
      if n == 0 || callLoss + putLoss < minPain {
        minPain, maxPain := callLoss + putLoss, price;
      }
      n := n + 1;
    }
  }

  method LossOfCalls(calls: Chain, price: real) returns (loss: real)
    ensures loss == CallLoss(calls, price)
  {
    loss := 0.0;
    for i := 0 to |calls|
      invariant loss == CallLoss(calls[..i], price)
    {
      assert calls[..i + 1][..i] == calls[..i];
      loss := loss + CallPays(calls[i], price);
    }
    assert calls[..|calls|] == calls;
  }

  method LossOfPuts(puts: Chain, price: real) returns (loss: real)
    ensures loss == PutLoss(puts, price)
  {
    loss := 0.0;
    for i := 0 to |puts|
      invariant loss == PutLoss(puts[..i], price)
    {
      assert puts[..i + 1][..i] == puts[..i];
      loss := loss + PutPays(puts[i], price);
    }
    assert puts[..|puts|] == puts;
  }

  // ---- between and beyond the strikes --------------------------------------

  /** Three values of a function at `a`, `x` and `b` that lie on one line. */
  predicate Affine(a: real, x: real, b: real, fa: real, fx: real, fb: real) {
    (b - a) * fx == (b - x) * fa + (x - a) * fb
  }

  lemma AffineSum(a: real, x: real, b: real, fa: real, fx: real, fb: real, ga: real, gx: real, gb: real)
    requires Affine(a, x, b, fa, fx, fb) && Affine(a, x, b, ga, gx, gb)
    ensures Affine(a, x, b, fa + ga, fx + gx, fb + gb)
  {
  }

  lemma OverAffine(a: real, x: real, b: real, oi: real)
    requires a <= x <= b && (b <= 0.0 || 0.0 <= a)
    ensures (b - a) * (Over(x) * oi) == (b - x) * (Over(a) * oi) + (x - a) * (Over(b) * oi)
  {
    if a >= 0.0 {
      calc {
        (b - x) * (a * oi) + (x - a) * (b * oi);
        ((b - x) * a + (x - a) * b) * oi;
        { assert (b - x) * a + (x - a) * b == (b - a) * x; }
        ((b - a) * x) * oi;
        (b - a) * (x * oi);
      }
    }
  }

  lemma CallAffine(e: Entry, a: real, x: real, b: real)
    requires a <= x <= b && (e.strike <= a || b <= e.strike)
    ensures Affine(a, x, b, CallPays(e, a), CallPays(e, x), CallPays(e, b))
  {
    OverAffine(a - e.strike, x - e.strike, b - e.strike, e.oi as real);
  }

  lemma PutAffine(e: Entry, a: real, x: real, b: real)
    requires a <= x <= b && (e.strike <= a || b <= e.strike)
    ensures Affine(a, x, b, PutPays(e, a), PutPays(e, x), PutPays(e, b))
  {
    OverAffine(e.strike - b, e.strike - x, e.strike - a, e.oi as real);
  }

  /** Between two prices with no strike strictly inside, the loss of the calls is
      affine, and so is that of the puts. */
  lemma {:induction false} CallsAffine(calls: Chain, a: real, x: real, b: real)
    requires a <= x <= b && forall i :: 0 <= i < |calls| ==> calls[i].strike <= a || b <= calls[i].strike
    ensures Affine(a, x, b, CallLoss(calls, a), CallLoss(calls, x), CallLoss(calls, b))
  {
    if calls != [] {
      var n := |calls| - 1;
      hide Affine, CallPays;
      CallsAffine(calls[..n], a, x, b);
      CallAffine(calls[n], a, x, b);
      AffineSum(a, x, b, CallLoss(calls[..n], a), CallLoss(calls[..n], x), CallLoss(calls[..n], b),
                CallPays(calls[n], a), CallPays(calls[n], x), CallPays(calls[n], b));
    }
  }

  lemma {:induction false} PutsAffine(puts: Chain, a: real, x: real, b: real)
    requires a <= x <= b && forall i :: 0 <= i < |puts| ==> puts[i].strike <= a || b <= puts[i].strike
    ensures Affine(a, x, b, PutLoss(puts, a), PutLoss(puts, x), PutLoss(puts, b))
  {
    if puts != [] {
      var n := |puts| - 1;
      hide Affine, PutPays;
      PutsAffine(puts[..n], a, x, b);
      PutAffine(puts[n], a, x, b);
      AffineSum(a, x, b, PutLoss(puts[..n], a), PutLoss(puts[..n], x), PutLoss(puts[..n], b),
                PutPays(puts[n], a), PutPays(puts[n], x), PutPays(puts[n], b));
    }
  }

  /** The calls' loss only grows with the price, the puts' only shrinks. */
  lemma {:induction false} CallsGrow(calls: Chain, x: real, y: real)
    requires x <= y
    ensures 0.0 <= CallLoss(calls, x) <= CallLoss(calls, y)
    ensures (forall i :: 0 <= i < |calls| ==> y <= calls[i].strike) ==> CallLoss(calls, y) == 0.0
  {
    if calls != [] {
      var n := |calls| - 1;
      CallsGrow(calls[..n], x, y);
      hide CallPays;
      CallPaysGrow(calls[n], x, y);
    }
  }

  lemma {:induction false} PutsShrink(puts: Chain, x: real, y: real)
    requires x <= y
    ensures PutLoss(puts, x) >= PutLoss(puts, y) >= 0.0
    ensures (forall i :: 0 <= i < |puts| ==> puts[i].strike <= x) ==> PutLoss(puts, x) == 0.0
  {
    if puts != [] {
      var n := |puts| - 1;
      PutsShrink(puts[..n], x, y);
      hide PutPays;
      PutPaysShrink(puts[n], x, y);
    }
  }

  lemma CallPaysGrow(e: Entry, x: real, y: real)
    requires x <= y
    ensures 0.0 <= CallPays(e, x) <= CallPays(e, y)
    ensures y <= e.strike ==> CallPays(e, y) == 0.0
  {
    hide Times;
    Scale(Over(x - e.strike), Over(y - e.strike), e.oi);
  }

  lemma PutPaysShrink(e: Entry, x: real, y: real)
    requires x <= y
    ensures PutPays(e, x) >= PutPays(e, y) >= 0.0
    ensures e.strike <= x ==> PutPays(e, x) == 0.0
  {
    hide Times;
    Scale(Over(e.strike - y), Over(e.strike - x), e.oi);
  }

  lemma NonNegative(p: real, q: real)
    requires p >= 0.0 && q >= 0.0
    ensures p * q >= 0.0
  {
  }

  lemma Scale(p: real, q: real, oi: nat)
    requires 0.0 <= p <= q
    ensures 0.0 <= Times(p, oi) <= Times(q, oi)
    ensures q == 0.0 ==> Times(q, oi) == 0.0
  {
    NonNegative(p, oi as real);
    NonNegative(q - p, oi as real);
    assert Times(q, oi) - Times(p, oi) == (q - p) * oi as real;
  }

  /** A price between the extreme strikes lies on or between two neighbours. */
  lemma {:induction false} Bracket(s: seq<real>, x: real) returns (i: nat)
    requires Ascending(s) && |s| > 0 && s[0] <= x <= s[|s| - 1]
    ensures i < |s| && s[i] <= x
    ensures s[i] == x || (i + 1 < |s| && x < s[i + 1])
    decreases |s|
  {
    if s[|s| - 1] == x { i := |s| - 1; }
    else if s[|s| - 2] <= x { i := |s| - 2; }
    else { i := Bracket(s[..|s| - 1], x); }
  }

  /** Every strike is listed, so the pain is affine from one to its neighbour. */
  lemma PainAffine(calls: Chain, puts: Chain, i: nat, x: real)
    requires var s := Strikes(calls + puts); i + 1 < |s| && s[i] <= x <= s[i + 1]
    ensures var s := Strikes(calls + puts);
      Affine(s[i], x, s[i + 1], Pain(calls, puts, s[i]), Pain(calls, puts, x), Pain(calls, puts, s[i + 1]))
  {
    hide Affine, CallLoss, PutLoss, Strikes;
    var s := Strikes(calls + puts);
    var a, b := s[i], s[i + 1];
    forall k | k in s ensures k <= a || b <= k {
      var j :| 0 <= j < |s| && s[j] == k;
    }
    ListedSides(calls, puts);
    CallsAffine(calls, a, x, b);
    PutsAffine(puts, a, x, b);
    AffineSum(a, x, b, CallLoss(calls, a), CallLoss(calls, x), CallLoss(calls, b),
              PutLoss(puts, a), PutLoss(puts, x), PutLoss(puts, b));
  }

  lemma ListedSides(calls: Chain, puts: Chain)
    ensures forall i :: 0 <= i < |calls| ==> calls[i].strike in Strikes(calls + puts)
    ensures forall i :: 0 <= i < |puts| ==> puts[i].strike in Strikes(calls + puts)
  {
    forall i | 0 <= i < |calls| ensures calls[i].strike in Strikes(calls + puts) {
      assert (calls + puts)[i] == calls[i];
    }
    forall i | 0 <= i < |puts| ensures puts[i].strike in Strikes(calls + puts) {
      assert (calls + puts)[|calls| + i] == puts[i];
    }
  }

  lemma Product(p: real, q: real)
    requires p > 0.0 && q > 0.0
    ensures p * q > 0.0
  {
  }

  lemma Weighted(a: real, x: real, b: real, fa: real, fx: real, fb: real, least: real)
    requires a < x < b && Affine(a, x, b, fa, fx, fb) && fa >= least && fb >= least
    ensures fx >= least && (fx == least ==> fa == least)
  {
    assert (b - x + (x - a)) * (fx - least) == (b - x) * (fa - least) + (x - a) * (fb - least);
    Mean(b - x, x - a, fa - least, fx - least, fb - least);
  }

  lemma Mean(u: real, v: real, p: real, q: real, r: real)
    requires u > 0.0 && v > 0.0 && p >= 0.0 && r >= 0.0 && (u + v) * q == u * p + v * r
    ensures q >= 0.0 && (q == 0.0 ==> p == 0.0)
  {
    NonNegative(u, p);
    NonNegative(v, r);
    if p > 0.0 { Product(u, p); }
    if q < 0.0 { Product(u + v, -q); }
  }

  /** The strike the scan returns minimises the pain over every real price, not
      just over the strikes, and no price below it does as well unless it is the
      lowest strike there is. */
  lemma LeastPainOverAllPrices(calls: Chain, puts: Chain, k: real, x: real)
    requires LeastPain(calls, puts, k)
    ensures Pain(calls, puts, k) <= Pain(calls, puts, x)
    ensures x < k && Pain(calls, puts, x) == Pain(calls, puts, k) ==> k == Strikes(calls + puts)[0]
  {
    hide Affine, CallLoss, PutLoss, Strikes;
    var s := Strikes(calls + puts);
    ListedSides(calls, puts);
    var top := s[|s| - 1];
    forall h | h in s ensures s[0] <= h <= top {
      var j :| 0 <= j < |s| && s[j] == h;
    }
    assert s[0] in s && top in s;
    if x < s[0] {
      CallsGrow(calls, x, s[0]);
      PutsShrink(puts, x, s[0]);
    } else if top < x {
      CallsGrow(calls, top, x);
      PutsShrink(puts, top, x);
    } else {
      var i := Bracket(s, x);
      assert s[i] in s;
      if s[i] < x {
        assert s[i + 1] in s;
        PainAffine(calls, puts, i, x);
        Weighted(s[i], x, s[i + 1],
                 Pain(calls, puts, s[i]), Pain(calls, puts, x), Pain(calls, puts, s[i + 1]), Pain(calls, puts, k));
      }
    }
  }

  /** Calls alone pin the price to the lowest strike, where none of them pays;
      puts alone to a price where none of them pays. */
  lemma OneSided(calls: Chain, puts: Chain, k: real)
    requires LeastPain(calls, puts, k)
    ensures puts == [] ==> k == Strikes(calls)[0] && CallLoss(calls, k) == 0.0
    ensures calls == [] ==> PutLoss(puts, k) == 0.0
  {
    hide CallLoss, PutLoss, Strikes;
    var s := Strikes(calls + puts);
    ListedSides(calls, puts);
    var top := s[|s| - 1];
    forall h | h in s ensures s[0] <= h <= top {
      var j :| 0 <= j < |s| && s[j] == h;
    }
    assert s[0] in s && top in s;
    if puts == [] {
      assert calls + puts == calls;
      NoPuts(k);
      NoPuts(s[0]);
      CallsGrow(calls, s[0], s[0]);
      CallsGrow(calls, s[0], k);
    }
    if calls == [] {
      NoCalls(k);
      NoCalls(top);
      PutsShrink(puts, top, top);
      PutsShrink(puts, k, k);
    }
  }

  lemma NoPuts(x: real)
    ensures PutLoss([], x) == 0.0
  {
  }

  lemma NoCalls(x: real)
    ensures CallLoss([], x) == 0.0
  {
  }

  // ---- open interest is the slope ------------------------------------------

  /** The open interest of a side at or below a price. */
  function OiUpTo(chain: Chain, x: real): nat {
    if chain == [] then 0
    else
      var e := chain[|chain| - 1];
      OiUpTo(chain[..|chain| - 1], x) + if e.strike <= x then e.oi else 0
  }

  /** The open interest of a side at or above a price. */
  function OiFrom(chain: Chain, x: real): nat {
    if chain == [] then 0
    else
      var e := chain[|chain| - 1];
      OiFrom(chain[..|chain| - 1], x) + if e.strike >= x then e.oi else 0
  }

  lemma CallSlope(e: Entry, a: real, b: real)
    requires a < b && (e.strike <= a || b <= e.strike)
    ensures CallPays(e, b) - CallPays(e, a) == Times(b - a, if e.strike <= a then e.oi else 0)
  {
  }

  lemma PutSlope(e: Entry, a: real, b: real)
    requires a < b && (e.strike <= a || b <= e.strike)
    ensures PutPays(e, b) - PutPays(e, a) == -Times(b - a, if b <= e.strike then e.oi else 0)
  {
  }

  lemma Added(m: nat, n: nat, w: real)
    ensures Times(w, m + n) == Times(w, m) + Times(w, n)
    ensures Times(w, 0) == 0.0
  {
  }

  lemma {:induction false} CallsSlope(calls: Chain, a: real, b: real)
    requires a < b && forall i :: 0 <= i < |calls| ==> calls[i].strike <= a || b <= calls[i].strike
    ensures CallLoss(calls, b) - CallLoss(calls, a) == Times(b - a, OiUpTo(calls, a))
  {
    hide CallPays, Times;
    Added(0, 0, b - a);
    if calls != [] {
      var n, e := |calls| - 1, calls[|calls| - 1];
      CallsSlope(calls[..n], a, b);
      CallSlope(e, a, b);
      Added(OiUpTo(calls[..n], a), if e.strike <= a then e.oi else 0, b - a);
    }
  }

  lemma {:induction false} PutsSlope(puts: Chain, a: real, b: real)
    requires a < b && forall i :: 0 <= i < |puts| ==> puts[i].strike <= a || b <= puts[i].strike
    ensures PutLoss(puts, b) - PutLoss(puts, a) == -Times(b - a, OiFrom(puts, b))
  {
    hide PutPays, Times;
    Added(0, 0, b - a);
    if puts != [] {
      var n, e := |puts| - 1, puts[|puts| - 1];
      PutsSlope(puts[..n], a, b);
      PutSlope(e, a, b);
      Added(OiFrom(puts[..n], b), if b <= e.strike then e.oi else 0, b - a);
    }
  }

  /** From one strike to the next the pain rises by the calls' open interest at or
      below, less the puts' at or above, for every unit of price. */
  lemma PainSlope(calls: Chain, puts: Chain, i: nat)
    requires i + 1 < |Strikes(calls + puts)|
    ensures var s := Strikes(calls + puts);
      Pain(calls, puts, s[i + 1]) - Pain(calls, puts, s[i])
      == (OiUpTo(calls, s[i]) as real - OiFrom(puts, s[i + 1]) as real) * (s[i + 1] - s[i])
  {
    hide CallLoss, PutLoss, Strikes, OiUpTo, OiFrom;
    var s := Strikes(calls + puts);
    forall k | k in s ensures k <= s[i] || s[i + 1] <= k {
      var j :| 0 <= j < |s| && s[j] == k;
    }
    ListedSides(calls, puts);
    CallsSlope(calls, s[i], s[i + 1]);
    PutsSlope(puts, s[i], s[i + 1]);
    var c, p, w := OiUpTo(calls, s[i]) as real, OiFrom(puts, s[i + 1]) as real, s[i + 1] - s[i];
    assert (c - p) * w == c * w - p * w;
  }
}
