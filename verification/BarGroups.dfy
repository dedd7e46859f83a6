/** Grouping price bars by time slot: the obvious first/max/min/last aggregation
    that both the streaming bar builder and the 15-minute resample are held to. */
module BarGroups {
  import opened Reals

  /** A candle; `key` numbers its time slot. A single trade is a flat candle. */
  datatype Bar = Bar(key: nat, open: real, high: real, low: real, close: real, volume: int)

  function High(g: seq<Bar>): real
    requires g != []
  {
    if |g| == 1 then g[0].high else Max(High(g[..|g| - 1]), g[|g| - 1].high)
  }

  function Low(g: seq<Bar>): real
    requires g != []
  {
    if |g| == 1 then g[0].low else Min(Low(g[..|g| - 1]), g[|g| - 1].low)
  }

  function Volume(g: seq<Bar>): int {
    if g == [] then 0 else Volume(g[..|g| - 1]) + g[|g| - 1].volume
  }

  /** One candle for a group: first open, highest high, lowest low, last close. */
  function Merge(g: seq<Bar>, key: nat): Bar
    requires g != []
  {
    Bar(key, g[0].open, High(g), Low(g), g[|g| - 1].close, Volume(g))
  }

  /** The group of a slot, when `width` slots make a group. */
  function GroupOf(key: nat, width: nat): (k: nat)
    requires width > 0
    ensures width == 1 ==> k == key
  {
    key / width
  }

  /** The bars of group `k`, when `width` slots make a group. */
  function Select(bs: seq<Bar>, width: nat, k: nat): seq<Bar>
    requires width > 0
  {
    if bs == [] then []
    else
      var rest := Select(bs[..|bs| - 1], width, k);
      if GroupOf(bs[|bs| - 1].key, width) == k then rest + [bs[|bs| - 1]] else rest
  }

  lemma {:induction false} SelectMembers(bs: seq<Bar>, width: nat, k: nat)
    requires width > 0
    ensures var r := Select(bs, width, k);
      && (forall i :: 0 <= i < |r| ==> GroupOf(r[i].key, width) == k)
      && (r == [] <==> forall i :: 0 <= i < |bs| ==> GroupOf(bs[i].key, width) != k)
  {
    if bs != [] { SelectMembers(bs[..|bs| - 1], width, k); }
  }

  /** The candle of group `k`, if the group has any bars. */
  function Candle(bs: seq<Bar>, width: nat, k: nat): (r: seq<Bar>)
    requires width > 0
    ensures r == [] <==> Select(bs, width, k) == []
    ensures r != [] ==> r == [Merge(Select(bs, width, k), k)] && r[0].key == k
  {
    var g := Select(bs, width, k);
    if g == [] then [] else [Merge(g, k)]
  }

  /** A candle for each of the first `n` groups that has any bars. */
  function Grouped(bs: seq<Bar>, width: nat, n: nat): seq<Bar>
    requires width > 0
  {
    if n == 0 then []
    else Grouped(bs, width, n - 1) + Candle(bs, width, n - 1)
  }

  predicate Sorted(bs: seq<Bar>) {
    forall i, j :: 0 <= i < j < |bs| ==> bs[i].key <= bs[j].key
  }

  // ---- what a grouping looks like ------------------------------------------

  /** Its keys ascend strictly, and a group has a candle exactly when it has a
      bar. */
  lemma {:induction false} GroupedAscends(bs: seq<Bar>, width: nat, n: nat)
    requires width > 0
    ensures var r := Grouped(bs, width, n);
      && (forall i, j :: 0 <= i < j < |r| ==> r[i].key < r[j].key)
      && (forall i :: 0 <= i < |r| ==> r[i].key < n)
      && (forall k: nat :: HasKey(r, k) <==> k < n && Select(bs, width, k) != [])
  {
    hide Select, Merge, Candle, GroupOf, HasKey;
    if n == 0 {
      HasKeyNone();
    } else {
      GroupedAscends(bs, width, n - 1);
      var c, r := Candle(bs, width, n - 1), Grouped(bs, width, n - 1);
      if c == [] {
        assert Grouped(bs, width, n) == r;
      } else {
        HasKeyLast(r, c[0]);
        assert Grouped(bs, width, n) == r + [c[0]];
      }
    }
  }

  ghost predicate HasKey(r: seq<Bar>, k: nat) {
    exists i :: 0 <= i < |r| && r[i].key == k
  }

  lemma HasKeyNone()
    ensures forall k: nat :: !HasKey([], k)
  {
  }

  lemma HasKeyLast(r: seq<Bar>, b: Bar)
    ensures forall k: nat :: HasKey(r + [b], k) <==> HasKey(r, k) || k == b.key
  {
    forall k: nat ensures HasKey(r + [b], k) <==> HasKey(r, k) || k == b.key {
      if HasKey(r, k) {
        var i :| 0 <= i < |r| && r[i].key == k;
        assert (r + [b])[i].key == k;
      }
      assert (r + [b])[|r|] == b;
    }
  }

  /** No more candles than slots from the first one. */
  lemma {:induction false} GroupedSize(bs: seq<Bar>, from: nat, n: nat)
    requires forall i :: 0 <= i < |bs| ==> from <= bs[i].key
    ensures |Grouped(bs, 1, n)| <= if n < from then 0 else n - from
  {
    hide Select, Merge, Candle;
    if n > 0 {
      GroupedSize(bs, from, n - 1);
      if n <= from { SelectNone(bs, n - 1); }
    }
  }

  // ---- one more bar --------------------------------------------------------

  lemma SelectLast(bs: seq<Bar>, b: Bar, width: nat, k: nat)
    requires width > 0
    ensures Select(bs + [b], width, k) ==
      if GroupOf(b.key, width) == k then Select(bs, width, k) + [b] else Select(bs, width, k)
  {
    assert (bs + [b])[..|bs|] == bs;
  }

  lemma {:induction false} SelectConcat(a: seq<Bar>, b: seq<Bar>, width: nat, k: nat)
    requires width > 0
    ensures Select(a + b, width, k) == Select(a, width, k) + Select(b, width, k)
  {
    hide GroupOf, Select;
    if b == [] {
      assert a + b == a;
      SelectNothing(width, k);
    } else {
      var rest, x := b[..|b| - 1], b[|b| - 1];
      SelectConcat(a, rest, width, k);
      SelectLast(a + rest, x, width, k);
      SelectLast(rest, x, width, k);
      assert a + b == a + rest + [x] && b == rest + [x];
      var p, q := Select(a, width, k), Select(rest, width, k);
      assert p + q + [x] == p + (q + [x]);
    }
  }

  lemma SelectNothing(width: nat, k: nat)
    requires width > 0
    ensures Select([], width, k) == []
  {
  }

  /** A later bar leaves the earlier groups alone. */
  lemma {:induction false} GroupedBefore(bs: seq<Bar>, b: Bar, n: nat)
    requires n <= b.key
    ensures Grouped(bs + [b], 1, n) == Grouped(bs, 1, n)
  {
    hide Select, Merge, GroupOf;
    if n > 0 {
      GroupedBefore(bs, b, n - 1);
      SelectLast(bs, b, 1, n - 1);
    }
  }

  /** Beyond the last slot there is nothing more to group. */
  lemma {:induction false} GroupedBeyond(bs: seq<Bar>, c: nat, n: nat)
    requires c < n && bs != [] && bs[|bs| - 1].key == c && forall i :: 0 <= i < |bs| ==> bs[i].key <= c
    ensures Select(bs, 1, c) != []
    ensures Grouped(bs, 1, n) == Grouped(bs, 1, c) + [Merge(Select(bs, 1, c), c)]
  {
    hide Select, Merge;
    SelectMembers(bs, 1, c);
    if n > c + 1 {
      GroupedBeyond(bs, c, n - 1);
      SelectNone(bs, n - 1);
    }
  }

  // ---- merging twice is merging once ---------------------------------------

  lemma {:induction false} Concat(g: seq<Bar>, h: seq<Bar>)
    requires g != [] && h != []
    ensures High(g + h) == Max(High(g), High(h))
    ensures Low(g + h) == Min(Low(g), Low(h))
    ensures Volume(g + h) == Volume(g) + Volume(h)
  {
    var rest, x := h[..|h| - 1], h[|h| - 1];
    assert (g + h)[..|g + h| - 1] == g + rest && (g + h)[|g + h| - 1] == x;
    if rest == [] {
      assert g + rest == g;
    } else {
      Concat(g, rest);
    }
  }

  lemma MergeTwice(r: seq<Bar>, s: seq<Bar>, h: seq<Bar>, key: nat, k: nat)
    requires r != [] && s != [] && h != [] && Merge(r, k) == Merge(s, k)
    ensures Merge(r + [Merge(h, key)], k) == Merge(s + h, k)
  {
    Concat(r, [Merge(h, key)]);
    Concat(s, h);
    assert Volume([Merge(h, key)]) == Volume([]) + Volume(h);
  }

  lemma MergeOnce(h: seq<Bar>, key: nat, k: nat)
    requires h != []
    ensures Merge([Merge(h, key)], k) == Merge(h, k)
  {
    assert Volume([Merge(h, key)]) == Volume([]) + Volume(h);
  }

  /** The bars before slot `n`. */
  function Below(bs: seq<Bar>, n: nat): seq<Bar> {
    if bs == [] then []
    else
      var rest := Below(bs[..|bs| - 1], n);
      if bs[|bs| - 1].key < n then rest + [bs[|bs| - 1]] else rest
  }

  lemma {:induction false} BelowNext(bs: seq<Bar>, n: nat)
    requires Sorted(bs)
    ensures Below(bs, n + 1) == Below(bs, n) + Select(bs, 1, n)
  {
    if bs != [] {
      var rest, x := bs[..|bs| - 1], bs[|bs| - 1];
      BelowNext(rest, n);
      if x.key < n { SelectNone(rest, n); }
    }
  }

  lemma {:induction false} SelectNone(bs: seq<Bar>, n: nat)
    requires forall i :: 0 <= i < |bs| ==> bs[i].key != n
    ensures Select(bs, 1, n) == []
  {
    if bs != [] { SelectNone(bs[..|bs| - 1], n); }
  }

  lemma {:induction false} BelowAll(bs: seq<Bar>, n: nat)
    requires forall i :: 0 <= i < |bs| ==> bs[i].key < n
    ensures Below(bs, n) == bs
  {
    if bs != [] {
      BelowAll(bs[..|bs| - 1], n);
      assert bs == bs[..|bs| - 1] + [bs[|bs| - 1]];
    }
  }

  lemma {:induction false} BelowNothing(bs: seq<Bar>)
    ensures Below(bs, 0) == []
  {
    if bs != [] { BelowNothing(bs[..|bs| - 1]); }
  }

  lemma {:induction false} SelectInside(g: seq<Bar>, width: nat, k: nat, slot: nat)
    requires width > 0 && forall i :: 0 <= i < |g| ==> g[i].key == slot
    ensures Select(g, width, k) == if GroupOf(slot, width) == k then g else []
  {
    if g != [] {
      SelectInside(g[..|g| - 1], width, k, slot);
      assert g == g[..|g| - 1] + [g[|g| - 1]];
    }
  }

  /** A wide group of the fine candles below slot `n`, and of the bars
      themselves, merge to the same candle. */
  lemma {:induction false} WideGroup(bs: seq<Bar>, width: nat, k: nat, n: nat)
    requires Sorted(bs) && width > 0
    ensures var r, s := Select(Grouped(bs, 1, n), width, k), Select(Below(bs, n), width, k);
      (r == [] <==> s == []) && (r != [] ==> Merge(r, k) == Merge(s, k))
  {
    hide Merge, Select, GroupOf, Candle;
    if n == 0 {
      BelowNothing(bs);
    } else {
      var m := n - 1;
      WideGroup(bs, width, k, m);
      WideNext(bs, width, k, m);
      var g := Select(bs, 1, m);
      if g != [] && GroupOf(m, width) == k {
        WidenBy(Select(Grouped(bs, 1, m), width, k), Select(Below(bs, m), width, k), g, m, k);
      }
    }
  }

  /** What the next slot adds to a wide group, both ways. */
  lemma WideNext(bs: seq<Bar>, width: nat, k: nat, m: nat)
    requires Sorted(bs) && width > 0
    ensures var r, s := Select(Grouped(bs, 1, m), width, k), Select(Below(bs, m), width, k);
      var g := Select(bs, 1, m);
      var adds := g != [] && GroupOf(m, width) == k;
      && Select(Grouped(bs, 1, m + 1), width, k) == (if adds then r + [Merge(g, m)] else r)
      && Select(Below(bs, m + 1), width, k) == (if adds then s + g else s)
  {
    hide Merge, GroupOf, Below, Candle;
    var g, c := Select(bs, 1, m), Candle(bs, 1, m);
    BelowNext(bs, m);
    SelectConcat(Below(bs, m), g, width, k);
    SelectMembers(bs, 1, m);
    SelectInside(g, width, k, m);
    if c == [] {
      assert Grouped(bs, 1, m + 1) == Grouped(bs, 1, m);
    } else {
      SelectLast(Grouped(bs, 1, m), c[0], width, k);
      assert Grouped(bs, 1, m + 1) == Grouped(bs, 1, m) + [c[0]];
    }
  }

  lemma {:induction false} WidenBy(r: seq<Bar>, s: seq<Bar>, g: seq<Bar>, key: nat, k: nat)
    requires g != [] && (r == [] <==> s == []) && (r != [] ==> Merge(r, k) == Merge(s, k))
    ensures Merge(r + [Merge(g, key)], k) == Merge(s + g, k)
  {
    if r == [] {
      MergeOnce(g, key, k);
      assert r + [Merge(g, key)] == [Merge(g, key)] && s + g == g;
    } else {
      MergeTwice(r, s, g, key, k);
    }
  }

  /** Grouping the fine candles of the slots below `n` into wide ones gives what
      grouping the bars below `n` into wide candles directly gives. */
  lemma {:induction false} RegroupedIsGrouped(bs: seq<Bar>, width: nat, n: nat, wide: nat)
    requires Sorted(bs) && width > 0
    ensures Grouped(Grouped(bs, 1, n), width, wide) == Grouped(Below(bs, n), width, wide)
  {
    hide Select, GroupOf, Merge;
    if wide > 0 {
      RegroupedIsGrouped(bs, width, n, wide - 1);
      WideGroup(bs, width, wide - 1, n);
    }
  }

  // ---- what a grouping keeps -----------------------------------------------

  /** Grouping conserves volume and keeps the extremes. */
  lemma {:induction false} GroupedKeeps(bs: seq<Bar>, n: nat)
    requires Sorted(bs)
    ensures var r, s := Grouped(bs, 1, n), Below(bs, n);
      && Volume(r) == Volume(s) && (r == [] <==> s == [])
      && (r != [] ==>
          && High(r) == High(s) && Low(r) == Low(s)
          && r[0].open == s[0].open && r[|r| - 1].close == s[|s| - 1].close)
  {
    hide Select, Candle, Below, High, Low, Volume;
    if n == 0 {
      BelowNothing(bs);
    } else {
      var m := n - 1;
      var g := Select(bs, 1, m);
      GroupedKeeps(bs, m);
      BelowNext(bs, m);
      var r, s := Grouped(bs, 1, m), Below(bs, m);
      if g == [] {
        assert s + g == s && r + [] == r;
      } else {
        if r == [] { assert s == [] && s + g == g; }
        WidenBy(r, s, g, m, 0);
      }
    }
  }
}
