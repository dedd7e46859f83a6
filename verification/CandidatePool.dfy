/** The pool of crossover candidates: scoring, the watchlist that keeps a symbol
    in view after it nears a cross, and what is published. */
module CandidatePool {
  import opened Wrappers

  const WATCH_BAND := 0.20
  const WATCH_POLLS := 4
  const POOL_SIZE := 5

  /** What a poll computes for a symbol it could enrich. */
  datatype Reading = Reading(score: real, spread: real)

  /** One poll: the liquidity-active symbols, if that set is known, and the
      symbols scored, in the order they were. */
  datatype Cycle = Cycle(active: Option<set<string>>, symbols: seq<string>, readings: map<string, Reading>)

  type Watchlist = map<string, nat>
  type Scores = map<string, real>

  predicate Competes(c: Cycle, s: string) {
    s in c.symbols && s in c.readings && (c.active.None? || s in c.active.value)
  }

  predicate InBand(c: Cycle, s: string) {
    Competes(c, s) && c.readings[s].spread < 0.20
  }

  /** The polls left for a symbol after one more poll. */
  function Left(before: nat, c: Cycle, s: string): nat {
    if InBand(c, s) then 4 else if before > 0 then before - 1 else 0
  }

  function PollsLeft(w: Watchlist, s: string): nat {
    if s in w then w[s] else 0
  }

  ghost predicate Descending(ranked: seq<string>, scores: Scores) {
    && (forall i, j :: 0 <= i < j < |ranked| ==> ranked[i] != ranked[j])
    && (forall s :: s in ranked <==> s in scores)
    && forall i, j :: 0 <= i < j < |ranked| && ranked[i] in scores && ranked[j] in scores ==>
         scores[ranked[i]] >= scores[ranked[j]]
  }

  /** The first `k` of the pool are the best competitors by score, best first, five
      unless there are fewer; the others are on the watchlist. */
  ghost predicate BestFirst(pool: seq<string>, c: Cycle, w: Watchlist, k: nat) {
    && k <= 5 && k <= |pool|
    && (forall i :: 0 <= i < |pool| ==> Competes(c, pool[i]) && (k <= i ==> pool[i] in w))
    && (forall i, j :: 0 <= i < j < |pool| ==> pool[i] != pool[j])
    && (forall i, j :: 0 <= i < j < k ==> c.readings[pool[i]].score >= c.readings[pool[j]].score)
    && (forall s :: Competes(c, s) && s !in pool[..k] ==>
          k == 5 && forall i :: 0 <= i < k ==> c.readings[pool[i]].score >= c.readings[s].score)
  }

  /** The poller's state across polls, and the published pool. */
  class LTPPoller {
    var watchlist: Watchlist
    var pool: seq<string>

    /** Age the watchlist, then score and watch the competing symbols. */
    method Score(c: Cycle) returns (scores: Scores)
      modifies this`watchlist
      ensures forall s :: s in scores <==> Competes(c, s)
      ensures forall s :: s in scores && s in c.readings ==> scores[s] == c.readings[s].score
      ensures forall s :: PollsLeft(watchlist, s) == Left(PollsLeft(old(watchlist), s), c, s)
      ensures forall s :: s in watchlist ==> watchlist[s] > 0
    {
      watchlist := map s | s in watchlist && watchlist[s] > 1 :: watchlist[s] - 1;
      scores := map[];
      ghost var aged := watchlist;
      for i := 0 to |c.symbols|
        invariant forall s :: s in scores <==> s in c.symbols[..i] && Competes(c, s)
        invariant forall s :: s in scores && s in c.readings ==> scores[s] == c.readings[s].score
        invariant forall s ::
          PollsLeft(watchlist, s) == if s in scores && InBand(c, s) then WATCH_POLLS else PollsLeft(aged, s)
        invariant forall s :: s in watchlist ==> watchlist[s] > 0
      {
        var s := c.symbols[i];
        if s in c.readings && (c.active.None? || s in c.active.value) {
          scores := scores[s := c.readings[s].score];
          if c.readings[s].spread < WATCH_BAND {
            watchlist := watchlist[s := WATCH_POLLS];
          }
        }
      }
    }

    /** Publish the best `n` and, behind them, the watched symbols that scored.
        `ranked` is the scored symbols sorted by score, best first. */
    method PublishPool(scores: Scores, ranked: seq<string>, n: nat)
      requires Descending(ranked, scores)
      modifies this`pool
      ensures forall s :: s in pool <==>
        s in scores && (s in watchlist || s in ranked[..if n < |ranked| then n else |ranked|])
      ensures var cut := if n < |ranked| then n else |ranked|; cut <= |pool| && pool[..cut] == ranked[..cut]
      ensures forall i, j :: 0 <= i < j < |pool| ==> pool[i] != pool[j]
    {
      var cut := if n < |ranked| then n else |ranked|;
      pool := ranked[..cut];
      var left := watchlist.Keys;
      while left != {}
        invariant left <= watchlist.Keys
        invariant |pool| >= cut && pool[..cut] == ranked[..cut]
        invariant forall s :: s in pool <==> s in scores && (s in ranked[..cut] || (s in watchlist && s !in left))
        invariant forall i, j :: 0 <= i < j < |pool| ==> pool[i] != pool[j]
      {
        var s :| s in left;
        left := left - {s};
        if s !in pool && s in scores {
          pool := pool + [s];
        }
      }
    }

    /** A poll publishes only symbols that competed in it, and every one of them
        that is on the watchlist. */
    method Poll(c: Cycle)
      modifies this
      ensures forall s :: PollsLeft(watchlist, s) == Left(PollsLeft(old(watchlist), s), c, s)
      ensures forall s :: s in pool ==> Competes(c, s)
      ensures forall s :: Competes(c, s) && PollsLeft(watchlist, s) > 0 ==> s in pool
      ensures exists k :: BestFirst(pool, c, watchlist, k)
    {
      var scores := Score(c);
      var ranked := Ranked(scores);
      PublishPool(scores, ranked, POOL_SIZE);
      PublishedBest(pool, c, watchlist, scores, ranked);
    }
  }

  lemma PublishedBest(pool: seq<string>, c: Cycle, w: Watchlist, scores: Scores, ranked: seq<string>)
    requires forall s :: s in scores <==> Competes(c, s)
    requires forall s :: s in scores && s in c.readings ==> scores[s] == c.readings[s].score
    requires Descending(ranked, scores)
    requires var cut := if 5 < |ranked| then 5 else |ranked|; cut <= |pool| && pool[..cut] == ranked[..cut]
    requires forall i, j :: 0 <= i < j < |pool| ==> pool[i] != pool[j]
    requires forall s :: s in pool <==> s in scores && (s in w || s in ranked[..if 5 < |ranked| then 5 else |ranked|])
    ensures exists k :: BestFirst(pool, c, w, k)
  {
    var k := if 5 < |ranked| then 5 else |ranked|;
    forall i | 0 <= i < k ensures pool[i] == ranked[i] {
      assert pool[..k][i] == ranked[..k][i];
    }
    forall i | 0 <= i < |pool| ensures Competes(c, pool[i]) && (k <= i ==> pool[i] in w) {
      assert pool[i] in pool;
      assert k <= i ==> forall j :: 0 <= j < k ==> ranked[..k][j] != pool[i];
    }
    forall i | 0 <= i < k ensures ranked[i] in scores && Competes(c, ranked[i]) {
      assert ranked[i] in ranked;
    }
    forall s | Competes(c, s) && s !in pool[..k]
      ensures k == 5 && forall i :: 0 <= i < k ==> c.readings[pool[i]].score >= c.readings[s].score
    {
      assert s in ranked;
      var j :| 0 <= j < |ranked| && ranked[j] == s;
      assert forall l :: 0 <= l < k ==> pool[..k][l] != s;
      assert j >= k;
    }
    assert BestFirst(pool, c, w, k);
  }

  predicate Ordered(ranked: seq<string>, scores: Scores) {
    && (forall i :: 0 <= i < |ranked| ==> ranked[i] in scores)
    && forall i, j :: 0 <= i < j < |ranked| ==> ranked[i] != ranked[j] && scores[ranked[i]] >= scores[ranked[j]]
  }

  function Insert(ranked: seq<string>, scores: Scores, s: string): (r: seq<string>)
    requires Ordered(ranked, scores) && s in scores && s !in ranked
    ensures Ordered(r, scores) && forall x :: x in r <==> x in ranked || x == s
  {
    if ranked == [] || scores[ranked[|ranked| - 1]] >= scores[s] then ranked + [s]
    else
      var n := |ranked| - 1;
      var q := Insert(ranked[..n], scores, s);
      InsertEnds(ranked, q, scores, s);
      q + [ranked[n]]
  }

  lemma AllAhead(ranked: seq<string>, q: seq<string>, scores: Scores, s: string)
    requires Ordered(ranked, scores) && ranked != [] && s in scores && s !in ranked
    requires scores[ranked[|ranked| - 1]] < scores[s]
    requires forall x :: x in q <==> x in ranked[..|ranked| - 1] || x == s
    ensures forall i :: 0 <= i < |q| ==>
      q[i] in scores && q[i] != ranked[|ranked| - 1] && scores[q[i]] >= scores[ranked[|ranked| - 1]]
  {
    var n := |ranked| - 1;
    forall i | 0 <= i < |q|
      ensures q[i] in scores && q[i] != ranked[n] && scores[q[i]] >= scores[ranked[n]]
    {
      assert q[i] in q;
      if q[i] != s {
        var j :| 0 <= j < n && ranked[..n][j] == q[i];
        assert ranked[j] == q[i];
      }
    }
  }

  lemma InsertEnds(ranked: seq<string>, q: seq<string>, scores: Scores, s: string)
    requires Ordered(ranked, scores) && ranked != [] && s in scores && s !in ranked
    requires scores[ranked[|ranked| - 1]] < scores[s] && Ordered(q, scores)
    requires forall x :: x in q <==> x in ranked[..|ranked| - 1] || x == s
    ensures var r := q + [ranked[|ranked| - 1]];
      Ordered(r, scores) && forall x :: x in r <==> x in ranked || x == s
  {
    var n := |ranked| - 1;
    AllAhead(ranked, q, scores, s);
    assert ranked == ranked[..n] + [ranked[n]];
  }

  /** The scored symbols by score, best first. */
  method Ranked(scores: Scores) returns (ranked: seq<string>)
    ensures Descending(ranked, scores)
  {
    ranked := [];
    var left := scores.Keys;
    while left != {}
      invariant forall s :: s in left ==> s in scores
      invariant forall s :: s in ranked <==> s in scores && s !in left
      invariant Ordered(ranked, scores)
    {
      var s :| s in left;
      left := left - {s};
      ranked := Insert(ranked, scores, s);
    }
  }

  // ---- over runs of polls --------------------------------------------------

  /** The polls a symbol has left after a run that began with none. */
  function LeftAfter(cs: seq<Cycle>, s: string): nat {
    if cs == [] then 0 else Left(LeftAfter(cs[..|cs| - 1], s), cs[|cs| - 1], s)
  }

  /** The symbol neared a cross in the run's last four polls, bar the first `left`
      of those. */
  ghost predicate Recent(cs: seq<Cycle>, s: string, left: nat) {
    exists i :: 0 <= i < |cs| && i >= |cs| - 4 + left && InBand(cs[i], s)
  }

  lemma RecentNext(cs: seq<Cycle>, c: Cycle, s: string, left: nat)
    requires left < 4
    ensures Recent(cs + [c], s, left) <==> InBand(c, s) || Recent(cs, s, left + 1)
  {
    var ds := cs + [c];
    if Recent(cs, s, left + 1) {
      var i :| 0 <= i < |cs| && i >= |cs| - 4 + left + 1 && InBand(cs[i], s);
      assert InBand(ds[i], s);
    }
    if InBand(c, s) { assert InBand(ds[|cs|], s); }
  }

  /** A symbol is on the watchlist exactly when it neared a cross in one of the
      last four polls, and has a poll fewer left for each one since. */
  lemma {:induction false} WatchedIffRecent(cs: seq<Cycle>, s: string, left: nat)
    ensures LeftAfter(cs, s) > left <==> left < 4 && Recent(cs, s, left)
  {
    if cs != [] {
      var rest, c := cs[..|cs| - 1], cs[|cs| - 1];
      assert cs == rest + [c];
      WatchedIffRecent(rest, s, left + 1);
      WatchedIffRecent(rest, s, 0);
      if left < 4 {
        RecentNext(rest, c, s, left);
      }
    }
  }
}
