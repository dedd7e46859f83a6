/** What an order and its retries can buy together, under every interleaving. */
module OrderFamilies {
  import opened Wrappers
  import opened OrderTypes
  import opened OrderInterleaving
  import opened OrderRuns

  /** The row carries the broker's last word on how much was filled. */
  predicate FinalRead(s: State, p: nat)
    requires p < |s.rows|
  {
    var r := s.rows[p];
    && r.brokerId.Some? && r.brokerId.value < |s.book|
    && s.book[r.brokerId.value].Final()
    && s.book[r.brokerId.value].filled == r.filled.GetOr(0)
  }

  // ---- the book only moves on ----------------------------------------------

  predicate BookLater(a: Book, b: Book) {
    |a| <= |b| && forall k :: 0 <= k < |a| ==> a[k].Becomes(b[k])
  }

  lemma BookStepsOn(s: State, a: Action)
    requires Inv(s)
    ensures BookLater(s.book, Step(s, a).book)
  {
    hide RowsOk, PlacingOk, CancelsOk, SyncOk, SnapshotOk, ExpireOk, ChildrenOk, FindLive, WithStatus, Matched;
  }

  lemma {:induction false} BookMovesOn(s: State, more: seq<Action>)
    requires Inv(s)
    ensures BookLater(s.book, Then(s, more).book)
    decreases |more|
  {
    hide Inv, Step;
    if more == [] {
      BookStays(s);
    } else {
      StepKeeps(s, more[0]);
      BookStepsOn(s, more[0]);
      BookMovesOn(Step(s, more[0]), more[1..]);
      BookTransitive(s.book, Step(s, more[0]).book, Then(s, more).book);
    }
  }

  lemma BookStays(s: State)
    requires Inv(s)
    ensures BookLater(s.book, s.book)
  {
  }

  lemma BookTransitive(a: Book, b: Book, c: Book)
    requires BookLater(a, b) && BookLater(b, c)
    ensures BookLater(a, c)
  {
    forall k | 0 <= k < |a| ensures a[k].Becomes(c[k]) {
      assert a[k].Becomes(b[k]) && b[k].Becomes(c[k]);
    }
  }

  // ---- the remainder -------------------------------------------------------

  /** What the broker fills of the order now, and what the row shows unfilled, stay
      within the order in this continuation. */
  predicate WithinAfter(steps: seq<Action>, more: seq<Action>, p: nat)
    requires p < |Run(steps).rows|
  {
    var r, book := Run(steps).rows[p], Run(steps + more).book;
    r.brokerId.Some? ==> r.brokerId.value < |book| ==> book[r.brokerId.value].filled + Unfilled(r) <= r.qty
  }

  /** Asking again for what the row shows unfilled is safe in every continuation of
      the run if and only if the row holds the final filled quantity. */
  lemma RemainderSafeIff(steps: seq<Action>, p: nat)
    requires p < |Run(steps).rows| && Run(steps).rows[p].status.AfterOpen() && Unfilled(Run(steps).rows[p]) > 0
    ensures (forall more :: WithinAfter(steps, more, p)) <==> FinalRead(Run(steps), p)
  {
    hide Run, Step, Then;
    var s := Run(steps);
    WholeRun(steps);
    BeforeKeeps(steps, |steps|);
    BeforeFits(steps, |steps|);
    assert RowOk(s.rows, s.book, p);
    var r := s.rows[p];
    var bid := r.brokerId.value;
    if FinalRead(s, p) {
      forall more ensures WithinAfter(steps, more, p) {
        BookMovesOn(s, more);
        RunThen(steps, more);
        assert s.book[bid].Becomes(Then(s, more).book[bid]);
      }
    } else {
      var more := FillsFurther(s, p);
      RunThen(steps, more);
      assert !WithinAfter(steps, more, p);
    }
  }

  lemma FillsFurther(s: State, p: nat) returns (more: seq<Action>)
    requires Inv(s) && Fits(s) && p < |s.rows| && s.rows[p].status.AfterOpen()
    requires Unfilled(s.rows[p]) > 0 && !FinalRead(s, p)
    ensures var r := s.rows[p]; var book := Then(s, more).book;
      r.brokerId.Some? && r.brokerId.value < |book| && book[r.brokerId.value].filled + Unfilled(r) > r.qty
  {
    assert RowOk(s.rows, s.book, p);
    var bid := s.rows[p].brokerId.value;
    var o := s.book[bid];
    if o.filled > s.rows[p].filled.GetOr(0) {
      more := [];
    } else {
      assert o.Sound();
      var b := s.book[bid := o.(filled := o.filled + 1)];
      more := [BrokerMove(b)];
      assert more[1..] == [];
      assert BookMoves(s.book, b);
      assert Then(s, more) == Step(s, BrokerMove(b));
    }
  }

  // ---- families over runs --------------------------------------------------

  /** The last word on order `p` leaves exactly `rest` of it. */
  predicate FinalWith(s: State, p: nat, rest: nat) {
    && p < |s.rows| && s.rows[p].brokerId.Some? && s.rows[p].brokerId.value < |s.book|
    && s.rows[p].status.AfterOpen()
    && s.book[s.rows[p].brokerId.value].Final()
    && s.book[s.rows[p].brokerId.value].filled + rest == s.rows[p].qty
  }

  /** Where the expiry reads an order's remainder, the row holds the final fill. */
  predicate ReadsFinal(s: State, a: Action) {
    a == ExpireRefresh && s.expire.StaleConfirmed? && s.expire.id < |s.rows| && Unfilled(s.rows[s.expire.id]) > 0
    ==> FinalRead(s, s.expire.id)
  }

  /** Every retry asks for exactly what the final fill of its original left, and so
      does the expiry about to make one. */
  predicate FamilyOk(s: State, c: nat)
    requires c < |s.rows|
  {
    s.rows[c].parent.Some? ==> FinalWith(s, s.rows[c].parent.value, s.rows[c].qty)
  }

  predicate PendingOk(s: State) {
    (s.expire.StaleRead? || s.expire.StaleWritten?) && s.expire.left > 0 ==> FinalWith(s, s.expire.id, s.expire.left)
  }

  predicate FamiliesOk(s: State) {
    PendingOk(s) && forall c :: 0 <= c < |s.rows| ==> FamilyOk(s, c)
  }

  lemma FinalStays(s: State, a: Action, p: nat, rest: nat)
    requires Inv(s) && FinalWith(s, p, rest)
    ensures FinalWith(Step(s, a), p, rest)
  {
    hide Inv, Step, Reopens, Forgets;
    StepAges(s, a, p);
    BookStepsOn(s, a);
    assert s.book[s.rows[p].brokerId.value].Becomes(Step(s, a).book[s.rows[p].brokerId.value]);
  }

  /** What a step does to the remainder the expiry holds, and what a retry asks. */
  predicate LeftStep(s: State, a: Action, s': State) {
    && (s'.expire.StaleRead? || s'.expire.StaleWritten? ==>
          || ((s.expire.StaleRead? || s.expire.StaleWritten?)
              && s.expire.id == s'.expire.id && s.expire.left == s'.expire.left)
          || (a == ExpireRefresh && s.expire.StaleConfirmed? && s.expire.id == s'.expire.id < |s.rows|
              && s'.expire.left == Unfilled(s.rows[s'.expire.id])))
    && (forall i :: |s.rows| <= i < |s'.rows| && s'.rows[i].parent.Some? ==>
          && s.expire.StaleWritten? && s'.rows[i].parent.value == s.expire.id
          && s'.rows[i].qty == s.expire.left > 0)
  }

  lemma ExpireLeft(s: State, a: Action)
    ensures LeftStep(s, a, StepExpire(s, a))
  {
    hide FindLive, WithStatus;
  }

  lemma LeftSteps(s: State, a: Action)
    ensures LeftStep(s, a, Step(s, a))
  {
    hide StepPlacing, StepCancel, StepSync, StepExpire;
    Elsewhere(s, a);
    ExpireLeft(s, a);
  }

  lemma RefreshFinal(s: State, p: nat)
    requires Inv(s) && Fits(s) && p < |s.rows| && FinalRead(s, p) && Unfilled(s.rows[p]) > 0
    ensures FinalWith(s, p, Unfilled(s.rows[p]))
  {
    assert RowOk(s.rows, s.book, p);
  }

  lemma FamiliesKept(s: State, a: Action)
    requires Inv(s) && Fits(s) && FamiliesOk(s) && ReadsFinal(s, a)
    ensures FamiliesOk(Step(s, a))
  {
    hide Inv, Fits, Step, FinalWith, FinalRead, Unfinished;
    var s' := Step(s, a);
    LeftSteps(s, a);
    StepLists(s, a);
    forall c | 0 <= c < |s'.rows| ensures FamilyOk(s', c) {
      if c < |s.rows| {
        assert FamilyOk(s, c);
        KeepsQty(s, a, c);
        if s.rows[c].parent.Some? { FinalStays(s, a, s.rows[c].parent.value, s.rows[c].qty); }
      } else if s'.rows[c].parent.Some? {
        FinalStays(s, a, s.expire.id, s.expire.left);
      }
    }
    if (s'.expire.StaleRead? || s'.expire.StaleWritten?) && s'.expire.left > 0 {
      var id, left := s'.expire.id, s'.expire.left;
      if !((s.expire.StaleRead? || s.expire.StaleWritten?) && s.expire.id == id && s.expire.left == left) {
        RefreshFinal(s, id);
      }
      FinalStays(s, a, id, left);
    }
  }

  lemma KeepsQty(s: State, a: Action, c: nat)
    requires Inv(s) && c < |s.rows|
    ensures c < |Step(s, a).rows| && Step(s, a).rows[c].qty == s.rows[c].qty
  {
    hide Inv, Step, Reopens, Forgets;
    StepAges(s, a, c);
  }

  /** Over every interleaved run whose expiries read the final fill: every retry,
      however many an order has, asks for what the final fill left. */
  lemma {:induction false} FamiliesOverRuns(steps: seq<Action>, n: nat)
    requires n <= |steps| && forall m :: 0 <= m < n ==> ReadsFinal(Before(steps, m), steps[m])
    ensures FamiliesOk(Before(steps, n))
  {
    hide Step, Inv, Fits, Before, FamiliesOk, ReadsFinal;
    if n == 0 {
      StartsEmpty(steps);
      NoFamilies();
    } else {
      FamiliesOverRuns(steps, n - 1);
      BeforeKeeps(steps, n - 1);
      BeforeFits(steps, n - 1);
      BeforeNext(steps, n - 1);
      FamiliesKept(Before(steps, n - 1), steps[n - 1]);
    }
  }

  lemma NoFamilies()
    ensures FamiliesOk(START)
  {
  }

  // ---- the whole family ----------------------------------------------------

  /** What the broker has filled for all retries of an order together. */
  function FilledOfRetries(rows: seq<Row>, book: Book, p: nat): nat {
    if rows == [] then 0
    else
      var n := |rows| - 1;
      FilledOfRetries(rows[..n], book, p) + if rows[n].parent == Some(p) then FilledOf(book, n) else 0
  }

  lemma {:induction false} NoRetryFills(rows: seq<Row>, book: Book, p: nat)
    requires forall c :: 0 <= c < |rows| ==> rows[c].parent != Some(p)
    ensures FilledOfRetries(rows, book, p) == 0
  {
    if rows != [] { NoRetryFills(rows[..|rows| - 1], book, p); }
  }

  lemma {:induction false} OneRetryFills(rows: seq<Row>, book: Book, p: nat, c: nat)
    requires c < |rows| && rows[c].parent == Some(p)
    requires forall d :: 0 <= d < |rows| && d != c ==> rows[d].parent != Some(p)
    ensures FilledOfRetries(rows, book, p) == FilledOf(book, c)
  {
    var n := |rows| - 1;
    if c == n {
      NoRetryFills(rows[..n], book, p);
    } else {
      OneRetryFills(rows[..n], book, p, c);
    }
  }

  lemma OrderFillsAtMost(s: State, i: nat)
    requires Inv(s) && Fits(s) && i < |s.rows| && OnePerTag(s.book, i)
    ensures FilledOf(s.book, i) <= s.rows[i].qty
  {
    if k: nat :| k < |s.book| && s.book[k].tag == Some(i) {
      FilledOfOne(s.book, i, k);
      assert s.book[k].Sound();
    } else {
      FilledOfNone(s.book, i);
    }
  }

  /** And with no order put back to OPEN after its retry was decided, and one broker
      order per tag, everything filled for an order and for all its retries stays
      within what was first asked for. */
  lemma FamilyNeverOverBuys(steps: seq<Action>, p: nat)
    requires forall m :: 0 <= m < |steps| ==> ReadsFinal(Before(steps, m), steps[m]) && !RevivesAt(steps, m, p)
    requires p < |Run(steps).rows| && forall i :: 0 <= i < |Run(steps).rows| ==> OnePerTag(Run(steps).book, i)
    ensures var s := Run(steps); FilledOf(s.book, p) + FilledOfRetries(s.rows, s.book, p) <= s.rows[p].qty
  {
    hide Run, Before, ReadsFinal, RevivesAt, FilledOf, OnePerTag;
    var s := Run(steps);
    WholeRun(steps);
    BeforeKeeps(steps, |steps|);
    BeforeFits(steps, |steps|);
    FamiliesOverRuns(steps, |steps|);
    if c: nat :| c < |s.rows| && s.rows[c].parent == Some(p) {
      forall d: nat | d < |s.rows| && d != c ensures s.rows[d].parent != Some(p) {
        if s.rows[d].parent == Some(p) {
          if c < d { SecondRetryNeedsRevival(steps, c, d); } else { SecondRetryNeedsRevival(steps, d, c); }
        }
      }
      OneRetryFills(s.rows, s.book, p, c);
      assert FamilyOk(s, c);
      OrderFillsAtMost(s, c);
      assert RowOk(s.rows, s.book, p);
      FilledOfOne(s.book, p, s.rows[p].brokerId.value);
    } else {
      NoRetryFills(s.rows, s.book, p);
      OrderFillsAtMost(s, p);
    }
  }
}
