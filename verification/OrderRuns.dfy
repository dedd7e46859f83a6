/** What holds over every interleaved run of the order manager. */
module OrderRuns {
  import opened Wrappers
  import opened OrderTypes
  import opened OrderInterleaving

  function Run(steps: seq<Action>): State {
    if steps == [] then START else Step(Run(steps[..|steps| - 1]), steps[|steps| - 1])
  }

  /** The state before the n-th step. */
  function Before(steps: seq<Action>, n: nat): State
    requires n <= |steps|
  {
    Run(steps[..n])
  }

  lemma BeforeNext(steps: seq<Action>, n: nat)
    requires n < |steps|
    ensures Before(steps, n + 1) == Step(Before(steps, n), steps[n])
  {
    hide Step;
    assert steps[..n + 1][..n] == steps[..n];
  }

  lemma RunSnoc(steps: seq<Action>, a: Action)
    ensures Run(steps + [a]) == Step(Run(steps), a)
  {
    assert (steps + [a])[..|steps|] == steps;
  }

  /** Where further steps lead. */
  function Then(s: State, steps: seq<Action>): State
    decreases |steps|
  {
    if steps == [] then s else Then(Step(s, steps[0]), steps[1..])
  }

  lemma {:induction false} RunThen(steps: seq<Action>, more: seq<Action>)
    ensures Run(steps + more) == Then(Run(steps), more)
    decreases |more|
  {
    hide Run, Step;
    if more == [] {
      assert steps + more == steps;
    } else {
      RunSnoc(steps, more[0]);
      RunThen(steps + [more[0]], more[1..]);
      assert steps + more == steps + [more[0]] + more[1..];
    }
  }

  lemma {:induction false} BeforeKeeps(steps: seq<Action>, n: nat)
    requires n <= |steps|
    ensures Inv(Before(steps, n))
  {
    hide Step, Inv;
    if n == 0 {
      assert Inv(START) by { StartOk(); }
    } else {
      BeforeKeeps(steps, n - 1);
      BeforeNext(steps, n - 1);
      StepKeeps(Before(steps, n - 1), steps[n - 1]);
    }
  }

  lemma StartOk()
    ensures Inv(START) && Fits(START)
  {
  }

  /** In every run the broker's orders have the quantities their rows asked for. */
  lemma {:induction false} BeforeFits(steps: seq<Action>, n: nat)
    requires n <= |steps|
    ensures Fits(Before(steps, n))
  {
    hide Step, Inv, Fits;
    if n == 0 {
      StartOk();
    } else {
      BeforeFits(steps, n - 1);
      BeforeKeeps(steps, n - 1);
      BeforeNext(steps, n - 1);
      FitsKept(Before(steps, n - 1), steps[n - 1]);
    }
  }

  // ---- the lifecycle -------------------------------------------------------

  predicate Closed(st: Status) {
    st in {Completed, Cancelled, Rejected, Expired}
  }

  /** An OPEN write takes effect on a row that has already left OPEN. */
  predicate Reopens(s: State, a: Action) {
    Rewrites(s, a) && Closed(s.rows[a.id].status)
  }

  /** An OPEN write takes effect on a row that already knows of more fills. */
  predicate Forgets(s: State, a: Action) {
    Rewrites(s, a) && s.placing[a.id].filled.GetOr(0) < s.rows[a.id].filled.GetOr(0)
  }

  predicate AlongGraph(s: State, s': State) {
    && |s.rows| <= |s'.rows|
    && (forall i :: 0 <= i < |s.rows| ==> Edge(s.rows[i].status, s'.rows[i].status))
    && (forall i :: |s.rows| <= i < |s'.rows| ==> s'.rows[i].status == Pending)
  }

  predicate FillsKept(s: State, s': State) {
    && |s.rows| <= |s'.rows|
    && forall i :: 0 <= i < |s.rows| ==> s.rows[i].filled.GetOr(0) <= s'.rows[i].filled.GetOr(0)
  }

  /** A step moves every row along the lifecycle graph if and only if it reopens
      none, and lowers no recorded fill if and only if it forgets none. */
  lemma StepIff(s: State, a: Action)
    requires Inv(s)
    ensures AlongGraph(s, Step(s, a)) <==> !Reopens(s, a)
    ensures FillsKept(s, Step(s, a)) <==> !Forgets(s, a)
  {
    hide Step, Inv;
    StepKeeps(s, a);
    if Rewrites(s, a) {
      RewriteKeeps(s, a);
    } else {
      FillsOfFresh(s);
      forall i | 0 <= i < |s.rows|
        ensures Edge(s.rows[i].status, Step(s, a).rows[i].status)
        ensures s.rows[i].filled.GetOr(0) <= Step(s, a).rows[i].filled.GetOr(0)
      {
        assert RowStep(s.rows[i], Step(s, a).rows[i]);
      }
    }
  }

  lemma FillsOfFresh(s: State)
    requires Inv(s)
    ensures forall i :: 0 <= i < |s.rows| && !s.rows[i].status.AfterOpen() ==> s.rows[i].filled.None?
  {
    forall i | 0 <= i < |s.rows| && !s.rows[i].status.AfterOpen() ensures s.rows[i].filled.None? {
      assert RowOk(s.rows, s.book, i);
    }
  }

  predicate ReopensAt(steps: seq<Action>, n: nat, i: nat)
    requires n < |steps|
  {
    Reopens(Before(steps, n), steps[n]) && steps[n].id == i
  }

  predicate ForgetsAt(steps: seq<Action>, n: nat, i: nat)
    requires n < |steps|
  {
    Forgets(Before(steps, n), steps[n]) && steps[n].id == i
  }

  /** Over every run, each step keeps every row on the lifecycle graph exactly
      when it reopens none, and every recorded fill exactly when it forgets none. */
  lemma OnlyGraphEdges(steps: seq<Action>, n: nat)
    requires n < |steps|
    ensures AlongGraph(Before(steps, n), Before(steps, n + 1)) <==> !Reopens(Before(steps, n), steps[n])
    ensures FillsKept(Before(steps, n), Before(steps, n + 1)) <==> !Forgets(Before(steps, n), steps[n])
  {
    hide Step, Inv, Before, AlongGraph, FillsKept, Reopens, Forgets;
    BeforeKeeps(steps, n);
    BeforeNext(steps, n);
    StepIff(Before(steps, n), steps[n]);
  }

  function Rank(st: Status): nat {
    match st
    case Pending => 0
    case PendingVerification => 1
    case Open => 2
    case _ => 3
  }

  /** A row keeps its placement and, once it has one, its broker order; a refusal
      or a failure is final. */
  predicate Older(r: Row, r': Row) {
    && r' == r.(status := r'.status, brokerId := r'.brokerId, filled := r'.filled)
    && (r.status == RejectedByRisk || r.status == Failed ==> r'.status == r.status)
    && (r.status == PendingVerification ==> r'.status != Pending)
    && (r.status.AfterOpen() ==> r'.status.AfterOpen() && r'.brokerId == r.brokerId)
  }

  lemma StepAges(s: State, a: Action, i: nat)
    requires Inv(s) && i < |s.rows|
    ensures i < |Step(s, a).rows| && Older(s.rows[i], Step(s, a).rows[i])
    ensures Rank(s.rows[i].status) <= Rank(Step(s, a).rows[i].status) || (Reopens(s, a) && a.id == i)
    ensures s.rows[i].filled.GetOr(0) <= Step(s, a).rows[i].filled.GetOr(0) || (Forgets(s, a) && a.id == i)
  {
    hide Step, Inv;
    StepKeeps(s, a);
    if Rewrites(s, a) {
      RewriteKeeps(s, a);
    } else {
      FillsOfFresh(s);
      assert RowStep(s.rows[i], Step(s, a).rows[i]);
    }
  }

  /** Between any two points of a run a row keeps its placement and broker order;
      it moves on through the lifecycle unless it is reopened in between, and its
      recorded fill never shrinks unless it is forgotten in between. */
  lemma {:induction false} RowsAge(steps: seq<Action>, j: nat, k: nat, i: nat)
    requires j <= k <= |steps| && i < |Before(steps, j).rows|
    ensures i < |Before(steps, k).rows| && Older(Before(steps, j).rows[i], Before(steps, k).rows[i])
    ensures (forall n :: j <= n < k ==> !ReopensAt(steps, n, i)) ==>
      Rank(Before(steps, j).rows[i].status) <= Rank(Before(steps, k).rows[i].status)
    ensures (forall n :: j <= n < k ==> !ForgetsAt(steps, n, i)) ==>
      Before(steps, j).rows[i].filled.GetOr(0) <= Before(steps, k).rows[i].filled.GetOr(0)
    decreases k
  {
    hide Step, Inv, Before, Reopens, Forgets;
    if j < k {
      RowsAge(steps, j, k - 1, i);
      BeforeKeeps(steps, k - 1);
      BeforeNext(steps, k - 1);
      StepAges(Before(steps, k - 1), steps[k - 1], i);
      var reopened, forgotten := ReopensAt(steps, k - 1, i), ForgetsAt(steps, k - 1, i);
    }
  }

  predicate EntersOpen(steps: seq<Action>, n: nat, i: nat)
    requires n < |steps|
  {
    && i < |Before(steps, n).rows| && i < |Before(steps, n + 1).rows|
    && Before(steps, n).rows[i].status != Open && Before(steps, n + 1).rows[i].status == Open
  }

  /** An order enters OPEN from PENDING or PENDING_VERIFICATION, or is reopened. */
  lemma EntersFrom(steps: seq<Action>, n: nat, i: nat)
    requires n < |steps| && EntersOpen(steps, n, i)
    ensures Before(steps, n).rows[i].status in {Pending, PendingVerification} <==> !ReopensAt(steps, n, i)
  {
    hide Before, Step, Inv;
    RowsAge(steps, n, n + 1, i);
    BeforeKeeps(steps, n);
    BeforeNext(steps, n);
    var r, r' := Before(steps, n).rows[i], Before(steps, n + 1).rows[i];
    assert Older(r, r');
    if forall m :: n <= m < n + 1 ==> !ReopensAt(steps, m, i) {
      assert Rank(r.status) <= Rank(r'.status);
    }
  }

  /** A row that has been accepted by the broker has entered OPEN before. */
  lemma {:induction false} WasOpened(steps: seq<Action>, k: nat, i: nat)
    requires k <= |steps| && i < |Before(steps, k).rows| && Before(steps, k).rows[i].status.AfterOpen()
    ensures exists n :: 0 <= n < k && EntersOpen(steps, n, i)
  {
    hide Step, Inv, Before;
    if k == 0 {
      StartsEmpty(steps);
    } else {
      var s := Before(steps, k - 1);
      BeforeKeeps(steps, k - 1);
      BeforeNext(steps, k - 1);
      if i < |s.rows| && s.rows[i].status.AfterOpen() {
        WasOpened(steps, k - 1, i);
      } else {
        StepKeeps(s, steps[k - 1]);
        if Rewrites(s, steps[k - 1]) { RewriteKeeps(s, steps[k - 1]); }
        if i < |s.rows| { assert RowStep(s.rows[i], Before(steps, k).rows[i]); }
        assert EntersOpen(steps, k - 1, i);
      }
    }
  }

  predicate EntersTwice(steps: seq<Action>, n: nat, k: nat, i: nat)
    requires n < k < |steps|
  {
    EntersOpen(steps, n, i) && EntersOpen(steps, k, i)
  }

  /** Under every interleaving an order enters OPEN at most once if and only if no
      step reopens it. */
  lemma OpenedAtMostOnce(steps: seq<Action>, i: nat)
    ensures (forall n, k :: 0 <= n < k < |steps| ==> !EntersTwice(steps, n, k, i))
      <==> (forall m :: 0 <= m < |steps| ==> !ReopensAt(steps, m, i))
  {
    hide Before, Reopens;
    if forall m :: 0 <= m < |steps| ==> !ReopensAt(steps, m, i) {
      forall n, k | 0 <= n < k < |steps| ensures !EntersTwice(steps, n, k, i) {
        if EntersOpen(steps, n, i) {
          RowsAge(steps, n + 1, k, i);
          RowsAge(steps, k, k + 1, i);
          assert Older(Before(steps, n + 1).rows[i], Before(steps, k).rows[i]);
        }
      }
    } else {
      var m :| 0 <= m < |steps| && ReopensAt(steps, m, i);
      ReopeningEnters(steps, m, i);
      WasOpened(steps, m, i);
      var n :| 0 <= n < m && EntersOpen(steps, n, i);
      assert EntersTwice(steps, n, m, i);
    }
  }

  lemma ReopeningEnters(steps: seq<Action>, m: nat, i: nat)
    requires m < |steps| && ReopensAt(steps, m, i)
    ensures EntersOpen(steps, m, i) && Closed(Before(steps, m).rows[i].status)
  {
    hide Before, Step, Inv;
    BeforeKeeps(steps, m);
    BeforeNext(steps, m);
    RewriteKeeps(Before(steps, m), steps[m]);
  }

  predicate BackFromClosed(steps: seq<Action>, j: nat, k: nat, i: nat)
    requires j <= k <= |steps|
  {
    && i < |Before(steps, j).rows| && Closed(Before(steps, j).rows[i].status)
    && i < |Before(steps, k).rows| && !Closed(Before(steps, k).rows[i].status)
  }

  /** And once it has left OPEN it never returns if and only if no step reopens
      it. */
  lemma ClosedForGood(steps: seq<Action>, i: nat)
    ensures (forall j, k :: 0 <= j <= k <= |steps| ==> !BackFromClosed(steps, j, k, i))
      <==> (forall m :: 0 <= m < |steps| ==> !ReopensAt(steps, m, i))
  {
    hide Before, Reopens;
    if forall m :: 0 <= m < |steps| ==> !ReopensAt(steps, m, i) {
      forall j, k | 0 <= j <= k <= |steps| ensures !BackFromClosed(steps, j, k, i) {
        if i < |Before(steps, j).rows| && Closed(Before(steps, j).rows[i].status) {
          RowsAge(steps, j, k, i);
          assert Older(Before(steps, j).rows[i], Before(steps, k).rows[i]);
        }
      }
    } else {
      var m :| 0 <= m < |steps| && ReopensAt(steps, m, i);
      ReopeningEnters(steps, m, i);
      assert BackFromClosed(steps, m, m + 1, i);
    }
  }

  // ---- retries -------------------------------------------------------------

  /** Under every interleaving, whatever the audit log answers, a retry is its
      original again for at most its quantity, has no retry itself, and neither has a
      leg of a spread or of an iron condor entry. */
  lemma RetriesBounded(steps: seq<Action>, c: nat)
    requires c < |Run(steps).rows| && Run(steps).rows[c].parent.Some?
    ensures var rows := Run(steps).rows; var p := rows[c].parent.value;
      && p < c && rows[p].parent.None? && !rows[p].ctx.isRetry
      && rows[c].symbol == rows[p].symbol && rows[c].side == rows[p].side
      && rows[c].ctx.strategy == rows[p].ctx.strategy && rows[c].ctx.isExit == rows[p].ctx.isExit
      && !rows[c].ctx.isSpreadLeg && rows[c].ctx.isRetry && 0 < rows[c].qty <= rows[p].qty
      && (forall d :: 0 <= d < |rows| ==> rows[d].parent != Some(c))
      && !rows[p].ctx.isSpreadLeg
      && (rows[p].ctx.isExit || rows[p].ctx.strategy.None? || rows[p].ctx.strategy.value !in MULTI_LEG_STRATEGIES)
  {
    hide Step, Run;
    var rows := Run(steps).rows;
    assert steps[..|steps|] == steps;
    BeforeKeeps(steps, |steps|);
    assert Inv(Run(steps));
    assert ChildOk(rows, c) && ChildOk(rows, rows[c].parent.value);
    forall d | 0 <= d < |rows| ensures rows[d].parent != Some(c) {
      assert ChildOk(rows, d);
    }
  }

  /** The expiry is about to retry order `p`, or has. */
  predicate Retired(s: State, p: nat) {
    (s.expire.StaleWritten? && s.expire.id == p) || exists c :: 0 <= c < |s.rows| && s.rows[c].parent == Some(p)
  }

  /** A retired order is out of OPEN, the running expiry will not come back to it
      once it has a retry, and it has one at most. */
  predicate RetiredOk(s: State, p: nat) {
    && (s.expire.StaleWritten? && s.expire.id == p ==> p < |s.rows| && Closed(s.rows[p].status))
    && (forall c :: 0 <= c < |s.rows| && s.rows[c].parent == Some(p) ==>
          p < |s.rows| && Closed(s.rows[p].status) && p !in Unfinished(s.expire))
    && forall c, d :: 0 <= c < d < |s.rows| && s.rows[c].parent == Some(p) ==> s.rows[d].parent != Some(p)
  }

  /** A retired order goes back to OPEN. */
  predicate Revives(s: State, a: Action, p: nat) {
    Reopens(s, a) && a.id == p && Retired(s, p)
  }

  predicate RevivesAt(steps: seq<Action>, n: nat, p: nat)
    requires n < |steps|
  {
    Revives(Before(steps, n), steps[n], p)
  }

  /** What a step may do to the expiry's unfinished orders and to parents. */
  predicate ListsStep(s: State, s': State) {
    && |s.rows| <= |s'.rows| <= |s.rows| + 1
    && (forall i :: 0 <= i < |s.rows| ==> s'.rows[i].parent == s.rows[i].parent)
    && (forall p :: p in Unfinished(s'.expire) ==>
          p in Unfinished(s.expire) || (p < |s.rows| && s.rows[p].status == Open))
    && (forall i :: |s.rows| <= i < |s'.rows| && s'.rows[i].parent.Some? ==>
          var p := s'.rows[i].parent.value;
          s.expire.StaleWritten? && p == s.expire.id && p !in Unfinished(s'.expire))
    && (s'.expire.StaleWritten? ==>
          s'.expire == s.expire || (s'.expire.id < |s'.rows| && s'.rows[s'.expire.id].status == Expired))
  }

  lemma ExpireLists(s: State, a: Action)
    requires Inv(s)
    ensures ListsStep(s, StepExpire(s, a))
  {
    hide Inv, FindLive, WithStatus, ListsStep;
    if a.ExpireRetry? {
      RetryLists(s, a);
    } else {
      hide StepExpire;
      TurnLists(s, a);
    }
  }

  lemma RetryLists(s: State, a: Action)
    requires Inv(s) && a.ExpireRetry?
    ensures ListsStep(s, StepExpire(s, a))
  {
    hide RowsOk, PlacingOk, CancelsOk, SyncOk, SnapshotOk, ChildrenOk, FindLive, WithStatus, Listed;
    var e := s.expire;
    if e.StaleWritten? { Head(s.rows, e.id, e.ids); }
  }

  lemma TurnLists(s: State, a: Action)
    requires !a.ExpireRetry?
    ensures ListsStep(s, StepExpire(s, a))
  {
    hide FindLive, WithStatus;
    FreshLists(s.rows);
  }

  lemma SameLists(s: State, s': State)
    requires s'.expire == s.expire && |s.rows| <= |s'.rows| <= |s.rows| + 1
    requires forall i :: 0 <= i < |s.rows| ==> s'.rows[i].parent == s.rows[i].parent
    requires forall i :: |s.rows| <= i < |s'.rows| ==> s'.rows[i].parent.None?
    ensures ListsStep(s, s')
  {
  }

  lemma PlacingLists(s: State, a: Action)
    ensures ListsStep(s, StepPlacing(s, a))
  {
    hide FindLive, ListsStep;
    SameLists(s, StepPlacing(s, a));
  }

  lemma CancelLists(s: State, a: Action)
    ensures ListsStep(s, StepCancel(s, a))
  {
    hide ListsStep;
    SameLists(s, StepCancel(s, a));
  }

  lemma SyncLists(s: State, a: Action)
    ensures ListsStep(s, StepSync(s, a))
  {
    hide Matched, WithStatus, ListsStep;
    SameLists(s, StepSync(s, a));
  }

  /** A step that is not the expiry's leaves the expiry alone and retries nothing. */
  lemma Elsewhere(s: State, a: Action)
    ensures Step(s, a) == StepExpire(s, a) || Apart(s, Step(s, a))
  {
    hide StepPlacing, StepCancel, StepSync, StepExpire, Apart;
    PlacingApart(s, a);
    CancelApart(s, a);
    SyncApart(s, a);
    if a.BrokerMove? { BrokerApart(s, a.book); }
  }

  predicate Apart(s: State, s': State) {
    s'.expire == s.expire && forall i :: |s.rows| <= i < |s'.rows| ==> s'.rows[i].parent.None?
  }

  lemma PlacingApart(s: State, a: Action)
    ensures Apart(s, StepPlacing(s, a))
  {
    hide FindLive;
  }

  lemma CancelApart(s: State, a: Action)
    ensures Apart(s, StepCancel(s, a))
  {
  }

  lemma SyncApart(s: State, a: Action)
    ensures Apart(s, StepSync(s, a))
  {
    hide Matched, WithStatus;
  }

  lemma BrokerApart(s: State, b: Book)
    ensures Apart(s, Step(s, BrokerMove(b)))
  {
  }

  lemma StepLists(s: State, a: Action)
    requires Inv(s)
    ensures ListsStep(s, Step(s, a))
  {
    hide StepPlacing, StepCancel, StepSync, StepExpire, Inv, ListsStep;
    ExpireLists(s, a);
    PlacingLists(s, a);
    CancelLists(s, a);
    SyncLists(s, a);
    if a.BrokerMove? { SameLists(s, Step(s, a)); }
  }

  lemma RetiredKept(s: State, a: Action, p: nat)
    requires Inv(s) && RetiredOk(s, p) && !Revives(s, a, p)
    ensures RetiredOk(Step(s, a), p)
  {
    hide Step, Inv, Reopens, Unfinished, Rewrites;
    var s' := Step(s, a);
    StepLists(s, a);
    if p < |s.rows| {
      StepAges(s, a, p);
    }
    UnfinishedHead(s.expire);
  }

  lemma UnfinishedHead(e: Expiring)
    ensures e.StaleWritten? ==> e.id in Unfinished(e)
  {
    if e.StaleWritten? { assert ([e.id] + e.ids)[0] == e.id; }
  }

  lemma {:induction false} RetiredOverRuns(steps: seq<Action>, n: nat, p: nat)
    requires n <= |steps| && forall m :: 0 <= m < n ==> !RevivesAt(steps, m, p)
    ensures RetiredOk(Before(steps, n), p)
  {
    hide Step, Inv, Before, Revives, RetiredOk;
    if n == 0 {
      StartsEmpty(steps);
      NothingRetired(p);
    } else {
      RetiredOverRuns(steps, n - 1, p);
      BeforeKeeps(steps, n - 1);
      BeforeNext(steps, n - 1);
      assert !RevivesAt(steps, n - 1, p);
      RetiredKept(Before(steps, n - 1), steps[n - 1], p);
    }
  }

  lemma NothingRetired(p: nat)
    ensures RetiredOk(START, p)
  {
  }

  /** An order gets a second retry only after a step put it back to OPEN although
      its retry was decided. */
  lemma SecondRetryNeedsRevival(steps: seq<Action>, c: nat, d: nat)
    requires c < d < |Run(steps).rows| && Run(steps).rows[c].parent == Run(steps).rows[d].parent
    requires Run(steps).rows[c].parent.Some?
    ensures exists n :: 0 <= n < |steps| && RevivesAt(steps, n, Run(steps).rows[c].parent.value)
  {
    hide Run, Revives;
    var p := Run(steps).rows[c].parent.value;
    assert steps[..|steps|] == steps;
    assert Before(steps, |steps|) == Run(steps);
    if forall n :: 0 <= n < |steps| ==> !RevivesAt(steps, n, p) {
      RetiredOverRuns(steps, |steps|, p);
    }
  }

  // ---- an unknown outcome is never guessed ---------------------------------

  /** Action `a` reads the broker's list for order i and finds `found` there. */
  predicate Reads(s: State, a: Action, i: nat, found: Option<nat>) {
    && i < |s.rows|
    && found == FindLive(s.book, i)
    && ((a == VerifyRead(i, true) && At(s, i, Verifying))
        || (a == ExpireVerifyRead(true) && s.expire.VerifyList? && s.expire.ids != [] && s.expire.ids[0] == i))
  }

  predicate ReadsList(steps: seq<Action>, n: nat, i: nat, found: Option<nat>)
    requires n < |steps|
  {
    Reads(Before(steps, n), steps[n], i, found)
  }

  /** A verdict some task still holds about order i. */
  predicate Holds(s: State, i: nat, found: Option<nat>) {
    At(s, i, Decided(found)) || (s.expire.VerifyDecided? && s.expire.id == i && s.expire.found == found)
  }

  /** Between `r` and `r'` no fate was settled, except by a verdict held in `s`. */
  predicate ByVerdict(s: State, i: nat, r: Row, r': Row) {
    && (r.status != Failed && r'.status == Failed ==> Holds(s, i, None))
    && (r.status == PendingVerification && r'.status != PendingVerification ==>
        (r'.status == Failed && Holds(s, i, None))
        || (r'.status == Open && r'.brokerId.Some? && Holds(s, i, r'.brokerId)))
  }

  lemma OthersUntouched(s: State, a: Action, i: nat)
    requires i < |s.rows| && (!TaskWrite(a) || a.id != i)
    ensures i < |StepPlacing(s, a).rows| && StepPlacing(s, a).rows[i] == s.rows[i]
  {
  }

  lemma PlacingByVerdict(s: State, a: Action, i: nat)
    requires i < |s.rows| && i < |StepPlacing(s, a).rows| && a != Raise(i)
    requires i in s.placing ==> TaskOk(s.rows, s.book, i, s.placing[i])
    ensures ByVerdict(s, i, s.rows[i], StepPlacing(s, a).rows[i])
  {
    if TaskWrite(a) && a.id == i {
    } else {
      hide StepPlacing, Holds;
      OthersUntouched(s, a, i);
    }
  }

  lemma OwnTask(s: State, i: nat)
    requires Inv(s)
    ensures i in s.placing ==> TaskOk(s.rows, s.book, i, s.placing[i])
  {
  }

  lemma CancelByVerdict(s: State, a: Action, i: nat)
    requires Inv(s) && i < |s.rows| && i < |StepCancel(s, a).rows|
    ensures ByVerdict(s, i, s.rows[i], StepCancel(s, a).rows[i])
  {
    hide RowsOk, PlacingOk, SyncOk, ExpireOk, ChildrenOk;
  }

  lemma SyncByVerdict(s: State, a: Action, i: nat)
    requires Inv(s) && i < |s.rows| && i < |StepSync(s, a).rows|
    ensures ByVerdict(s, i, s.rows[i], StepSync(s, a).rows[i])
  {
    hide RowsOk, PlacingOk, CancelsOk, ExpireOk, ChildrenOk, Matched, WithStatus, Holds;
    if s.sync.Applying? && s.sync.todo != [] { assert SeenOk(s.rows, s.book, s.sync.todo[0]); }
  }

  lemma ExpireByVerdict(s: State, a: Action, i: nat)
    requires Inv(s) && i < |s.rows| && i < |StepExpire(s, a).rows|
    ensures ByVerdict(s, i, s.rows[i], StepExpire(s, a).rows[i])
  {
    hide RowsOk, PlacingOk, CancelsOk, SyncOk, ChildrenOk;
    if s.expire.VerifyDecided? || s.expire.StaleConfirmed? { Head(s.rows, s.expire.id, s.expire.ids); }
  }

  lemma {:induction false} DecidedByVerdict(s: State, a: Action, i: nat)
    requires Inv(s) && i < |s.rows| && i < |Step(s, a).rows| && a != Raise(i)
    ensures ByVerdict(s, i, s.rows[i], Step(s, a).rows[i])
  {
    hide Inv, StepPlacing, StepCancel, StepSync, StepExpire;
    StepKeeps(s, a);
    if a.CancelStart? || a.CancelAnswer? || a.CancelWrite? {
      CancelByVerdict(s, a, i);
    } else if a.SyncStart? || a.SyncRead? || a.SyncStep? || a.SyncEnd? {
      SyncByVerdict(s, a, i);
    } else if Step(s, a) == StepExpire(s, a) {
      ExpireByVerdict(s, a, i);
    } else if !a.BrokerMove? {
      OwnTask(s, i);
      PlacingByVerdict(s, a, i);
    }
  }

  lemma PlacingVerdict(s: State, a: Action, i: nat, found: Option<nat>)
    requires i in s.placing ==> i < |s.rows|
    requires Holds(StepPlacing(s, a), i, found)
    ensures Holds(s, i, found) || Reads(s, a, i, found)
  {
    hide FindLive;
  }

  lemma ExpireVerdict(s: State, a: Action, i: nat, found: Option<nat>)
    requires Inv(s) && Holds(StepExpire(s, a), i, found)
    ensures Holds(s, i, found) || Reads(s, a, i, found)
  {
    hide RowsOk, CancelsOk, SyncOk, ChildrenOk, FindLive, WithStatus;
    assert i in s.placing ==> TaskOk(s.rows, s.book, i, s.placing[i]);
    assert s.expire.VerifyList? && s.expire.ids != [] ==> s.expire.ids[0] in s.expire.ids;
  }

  /** A verdict is only ever formed by reading the broker's list. */
  lemma {:induction false} VerdictFromRead(s: State, a: Action, i: nat, found: Option<nat>)
    requires Inv(s) && Holds(Step(s, a), i, found)
    ensures Holds(s, i, found) || Reads(s, a, i, found)
  {
    hide StepPlacing, StepExpire, Reads, Inv;
    if Step(s, a) == StepPlacing(s, a) {
      OwnTask(s, i);
      PlacingVerdict(s, a, i, found);
    } else if Step(s, a) == StepExpire(s, a) {
      ExpireVerdict(s, a, i, found);
    }
  }

  lemma {:induction false} VerdictHasRead(steps: seq<Action>, n: nat, i: nat, found: Option<nat>)
    requires n <= |steps| && Holds(Before(steps, n), i, found)
    ensures exists m :: 0 <= m < n && ReadsList(steps, m, i, found)
  {
    hide Step, Holds, Reads;
    if n == 0 {
      NothingHeldAtStart(i, found);
    } else {
      BeforeNext(steps, n - 1);
      BeforeKeeps(steps, n - 1);
      VerdictFromRead(Before(steps, n - 1), steps[n - 1], i, found);
      if Holds(Before(steps, n - 1), i, found) {
        VerdictHasRead(steps, n - 1, i, found);
      } else {
        assert ReadsList(steps, n - 1, i, found);
      }
    }
  }

  lemma NothingHeldAtStart(i: nat, found: Option<nat>)
    ensures !Holds(START, i, found)
  {
  }

  /** An order that is FAILED, and was not refused outright by the broker, got
      there by a successful read of the broker's list with no live order in it. */
  lemma {:induction false} FailedOnlyAfterRead(steps: seq<Action>, n: nat, i: nat)
    requires n <= |steps|
    requires i < |Before(steps, n).rows| && Before(steps, n).rows[i].status == Failed
    requires forall k :: 0 <= k < n ==> steps[k] != Raise(i)
    ensures exists m :: 0 <= m < n && ReadsList(steps, m, i, None)
  {
    hide Step, Inv, Before, Holds, ReadsList;
    if n == 0 {
      StartsEmpty(steps);
    } else {
      var s := Before(steps, n - 1);
      BeforeNext(steps, n - 1);
      BeforeKeeps(steps, n - 1);
      StepKeeps(s, steps[n - 1]);
      if Rewrites(s, steps[n - 1]) { RewriteKeeps(s, steps[n - 1]); }
      if i < |s.rows| {
        DecidedByVerdict(s, steps[n - 1], i);
        if s.rows[i].status == Failed {
          FailedOnlyAfterRead(steps, n - 1, i);
        } else {
          VerdictHasRead(steps, n - 1, i, None);
        }
      }
    }
  }

  lemma StartsEmpty(steps: seq<Action>)
    ensures Before(steps, 0) == START
  {
  }

  /** A row leaves PENDING_VERIFICATION only to the verdict of a successful read:
      OPEN with the live order found, FAILED when there was none. */
  lemma VerifiedOnlyByRead(steps: seq<Action>, n: nat, i: nat)
    requires n < |steps|
    requires i < |Before(steps, n).rows| && Before(steps, n).rows[i].status == PendingVerification
    requires i < |Before(steps, n + 1).rows| && Before(steps, n + 1).rows[i].status != PendingVerification
    ensures var r := Before(steps, n + 1).rows[i];
      && (r.status == Open || r.status == Failed)
      && (r.status == Open ==> exists m :: 0 <= m < n && ReadsList(steps, m, i, r.brokerId) && r.brokerId.Some?)
      && (r.status == Failed ==> exists m :: 0 <= m < n && ReadsList(steps, m, i, None))
  {
    hide Step, Inv, Before, Holds, ReadsList;
    var s := Before(steps, n);
    BeforeNext(steps, n);
    BeforeKeeps(steps, n);
    RaiseNeedsPending(s, i);
    DecidedByVerdict(s, steps[n], i);
    var r := Before(steps, n + 1).rows[i];
    if r.status == Failed {
      VerdictHasRead(steps, n, i, None);
    } else {
      VerdictHasRead(steps, n, i, r.brokerId);
    }
  }

  lemma RaiseNeedsPending(s: State, i: nat)
    requires Inv(s) && i < |s.rows| && s.rows[i].status == PendingVerification
    ensures Step(s, Raise(i)) == s
  {
    assert i in s.placing ==> TaskOk(s.rows, s.book, i, s.placing[i]);
  }

  // ---- and then it stays true ----------------------------------------------

  /** No live order carries i's tag and none can appear any more. */
  predicate Gone(s: State, i: nat) {
    && i < |s.rows| && i !in s.inFlight && !At(s, i, Routing)
    && forall k :: 0 <= k < |s.book| && s.book[k].tag == Some(i) ==> !s.book[k].Live()
  }

  lemma GoneStays(s: State, a: Action, i: nat)
    requires Inv(s) && Gone(s, i)
    ensures Gone(Step(s, a), i)
  {
    hide Inv, Gone, StepPlacing, StepCancel, StepSync, StepExpire;
    if a.BrokerMove? {
      GoneStaysAtBroker(s, a.book, i);
    } else {
      GoneStaysPlacing(s, a, i);
      GoneStaysElsewhere(s, a, i);
    }
  }

  lemma GoneStaysAtBroker(s: State, b: Book, i: nat)
    requires Gone(s, i)
    ensures Gone(Step(s, BrokerMove(b)), i)
  {
    if BookMoves(s.book, b) {
      forall k | 0 <= k < |b| && b[k].tag == Some(i) ensures !b[k].Live() {
        if k < |s.book| { assert s.book[k].Becomes(b[k]); }
      }
    }
  }

  lemma GoneStaysPlacing(s: State, a: Action, i: nat)
    requires Inv(s) && Gone(s, i)
    ensures Gone(StepPlacing(s, a), i)
  {
    hide Inv, FindLive;
  }

  lemma GoneStaysElsewhere(s: State, a: Action, i: nat)
    requires Inv(s) && Gone(s, i)
    ensures Gone(StepCancel(s, a), i) && Gone(StepSync(s, a), i) && Gone(StepExpire(s, a), i)
  {
    hide Inv, FindLive, Matched, WithStatus;
  }

  /** If nothing was in flight for the order at the read that found nothing,
      the FAILED order has no live order at the broker, then or ever after. */
  lemma {:induction false} VerifiedFailureIsReal(steps: seq<Action>, m: nat, n: nat, i: nat)
    requires m < |steps| && m < n <= |steps|
    requires ReadsList(steps, m, i, None) && i !in Before(steps, m).inFlight
    ensures var s := Before(steps, n);
      forall k :: 0 <= k < |s.book| && s.book[k].tag == Some(i) ==> !s.book[k].Live()
  {
    assert Gone(Before(steps, n), i) by {
      GoneAfterRead(steps, m, n, i);
    }
  }

  lemma {:induction false} GoneAfterRead(steps: seq<Action>, m: nat, n: nat, i: nat)
    requires m < |steps| && m <= n <= |steps|
    requires ReadsList(steps, m, i, None) && i !in Before(steps, m).inFlight
    ensures Gone(Before(steps, n), i)
    decreases n
  {
    hide Step, Before;
    if n == m {
      var s := Before(steps, m);
      BeforeKeeps(steps, m);
      if i in s.placing { assert TaskOk(s.rows, s.book, i, s.placing[i]); }
    } else {
      hide Inv, Gone, ReadsList;
      GoneAfterRead(steps, m, n - 1, i);
      BeforeKeeps(steps, n - 1);
      BeforeNext(steps, n - 1);
      GoneStays(Before(steps, n - 1), steps[n - 1], i);
    }
  }

  /** The row says FAILED and the broker has a live order of it. */
  predicate FailedButLive(s: State, i: nat) {
    && i < |s.rows| && s.rows[i].status == Failed
    && exists k :: 0 <= k < |s.book| && s.book[k].tag == Some(i) && s.book[k].Live()
  }

  predicate LaterFailedButLive(steps: seq<Action>, more: seq<Action>, i: nat) {
    FailedButLive(Run(steps + more), i)
  }

  lemma ReadForms(s: State, a: Action, i: nat)
    requires Inv(s) && Reads(s, a, i, None)
    ensures var s' := Step(s, a);
      i < |s'.rows| && Holds(s', i, None) && !s'.rows[i].status.AfterOpen() && s'.inFlight == s.inFlight
  {
    hide FindLive, WithStatus, RowsOk, CancelsOk, SyncOk, SnapshotOk, ChildrenOk, ListedAfterOpen;
    if i in s.placing { assert TaskOk(s.rows, s.book, i, s.placing[i]); }
    assert s.expire.VerifyList? && s.expire.ids != [] ==> s.expire.ids[0] in s.expire.ids;
  }

  lemma ReadLeaves(steps: seq<Action>, i: nat)
    requires steps != [] && ReadsList(steps, |steps| - 1, i, None)
    ensures var s := Run(steps);
      && i < |s.rows| && Holds(s, i, None) && !s.rows[i].status.AfterOpen()
      && s.inFlight == Before(steps, |steps| - 1).inFlight
  {
    hide Step, Inv, Reads, Holds;
    var m := |steps| - 1;
    BeforeKeeps(steps, m);
    ReadForms(Before(steps, m), steps[m], i);
  }

  lemma FailsThenLands(s: State, i: nat) returns (more: seq<Action>)
    requires i < |s.rows| && Holds(s, i, None) && i in s.inFlight
    ensures FailedButLive(Then(s, more), i)
  {
    hide FindLive, WithStatus, Matched;
    var a := if At(s, i, Decided(None)) then VerifyWrite(i) else ExpireVerifyWrite;
    var order := BrokerOrder(Some(i), s.rows[i].qty, 0, BOpen);
    var t := Step(s, a);
    assert i < |t.rows| && t.rows[i].status == Failed && t.rows[i].qty == order.qty && i in t.inFlight;
    var u := Step(t, Lands(i, order));
    assert u == t.(book := t.book + [order]) && u.book[|t.book|] == order;
    more := [a, Lands(i, order)];
    hide Step;
    assert more[1..] == [Lands(i, order)] && more[1..][1..] == [];
    assert Then(s, more) == Then(t, [Lands(i, order)]) == Then(u, []) == u;
  }

  /** After a successful read of the list that holds no live order of it, the order
      that is then marked FAILED never has one, in any continuation, if and only if no
      submission of it was in flight at the read. */
  lemma VerifiedFailureIsRealIff(steps: seq<Action>, i: nat)
    requires steps != [] && ReadsList(steps, |steps| - 1, i, None)
    ensures (forall more :: !LaterFailedButLive(steps, more, i)) <==> i !in Run(steps).inFlight
  {
    hide Run, Step, Before, Holds, ReadsList;
    ReadLeaves(steps, i);
    if i in Run(steps).inFlight {
      var more := FailsThenLands(Run(steps), i);
      RunThen(steps, more);
      assert LaterFailedButLive(steps, more, i);
    } else {
      forall more ensures !LaterFailedButLive(steps, more, i) {
        var all, m := steps + more, |steps| - 1;
        SameRead(steps, more, i);
        VerifiedFailureIsReal(all, m, |all|, i);
        WholeRun(all);
      }
    }
  }

  lemma WholeRun(steps: seq<Action>)
    ensures Before(steps, |steps|) == Run(steps)
  {
    assert steps[..|steps|] == steps;
  }

  lemma SameRead(steps: seq<Action>, more: seq<Action>, i: nat)
    requires steps != [] && ReadsList(steps, |steps| - 1, i, None)
    ensures var m := |steps| - 1; ReadsList(steps + more, m, i, None) && Before(steps + more, m) == Before(steps, m)
  {
    hide Run;
    assert (steps + more)[..|steps| - 1] == steps[..|steps| - 1];
  }
}
