/** The OPEN write that takes effect and raises: how its repetition reopens an order,
    and exactly when an order can be retried a second time. */
module OrderRevival {
  import opened Wrappers
  import opened OrderTypes
  import opened OrderInterleaving
  import opened OrderRuns

  // ---- a repeated write reopens --------------------------------------------

  const PLAIN := Context(None, false, false, false)
  const RESTING := BrokerOrder(Some(0), 10, 0, BOpen)
  const DONE := BrokerOrder(Some(0), 10, 10, BComplete)

  function OneOrder(st: Status, bid: Option<nat>, filled: Option<nat>, b: BrokerOrder, sync: Syncing): State {
    State([Row("A", Buy, 10, st, bid, filled, 0, PLAIN, true, None)], [b], {},
          map[0 := Writing(0, None)], map[], sync, Idle)
  }

  function Placing0(p: Placing, book: Book, inFlight: set<nat>): State {
    State([Row("A", Buy, 10, Pending, None, None, 0, PLAIN, true, None)], book, inFlight,
          map[0 := p], map[], Unlocked, Idle)
  }

  lemma Submission()
    ensures Step(START, Create("A", Buy, 10, PLAIN, true)) == Placing0(Routing, [], {})
    ensures Step(Placing0(Routing, [], {}), Submit(0)) == Placing0(Submitting, [], {0})
    ensures Step(Placing0(Submitting, [], {0}), Lands(0, RESTING)) == Placing0(Submitting, [RESTING], {0})
  {
    assert map[0 := Routing][0 := Submitting] == map[0 := Submitting];
    assert [] + [RESTING] == [RESTING];
  }

  lemma Acknowledgement()
    ensures Step(Placing0(Submitting, [RESTING], {0}), Ack(0, 0)) == Placing0(Acked(0), [RESTING], {})
    ensures Step(Placing0(Acked(0), [RESTING], {}), ReadFill(0, false)) == Placing0(Writing(0, None), [RESTING], {})
  {
    assert {0} - {0} == {};
    assert map[0 := Submitting][0 := Acked(0)] == map[0 := Acked(0)];
    assert map[0 := Acked(0)][0 := Writing(0, None)] == map[0 := Writing(0, None)];
  }

  lemma ToWriting() returns (e: seq<Action>)
    ensures Run(e) == OneOrder(Pending, None, None, RESTING, Unlocked)
  {
    hide Run, Step;
    Submission();
    Acknowledgement();
    var a, b, c, d := Create("A", Buy, 10, PLAIN, true), Submit(0), Lands(0, RESTING), Ack(0, 0);
    StartsEmpty([]);
    RunSnoc([], a);
    RunSnoc([] + [a], b);
    RunSnoc([] + [a] + [b], c);
    RunSnoc([] + [a] + [b] + [c], d);
    RunSnoc([] + [a] + [b] + [c] + [d], ReadFill(0, false));
    e := [] + [a] + [b] + [c] + [d] + [ReadFill(0, false)];
    assert Run([]) == START by { assert Before([], 0) == START; }
  }

  lemma Snapshot(rows: seq<Row>, book: Book)
    requires |rows| == 1 && rows[0].status == Open && rows[0].brokerId == Some(0) && |book| == 1
    ensures WithStatus(rows, Open) == [0]
    ensures Matched(rows, book, [0]) == [Seen(0, 0, book[0])]
  {
    SnapshotOpen(rows);
    SnapshotMatched(rows, book);
  }

  lemma SnapshotOpen(rows: seq<Row>)
    requires |rows| == 1 && rows[0].status == Open
    ensures WithStatus(rows, Open) == [0]
  {
    assert rows[..0] == [] && WithStatus(rows[..0], Open) == [];
  }

  lemma SnapshotMatched(rows: seq<Row>, book: Book)
    requires |rows| == 1 && rows[0].brokerId == Some(0) && |book| == 1
    ensures Matched(rows, book, [0]) == [Seen(0, 0, book[0])]
  {
    assert [0][..0] == [] && Matched(rows, book, [0][..0]) == [];
  }

  lemma ToSnapshot(s: State)
    requires s == OneOrder(Open, Some(0), None, RESTING, Unlocked)
    ensures Step(Step(Step(s, BrokerMove([DONE])), SyncStart), SyncRead(true))
      == OneOrder(Open, Some(0), None, DONE, Applying([Seen(0, 0, DONE)]))
  {
    hide WithStatus, Matched, StepPlacing, StepCancel, StepExpire;
    var f := s.(book := [DONE]);
    assert Step(s, BrokerMove([DONE])) == f;
    Snapshot(f.rows, f.book);
    assert Step(f, SyncStart) == f.(sync := Reading([0]));
  }

  lemma ToCompleted()
    ensures Step(OneOrder(Open, Some(0), None, DONE, Applying([Seen(0, 0, DONE)])), SyncStep)
      == OneOrder(Completed, Some(0), Some(10), DONE, Applying([]))
  {
    assert [Seen(0, 0, DONE)][1..] == [];
  }

  /** The OPEN write takes effect but raises, so place_order writes it again: by
      then a sync has completed the row, which is OPEN once more. */
  lemma RaisedWriteReopens() returns (routed: seq<Action>, completed: seq<Action>, rewritten: seq<Action>)
    ensures routed <= completed <= rewritten
    ensures Run(routed) == OneOrder(Open, Some(0), None, RESTING, Unlocked)
    ensures Run(completed) == OneOrder(Completed, Some(0), Some(10), DONE, Applying([]))
    ensures |Run(rewritten).rows| == 1 && Run(rewritten).rows[0].status == Open
  {
    hide Run;
    var e := ToWriting();
    RunSnoc(e, WriteOpen(0, WrittenButRaised));
    routed := e + [WriteOpen(0, WrittenButRaised)];
    ToSnapshot(Run(routed));
    ToCompleted();
    RunSnoc(routed, BrokerMove([DONE]));
    RunSnoc(routed + [BrokerMove([DONE])], SyncStart);
    RunSnoc(routed + [BrokerMove([DONE])] + [SyncStart], SyncRead(true));
    RunSnoc(routed + [BrokerMove([DONE])] + [SyncStart] + [SyncRead(true)], SyncStep);
    completed := routed + [BrokerMove([DONE])] + [SyncStart] + [SyncRead(true)] + [SyncStep];
    RunSnoc(completed, WriteOpen(0, Written));
    rewritten := completed + [WriteOpen(0, Written)];
  }

  // ---- a revived order is retried again ------------------------------------

  /** One expiry that finds the first order stale, cancels it and retries it. */
  const EXPIRY: seq<Action> :=
    [ExpireStart, ExpireList, ExpireAsk, ExpireAnswer(true),
     ExpireRefresh, ExpireWrite, ExpireRetry(true, true), ExpireEnd]

  function Retry(s: State): Row
    requires s.rows != []
  {
    var r := s.rows[0];
    Row(r.symbol, r.side, Unfilled(r), Pending, None, None, 0,
        Context(r.ctx.strategy, r.ctx.isExit, false, true), true, Some(0))
  }

  lemma ExpiryRetriesFirst(s: State)
    requires s.rows != [] && s.expire.Idle? && RetryEligible(s.rows[0]) && Unfilled(s.rows[0]) > 0
    requires WithStatus(s.rows, PendingVerification) == [] && WithStatus(s.rows, Open) == [0]
    ensures Then(s, EXPIRY) ==
      NewRow(s.(rows := s.rows[0 := s.rows[0].(status := Expired)]), Retry(s))
  {
    hide Step, WithStatus;
    EightSteps(s);
    FirstFour(s);
    LastFour(s);
  }

  lemma FirstFour(s: State)
    requires s.expire.Idle?
    requires WithStatus(s.rows, PendingVerification) == [] && WithStatus(s.rows, Open) == [0]
    ensures Step(Step(Step(Step(s, ExpireStart), ExpireList), ExpireAsk), ExpireAnswer(true))
      == s.(expire := StaleConfirmed(0, []))
  {
    hide Step, WithStatus;
    FirstTwo(s);
    NextTwo(s);
  }

  lemma FirstTwo(s: State)
    requires s.expire.Idle?
    requires WithStatus(s.rows, PendingVerification) == [] && WithStatus(s.rows, Open) == [0]
    ensures Step(Step(s, ExpireStart), ExpireList) == s.(expire := StaleList([0]))
  {
    hide WithStatus, FindLive, StepPlacing, StepCancel, StepSync;
    assert Step(s, ExpireStart) == s.(expire := VerifyList([]));
  }

  lemma NextTwo(s: State)
    ensures Step(Step(s.(expire := StaleList([0])), ExpireAsk), ExpireAnswer(true))
      == s.(expire := StaleConfirmed(0, []))
  {
    hide WithStatus, FindLive, StepPlacing, StepCancel, StepSync;
    assert [0][1..] == [];
    assert Step(s.(expire := StaleList([0])), ExpireAsk) == s.(expire := StaleAsked(0, []));
  }

  lemma LastFour(s: State)
    requires s.rows != [] && s.expire.Idle? && RetryEligible(s.rows[0]) && Unfilled(s.rows[0]) > 0
    ensures Step(Step(Step(Step(s.(expire := StaleConfirmed(0, [])), ExpireRefresh), ExpireWrite),
                      ExpireRetry(true, true)), ExpireEnd)
      == NewRow(s.(rows := s.rows[0 := s.rows[0].(status := Expired)]), Retry(s))
  {
    hide Step;
    var n, w := Unfilled(s.rows[0]), s.(rows := s.rows[0 := s.rows[0].(status := Expired)]);
    WriteExpired(s);
    WriteRetry(w, n);
    assert Retry(s) == Row(w.rows[0].symbol, w.rows[0].side, n, Pending, None, None, 0,
                           Context(w.rows[0].ctx.strategy, w.rows[0].ctx.isExit, false, true), true, Some(0));
  }

  lemma WriteExpired(s: State)
    requires s.rows != []
    ensures Step(Step(s.(expire := StaleConfirmed(0, [])), ExpireRefresh), ExpireWrite)
      == s.(rows := s.rows[0 := s.rows[0].(status := Expired)], expire := StaleWritten(0, Unfilled(s.rows[0]), []))
  {
    var n := Unfilled(s.rows[0]);
    assert Step(s.(expire := StaleConfirmed(0, [])), ExpireRefresh) == s.(expire := StaleRead(0, n, []));
  }

  lemma WriteRetry(w: State, n: nat)
    requires w.rows != [] && w.expire.Idle? && RetryEligible(w.rows[0]) && n > 0
    ensures var r := w.rows[0];
      Step(Step(w.(expire := StaleWritten(0, n, [])), ExpireRetry(true, true)), ExpireEnd)
      == NewRow(w, Row(r.symbol, r.side, n, Pending, None, None, 0,
                       Context(r.ctx.strategy, r.ctx.isExit, false, true), true, Some(0)))
  {
  }

  lemma EightSteps(s: State)
    ensures Then(s, EXPIRY) ==
      Step(Step(Step(Step(Step(Step(Step(Step(s, ExpireStart), ExpireList), ExpireAsk), ExpireAnswer(true)),
        ExpireRefresh), ExpireWrite), ExpireRetry(true, true)), ExpireEnd)
  {
    hide Step;
    var last4 := [ExpireRefresh, ExpireWrite, ExpireRetry(true, true), ExpireEnd];
    assert EXPIRY[1..][1..][1..][1..] == last4;
    FourMore(s, ExpireStart, ExpireList, ExpireAsk, ExpireAnswer(true), last4);
    FourMore(Step(Step(Step(Step(s, ExpireStart), ExpireList), ExpireAsk), ExpireAnswer(true)),
             ExpireRefresh, ExpireWrite, ExpireRetry(true, true), ExpireEnd, []);
    assert [ExpireStart, ExpireList, ExpireAsk, ExpireAnswer(true)] + last4 == EXPIRY && last4 + [] == last4;
  }

  lemma OneMore(s: State, a: Action, more: seq<Action>)
    ensures Then(s, [a] + more) == Then(Step(s, a), more)
  {
    hide Step;
    assert ([a] + more)[1..] == more;
  }

  lemma FourMore(s: State, a: Action, b: Action, c: Action, d: Action, more: seq<Action>)
    ensures Then(s, [a, b, c, d] + more) == Then(Step(Step(Step(Step(s, a), b), c), d), more)
  {
    hide Step, Then;
    OneMore(s, a, [b, c, d] + more);
    OneMore(Step(s, a), b, [c, d] + more);
    OneMore(Step(Step(s, a), b), c, [d] + more);
    OneMore(Step(Step(Step(s, a), b), c), d, more);
    assert [a, b, c, d] + more == [a] + ([b, c, d] + more);
    assert [b, c, d] + more == [b] + ([c, d] + more);
    assert [c, d] + more == [c] + ([d] + more);
  }

  lemma FirstOpenOnly(rows: seq<Row>)
    requires 1 <= |rows| <= 2 && rows[0].status == Open && (|rows| == 2 ==> rows[1].status == Pending)
    ensures WithStatus(rows, Open) == [0] && WithStatus(rows, PendingVerification) == []
  {
    assert rows[..1][..0] == [];
    assert WithStatus(rows[..1], Open) == [0] && WithStatus(rows[..1], PendingVerification) == [];
    if |rows| == 1 { assert rows[..1] == rows; }
  }

  /** The OPEN write that took effect and raised is repeated after the order was
      expired and retried: the next expiry retries it a second time. */
  lemma RevivedOrderRetriesTwice() returns (steps: seq<Action>)
    ensures var rows := Run(steps).rows;
      |rows| == 3 && rows[1].parent == Some(0) && rows[2].parent == Some(0)
  {
    hide Run, WithStatus, Then;
    var routed, _, _ := RaisedWriteReopens();
    var s := Run(routed);
    FirstOpenOnly(s.rows);
    ExpiryRetriesFirst(s);
    RunThen(routed, EXPIRY);
    var t := Then(s, EXPIRY);
    var revived := routed + EXPIRY + [WriteOpen(0, Written)];
    RunSnoc(routed + EXPIRY, WriteOpen(0, Written));
    var u := Run(revived);
    assert |u.rows| == 2 && u.rows[0] == s.rows[0] && u.rows[1] == Retry(s) && u.expire.Idle?;
    FirstOpenOnly(u.rows);
    ExpiryRetriesFirst(u);
    RunThen(revived, EXPIRY);
    steps := revived + EXPIRY;
    assert Run(steps) == Then(u, EXPIRY);
  }

  // ---- when a second retry is still possible -------------------------------

  function RetriesOf(rows: seq<Row>, p: nat): nat {
    if rows == [] then 0
    else
      var n := |rows| - 1;
      RetriesOf(rows[..n], p) + if rows[n].parent == Some(p) then 1 else 0
  }

  /** What the running expiry would ask for again if it retried order `p`. */
  function Remains(s: State, p: nat): nat
    requires p < |s.rows|
  {
    if (s.expire.StaleRead? || s.expire.StaleWritten?) && s.expire.id == p then s.expire.left else Unfilled(s.rows[p])
  }

  /** Order `p` rests with something unfilled, or its OPEN write may still be
      repeated and put it back that way, or the running expiry still has it with
      something left. */
  predicate Exposed(s: State, p: nat)
    requires p < |s.rows|
  {
    || (s.rows[p].status == Open && Unfilled(s.rows[p]) > 0)
    || (p in s.placing && s.placing[p].Writing? && s.placing[p].filled.GetOr(0) < s.rows[p].qty)
    || (p in Unfinished(s.expire) && Remains(s, p) > 0)
  }

  lemma {:induction false} RetriesAppend(rows: seq<Row>, rows': seq<Row>, p: nat)
    requires |rows| <= |rows'| && forall i :: 0 <= i < |rows| ==> rows'[i].parent == rows[i].parent
    ensures RetriesOf(rows, p) <= RetriesOf(rows', p)
    ensures (forall i :: |rows| <= i < |rows'| ==> rows'[i].parent != Some(p)) ==>
      RetriesOf(rows, p) == RetriesOf(rows', p)
    ensures (exists i :: |rows| <= i < |rows'| && rows'[i].parent == Some(p)) ==>
      RetriesOf(rows, p) < RetriesOf(rows', p)
    decreases |rows'|
  {
    if |rows| < |rows'| {
      RetriesAppend(rows, rows'[..|rows'| - 1], p);
    } else if rows != [] {
      RetriesAppend(rows[..|rows| - 1], rows'[..|rows'| - 1], p);
    }
  }

  lemma {:induction false} SomeRetry(rows: seq<Row>, p: nat)
    ensures RetriesOf(rows, p) > 0 ==> exists c :: 0 <= c < |rows| && rows[c].parent == Some(p)
  {
    if rows != [] && rows[|rows| - 1].parent != Some(p) {
      SomeRetry(rows[..|rows| - 1], p);
      if RetriesOf(rows, p) > 0 {
        var c :| 0 <= c < |rows| - 1 && rows[..|rows| - 1][c].parent == Some(p);
        assert rows[c].parent == Some(p);
      }
    }
  }

  // ---- what is not exposed stays so ----------------------------------------

  lemma ExpireRemains(s: State, a: Action, p: nat)
    requires Inv(s) && p < |s.rows|
    ensures RemainsStep(s, StepExpire(s, a), p)
  {
    hide Inv, FindLive, WithStatus, RemainsStep;
    if a.ExpireRetry? {
      RetryRemains(s, a, p);
    } else {
      hide StepExpire;
      TurnRemains(s, a, p);
    }
  }

  /** What an expiry's step does to the remainder it has of order `p`. */
  predicate RemainsStep(s: State, s': State, p: nat)
    requires p < |s.rows|
  {
    && p < |s'.rows| && Unfilled(s'.rows[p]) == Unfilled(s.rows[p])
    && (p in Unfinished(s'.expire) ==>
          || (p in Unfinished(s.expire) && Remains(s', p) == Remains(s, p))
          || (s.rows[p].status == Open && Remains(s', p) == Unfilled(s.rows[p])))
    && (forall i :: |s.rows| <= i < |s'.rows| && s'.rows[i].parent == Some(p) ==>
          p in Unfinished(s.expire) && Remains(s, p) > 0)
  }

  lemma RetryRemains(s: State, a: Action, p: nat)
    requires Inv(s) && p < |s.rows| && a.ExpireRetry?
    ensures RemainsStep(s, StepExpire(s, a), p)
  {
    hide RowsOk, PlacingOk, CancelsOk, SyncOk, SnapshotOk, ChildrenOk, FindLive, WithStatus, Listed;
    var e := s.expire;
    if e.StaleWritten? { Head(s.rows, e.id, e.ids); }
  }

  lemma TurnRemains(s: State, a: Action, p: nat)
    requires p < |s.rows| && !a.ExpireRetry?
    ensures RemainsStep(s, StepExpire(s, a), p)
  {
    hide FindLive, WithStatus, Unfinished;
    TurnKeepsUnfilled(s, a, p);
    TurnUnfinished(s, a, p);
  }

  lemma TurnKeepsUnfilled(s: State, a: Action, p: nat)
    requires p < |s.rows| && !a.ExpireRetry?
    ensures |StepExpire(s, a).rows| == |s.rows| && Unfilled(StepExpire(s, a).rows[p]) == Unfilled(s.rows[p])
  {
    hide FindLive, WithStatus;
  }

  /** Outside the listing of open orders, a turn takes up no new order. */
  lemma TurnUnfinished(s: State, a: Action, p: nat)
    requires p < |s.rows| && !a.ExpireRetry?
    ensures p in Unfinished(StepExpire(s, a).expire) ==>
      && !StepExpire(s, a).expire.Idle?
      && (p in Unfinished(s.expire) || (s.rows[p].status == Open && StepExpire(s, a).expire.StaleList?))
  {
    hide FindLive, WithStatus, Settle;
    var e := s.expire;
    if e.StaleList? && e.ids != [] { assert [e.ids[0]] + e.ids[1..] == e.ids; }
    if a.ExpireList? { OpenListed(s.rows, p); }
  }

  lemma OpenListed(rows: seq<Row>, p: nat)
    ensures p in WithStatus(rows, Open) ==> p < |rows| && rows[p].status == Open
  {
  }

  lemma WritingStays(s: State, a: Action, p: nat)
    requires Inv(s) && p < |s.rows| && s.rows[p].status.AfterOpen()
    ensures KeepsWriting(s, Step(s, a), p)
  {
    hide StepPlacing, StepExpire, Inv, KeepsWriting;
    PlacingKeepsWriting(s, a, p);
    ExpireKeepsWriting(s, a, p);
    OthersKeepWriting(s, a, p);
  }

  predicate KeepsWriting(s: State, s': State, p: nat) {
    p in s'.placing && s'.placing[p].Writing? ==> p in s.placing && s'.placing[p] == s.placing[p]
  }

  lemma PlacingKeepsWriting(s: State, a: Action, p: nat)
    requires Inv(s) && p < |s.rows| && s.rows[p].status.AfterOpen()
    ensures KeepsWriting(s, StepPlacing(s, a), p)
  {
    hide Inv, FindLive;
    OwnTask(s, p);
    hide Owns;
  }

  lemma ExpireKeepsWriting(s: State, a: Action, p: nat)
    requires p < |s.rows|
    ensures KeepsWriting(s, StepExpire(s, a), p)
  {
    hide FindLive, WithStatus;
  }

  lemma OthersKeepWriting(s: State, a: Action, p: nat)
    ensures KeepsWriting(s, StepCancel(s, a), p) && KeepsWriting(s, StepSync(s, a), p)
    ensures a.BrokerMove? ==> KeepsWriting(s, Step(s, a), p)
  {
    hide FindLive, WithStatus, Matched;
  }

  lemma RewriteExposure(s: State, a: Action, p: nat)
    requires Inv(s) && p < |s.rows| && !Exposed(s, p) && Rewrites(s, a) && a.id == p
    ensures !Exposed(Step(s, a), p) && |Step(s, a).rows| == |s.rows|
  {
    hide Inv, Step;
    RewriteKeeps(s, a);
    RewriteShape(s, a);
  }

  lemma OtherExposure(s: State, a: Action, p: nat)
    requires Inv(s) && p < |s.rows| && s.rows[p].status.AfterOpen() && !Exposed(s, p)
    requires !(Rewrites(s, a) && a.id == p)
    ensures p < |Step(s, a).rows| && !Exposed(Step(s, a), p)
  {
    hide Inv, Step, Reopens, Forgets;
    var s' := Step(s, a);
    StepAges(s, a, p);
    assert !(Reopens(s, a) && a.id == p) && !(Forgets(s, a) && a.id == p) by { NoRewriteNoHarm(s, a); }
    WritingStays(s, a, p);
    StepLists(s, a);
    if s' == StepExpire(s, a) {
      ExpireRemains(s, a, p);
    } else {
      Elsewhere(s, a);
    }
  }

  lemma NoRewriteNoHarm(s: State, a: Action)
    ensures Reopens(s, a) || Forgets(s, a) ==> Rewrites(s, a)
  {
  }

  /** An order that is not exposed gets no retry from a step and stays unexposed. */
  lemma UnexposedStays(s: State, a: Action, p: nat)
    requires Inv(s) && p < |s.rows| && s.rows[p].status.AfterOpen() && !Exposed(s, p)
    ensures var s' := Step(s, a);
      && p < |s'.rows| && s'.rows[p].status.AfterOpen() && !Exposed(s', p)
      && RetriesOf(s'.rows, p) == RetriesOf(s.rows, p)
  {
    hide Inv, Step, Unfinished;
    var s' := Step(s, a);
    StepAges(s, a, p);
    if Rewrites(s, a) && a.id == p {
      RewriteExposure(s, a, p);
    } else {
      OtherExposure(s, a, p);
    }
    StepLists(s, a);
    assert forall i :: |s.rows| <= i < |s'.rows| ==> s'.rows[i].parent != Some(p) by {
      if s' == StepExpire(s, a) {
        ExpireRemains(s, a, p);
      } else {
        Elsewhere(s, a);
      }
    }
    RetriesAppend(s.rows, s'.rows, p);
  }

  lemma {:induction false} NeverAgain(s: State, more: seq<Action>, p: nat)
    requires Inv(s) && p < |s.rows| && s.rows[p].status.AfterOpen() && !Exposed(s, p)
    ensures RetriesOf(Then(s, more).rows, p) == RetriesOf(s.rows, p)
    decreases |more|
  {
    hide Inv, Step, Exposed;
    if more != [] {
      UnexposedStays(s, more[0], p);
      StepKeeps(s, more[0]);
      NeverAgain(Step(s, more[0]), more[1..], p);
    }
  }

  // ---- what is exposed can be retried --------------------------------------

  predicate RetriedBy(s: State, more: seq<Action>, p: nat) {
    RetriesOf(s.rows, p) < RetriesOf(Then(s, more).rows, p)
  }

  ghost predicate CanRetry(s: State, p: nat) {
    exists more :: RetriedBy(s, more, p)
  }

  /** If a step leads to where it can be retried, it can. */
  lemma LeadsTo(s: State, a: Action, p: nat)
    requires Inv(s) && CanRetry(Step(s, a), p)
    ensures CanRetry(s, p)
  {
    hide Inv, Step, Unfinished;
    var more :| RetriedBy(Step(s, a), more, p);
    StepLists(s, a);
    RetriesAppend(s.rows, Step(s, a).rows, p);
    OneMore(s, a, more);
    assert RetriedBy(s, [a] + more, p);
  }

  /** The expiry holds `p` and has its cancel confirmed. */
  lemma FromWritten(s: State, p: nat)
    requires Inv(s) && p < |s.rows| && RetryEligible(s.rows[p])
    requires s.expire.StaleWritten? && s.expire.id == p && s.expire.left > 0
    ensures CanRetry(s, p)
  {
    hide Inv;
    var a := ExpireRetry(true, true);
    RetriesAppend(s.rows, Step(s, a).rows, p);
    assert Step(s, a).rows[|s.rows|].parent == Some(p);
    hide Step;
    OneMore(s, a, []);
    assert [a] + [] == [a];
    assert RetriedBy(s, [a], p);
  }

  lemma FromRead(s: State, p: nat)
    requires Inv(s) && p < |s.rows| && RetryEligible(s.rows[p])
    requires s.expire.StaleRead? && s.expire.id == p && s.expire.left > 0
    ensures CanRetry(s, p)
  {
    hide Inv, CanRetry;
    StepKeeps(s, ExpireWrite);
    FromWritten(Step(s, ExpireWrite), p);
    LeadsTo(s, ExpireWrite, p);
  }

  lemma FromConfirmed(s: State, p: nat)
    requires Inv(s) && p < |s.rows| && RetryEligible(s.rows[p]) && Unfilled(s.rows[p]) > 0
    requires s.expire.StaleConfirmed? && s.expire.id == p
    ensures CanRetry(s, p)
  {
    hide Inv, CanRetry;
    StepKeeps(s, ExpireRefresh);
    FromRead(Step(s, ExpireRefresh), p);
    LeadsTo(s, ExpireRefresh, p);
  }

  lemma FromAsked(s: State, p: nat)
    requires Inv(s) && p < |s.rows| && RetryEligible(s.rows[p]) && Unfilled(s.rows[p]) > 0
    requires s.expire.StaleAsked? && s.expire.id == p
    ensures CanRetry(s, p)
  {
    hide Inv, CanRetry;
    StepKeeps(s, ExpireAnswer(true));
    FromConfirmed(Step(s, ExpireAnswer(true)), p);
    LeadsTo(s, ExpireAnswer(true), p);
  }

  lemma {:induction false} FromList(s: State, p: nat)
    requires Inv(s) && p < |s.rows| && RetryEligible(s.rows[p]) && Unfilled(s.rows[p]) > 0
    requires s.expire.StaleList? && p in s.expire.ids
    ensures CanRetry(s, p)
    decreases if s.expire.StaleList? then |s.expire.ids| else 0
  {
    hide Inv, CanRetry;
    if s.expire.ids[0] == p {
      StepKeeps(s, ExpireAsk);
      FromAsked(Step(s, ExpireAsk), p);
      LeadsTo(s, ExpireAsk, p);
    } else {
      StepKeeps(s, ExpireSkip);
      FromList(Step(s, ExpireSkip), p);
      LeadsTo(s, ExpireSkip, p);
    }
  }

  predicate Holding(s: State, id: nat, p: nat) {
    && p < |s.rows| && id < |s.rows| && id != p
    && RetryEligible(s.rows[p]) && Unfilled(s.rows[p]) > 0
    && (s.expire.StaleAsked? || s.expire.StaleConfirmed? || s.expire.StaleRead? || s.expire.StaleWritten?)
    && s.expire.id == id && p in s.expire.ids
  }

  function LetGo(e: Expiring): Action {
    match e
    case StaleAsked(_, _) => ExpireAnswer(false)
    case StaleConfirmed(_, _) => ExpireRefresh
    case StaleRead(_, _, _) => ExpireWrite
    case _ => ExpireRetry(false, false)
  }

  function Distance(e: Expiring): nat {
    match e
    case StaleConfirmed(_, _) => 3
    case StaleRead(_, _, _) => 2
    case StaleWritten(_, _, _) => 1
    case StaleAsked(_, _) => 1
    case _ => 0
  }

  lemma LetGoStep(s: State, id: nat, p: nat)
    requires Holding(s, id, p)
    ensures var s' := Step(s, LetGo(s.expire));
      && p < |s'.rows| && RetryEligible(s'.rows[p]) && Unfilled(s'.rows[p]) > 0
      && if Distance(s.expire) == 1 then s'.expire.StaleList? && p in s'.expire.ids
         else Holding(s', id, p) && Distance(s'.expire) == Distance(s.expire) - 1
  {
    hide StepPlacing, StepCancel, StepSync, BookMoves, FindLive, WithStatus;
  }

  /** The expiry holds another order; it is done with that one first. */
  lemma {:induction false} FromOther(s: State, id: nat, p: nat)
    requires Inv(s) && Holding(s, id, p)
    ensures CanRetry(s, p)
    decreases Distance(s.expire)
  {
    hide Inv, CanRetry, Step, Holding;
    var a := LetGo(s.expire);
    LetGoStep(s, id, p);
    StepKeeps(s, a);
    if Distance(s.expire) == 1 {
      FromList(Step(s, a), p);
    } else {
      FromOther(Step(s, a), id, p);
    }
    LeadsTo(s, a, p);
  }

  /** The expiry is still verifying; its reads fail, and it lists the open orders. */
  lemma {:induction false} FromVerifying(s: State, p: nat)
    requires Inv(s) && p < |s.rows| && RetryEligible(s.rows[p]) && Unfilled(s.rows[p]) > 0
    requires s.rows[p].status == Open && s.expire.VerifyList?
    ensures CanRetry(s, p)
    decreases if s.expire.VerifyList? then |s.expire.ids| else 0
  {
    hide Inv, CanRetry, FindLive;
    if s.expire.ids == [] {
      StepKeeps(s, ExpireList);
      FromList(Step(s, ExpireList), p);
      LeadsTo(s, ExpireList, p);
    } else {
      StepKeeps(s, ExpireVerifyRead(false));
      FromVerifying(Step(s, ExpireVerifyRead(false)), p);
      LeadsTo(s, ExpireVerifyRead(false), p);
    }
  }

  lemma FromOpen(s: State, p: nat)
    requires Inv(s) && p < |s.rows| && RetryEligible(s.rows[p]) && Unfilled(s.rows[p]) > 0 && s.rows[p].status == Open
    ensures CanRetry(s, p)
  {
    hide Inv, CanRetry;
    var idle := Step(s, ExpireEnd);
    StepKeeps(s, ExpireEnd);
    StepKeeps(idle, ExpireStart);
    FromVerifying(Step(idle, ExpireStart), p);
    LeadsTo(idle, ExpireStart, p);
    LeadsTo(s, ExpireEnd, p);
  }

  lemma FromWriting(s: State, p: nat)
    requires Inv(s) && p < |s.rows| && RetryEligible(s.rows[p])
    requires p in s.placing && s.placing[p].Writing? && s.placing[p].filled.GetOr(0) < s.rows[p].qty
    ensures CanRetry(s, p)
  {
    hide Inv, CanRetry;
    StepKeeps(s, WriteOpen(p, Written));
    FromOpen(Step(s, WriteOpen(p, Written)), p);
    LeadsTo(s, WriteOpen(p, Written), p);
  }

  /** Some continuation retries an exposed order. */
  lemma ExposedRetries(s: State, p: nat)
    requires Inv(s) && p < |s.rows| && RetryEligible(s.rows[p]) && Exposed(s, p)
    ensures CanRetry(s, p)
  {
    hide CanRetry, RowsOk, PlacingOk, CancelsOk, SyncOk, SnapshotOk, ChildrenOk, Listed;
    if s.rows[p].status == Open && Unfilled(s.rows[p]) > 0 {
      FromOpen(s, p);
    } else if p in s.placing && s.placing[p].Writing? && s.placing[p].filled.GetOr(0) < s.rows[p].qty {
      FromWriting(s, p);
    } else if s.expire.StaleList? {
      FromList(s, p);
    } else if s.expire.id != p {
      assert s.expire.id in [s.expire.id] + s.expire.ids;
      FromOther(s, s.expire.id, p);
    } else {
      match s.expire
      case StaleAsked(_, _) => FromAsked(s, p);
      case StaleConfirmed(_, _) => FromConfirmed(s, p);
      case StaleRead(_, _, _) => FromRead(s, p);
      case StaleWritten(_, _, _) => FromWritten(s, p);
    }
  }

  // ---- over runs -----------------------------------------------------------

  /** Some continuation of the run gives order `p` a retry more than it has. */
  predicate RetriesMore(steps: seq<Action>, more: seq<Action>, p: nat) {
    RetriesOf(Run(steps).rows, p) < RetriesOf(Run(steps + more).rows, p)
  }

  /** Under every interleaving: an order that has had its retry can be retried again,
      by some continuation of the run, if and only if it is exposed. */
  lemma SecondRetryIff(steps: seq<Action>, p: nat)
    requires RetriesOf(Run(steps).rows, p) > 0
    ensures p < |Run(steps).rows|
    ensures (exists more :: RetriesMore(steps, more, p)) <==> Exposed(Run(steps), p)
  {
    hide Run, Exposed, Then, RetriesOf;
    var s := Run(steps);
    assert steps[..|steps|] == steps;
    BeforeKeeps(steps, |steps|);
    SomeRetry(s.rows, p);
    var c :| 0 <= c < |s.rows| && s.rows[c].parent == Some(p);
    assert ChildOk(s.rows, c);
    hide Inv;
    if Exposed(s, p) {
      ExposedRetries(s, p);
      var more :| RetriedBy(s, more, p);
      RunThen(steps, more);
      assert RetriesMore(steps, more, p);
    } else {
      forall more ensures !RetriesMore(steps, more, p) {
        NeverAgain(s, more, p);
        RunThen(steps, more);
      }
    }
  }
}
