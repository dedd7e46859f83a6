/** What a row says is true of the broker, or was confirmed by it: over every
    interleaved run. */
module OrderTruth {
  import opened Wrappers
  import opened OrderTypes
  import opened OrderInterleaving
  import opened OrderRuns

  // ---- who writes what -----------------------------------------------------

  /** The running sync is about to write row `i` from what it saw of its order. */
  predicate SyncWrites(s: State, a: Action, i: nat) {
    a.SyncStep? && s.sync.Applying? && s.sync.todo != [] && s.sync.todo[0].id == i
  }

  /** What the writing task must be, for each status a row may be given. */
  predicate MayWrite(s: State, a: Action, i: nat, st: Status) {
    match st
    case Pending => false
    case RejectedByRisk => a == RiskReject(i) && At(s, i, Routing)
    case PendingVerification => a == VerifyWrite(i) && At(s, i, Undecided)
    case Failed =>
      || (a == Raise(i) && At(s, i, Submitting))
      || (a == VerifyWrite(i) && At(s, i, Decided(None)))
      || (a == ExpireVerifyWrite && s.expire.VerifyDecided? && s.expire.id == i && s.expire.found.None?)
    case Open =>
      || (a.WriteOpen? && a.id == i && !a.result.NotWritten? && i in s.placing && s.placing[i].Writing?)
      || (a == VerifyWrite(i) && i in s.placing && s.placing[i].Decided? && s.placing[i].found.Some?)
      || (a == ExpireVerifyWrite && s.expire.VerifyDecided? && s.expire.id == i && s.expire.found.Some?)
    case Completed => SyncWrites(s, a, i) && s.sync.todo[0].order.status == BComplete
    case Rejected => SyncWrites(s, a, i) && s.sync.todo[0].order.status == BRejected
    case Cancelled =>
      || (SyncWrites(s, a, i) && s.sync.todo[0].order.status == BCancelled)
      || (a.CancelWrite? && a.task in s.cancelling && s.cancelling[a.task] == Confirmed(i))
    case Expired => a.ExpireWrite? && s.expire.StaleRead? && s.expire.id == i
  }

  /** A status is written only by the task that may write it. */
  lemma StatusWrittenBy(s: State, a: Action, i: nat)
    requires i < |s.rows| && i < |Step(s, a).rows| && Step(s, a).rows[i].status != s.rows[i].status
    ensures MayWrite(s, a, i, Step(s, a).rows[i].status)
  {
    hide StepPlacing, StepCancel, StepSync, StepExpire, MayWrite;
    PlacingWrittenBy(s, a, i);
    CancelWrittenBy(s, a, i);
    SyncWrittenBy(s, a, i);
    ExpireWrittenBy(s, a, i);
  }

  lemma PlacingWrittenBy(s: State, a: Action, i: nat)
    requires i < |s.rows|
    ensures i < |StepPlacing(s, a).rows|
    ensures StepPlacing(s, a).rows[i].status != s.rows[i].status ==>
      MayWrite(s, a, i, StepPlacing(s, a).rows[i].status)
  {
    hide FindLive;
  }

  lemma CancelWrittenBy(s: State, a: Action, i: nat)
    requires i < |s.rows|
    ensures i < |StepCancel(s, a).rows|
    ensures StepCancel(s, a).rows[i].status != s.rows[i].status ==>
      MayWrite(s, a, i, StepCancel(s, a).rows[i].status)
  {
  }

  lemma SyncWrittenBy(s: State, a: Action, i: nat)
    requires i < |s.rows|
    ensures i < |StepSync(s, a).rows|
    ensures StepSync(s, a).rows[i].status != s.rows[i].status ==>
      MayWrite(s, a, i, StepSync(s, a).rows[i].status)
  {
    hide Matched, WithStatus;
  }

  lemma ExpireWrittenBy(s: State, a: Action, i: nat)
    requires i < |s.rows|
    ensures i < |StepExpire(s, a).rows|
    ensures StepExpire(s, a).rows[i].status != s.rows[i].status ==>
      MayWrite(s, a, i, StepExpire(s, a).rows[i].status)
  {
    hide FindLive, WithStatus;
  }

  // ---- what starts when ----------------------------------------------------

  /** Under every interleaving a cancel starts exactly for a resting order; a sync
      only while the lock is free, with exactly the resting orders; an expiry only
      while none is running, with exactly the orders of unknown outcome, and it goes
      on to exactly those that rest when it has verified them all. */
  lemma StartsWhen(steps: seq<Action>, task: nat, id: nat)
    ensures var s := Run(steps);
      && (Step(s, CancelStart(task, id)) != s <==>
          task !in s.cancelling && id < |s.rows| && s.rows[id].status == Open)
      && (Step(s, CancelStart(task, id)) != s ==>
          Step(s, CancelStart(task, id)) == s.(cancelling := s.cancelling[task := Asking(id)]))
      && (!s.sync.Unlocked? ==> Step(s, SyncStart) == s)
      && (s.sync.Unlocked? ==> exists ids :: Lists(s, ids, Open) && Step(s, SyncStart) == s.(sync := Reading(ids)))
      && (!s.expire.Idle? ==> Step(s, ExpireStart) == s)
      && (s.expire.Idle? ==>
          exists ids :: Lists(s, ids, PendingVerification) && Step(s, ExpireStart) == s.(expire := VerifyList(ids)))
      && (s.expire == VerifyList([]) ==>
          exists ids :: Lists(s, ids, Open) && Step(s, ExpireList) == s.(expire := StaleList(ids)))
  {
    hide Run, Inv, Step, Lists;
    var s := Run(steps);
    WholeRun(steps);
    BeforeKeeps(steps, |steps|);
    CancelStarts(s, task, id);
    SyncStarts(s);
    ExpireStarts(s);
  }

  lemma CancelStarts(s: State, task: nat, id: nat)
    requires Inv(s)
    ensures var s' := Step(s, CancelStart(task, id));
      && (s' != s <==> task !in s.cancelling && id < |s.rows| && s.rows[id].status == Open)
      && (s' != s ==> s' == s.(cancelling := s.cancelling[task := Asking(id)]))
  {
    hide RowsOk, PlacingOk, CancelsOk, SyncOk, SnapshotOk, ExpireOk, ChildrenOk;
    if id < |s.rows| { RowOkAt(s.rows, s.book, id); }
    if task !in s.cancelling { assert task in s.cancelling[task := Asking(id)]; }
  }

  lemma SyncStarts(s: State)
    ensures !s.sync.Unlocked? ==> Step(s, SyncStart) == s
    ensures s.sync.Unlocked? ==>
      exists ids :: Lists(s, ids, Open) && Step(s, SyncStart) == s.(sync := Reading(ids))
  {
    hide Lists, WithStatus;
    Listing(s, Open);
  }

  lemma ExpireStarts(s: State)
    ensures !s.expire.Idle? ==> Step(s, ExpireStart) == s
    ensures s.expire.Idle? ==>
      exists ids :: Lists(s, ids, PendingVerification) && Step(s, ExpireStart) == s.(expire := VerifyList(ids))
    ensures s.expire == VerifyList([]) ==>
      exists ids :: Lists(s, ids, Open) && Step(s, ExpireList) == s.(expire := StaleList(ids))
  {
    hide Lists, WithStatus;
    Listing(s, Open);
    Listing(s, PendingVerification);
  }

  /** The ids of exactly the rows in a status, each once. */
  predicate Lists(s: State, ids: seq<nat>, st: Status) {
    && (forall i :: i in ids ==> i < |s.rows| && s.rows[i].status == st)
    && (forall i :: 0 <= i < |s.rows| && s.rows[i].status == st ==> i in ids)
    && Distinct(ids)
  }

  lemma Listing(s: State, st: Status)
    ensures Lists(s, WithStatus(s.rows, st), st)
  {
  }

  // ---- the sync writes what it saw -----------------------------------------

  /** What a sync makes of a row whose order it saw as `o`. */
  predicate WrittenAs(r: Row, r': Row, o: BrokerOrder) {
    && r' == r.(status := r'.status, filled := Some(o.filled))
    && (o.status == BOpen ==> r'.status == r.status)
    && (o.status == BComplete ==> r'.status == Completed)
    && (o.status == BCancelled ==> r'.status == Cancelled)
    && (o.status == BRejected ==> r'.status == Rejected)
  }

  lemma SyncWriteIs(s: State, i: nat)
    requires SyncWrites(s, SyncStep, i) && i < |s.rows|
    ensures var s' := Step(s, SyncStep);
      && |s'.rows| == |s.rows| && WrittenAs(s.rows[i], s'.rows[i], s.sync.todo[0].order)
      && s'.rows == s.rows[i := s'.rows[i]]
      && s'.sync == Applying(s.sync.todo[1..])
  {
  }

  /** A snapshot holds exactly the listed rows whose order is in the book, each with
      its order as the book has it. */
  lemma {:induction false} MatchedIs(rows: seq<Row>, book: Book, ids: seq<nat>, x: Seen)
    ensures x in Matched(rows, book, ids) <==>
      && x.id in ids && x.id < |rows| && rows[x.id].brokerId == Some(x.bid)
      && x.bid < |book| && book[x.bid] == x.order
  {
    if ids != [] {
      var n := |ids| - 1;
      MatchedIs(rows, book, ids[..n], x);
      assert ids == ids[..n] + [ids[n]];
    }
  }

  /** Step `m` read the broker's list for a sync, and saw x. */
  predicate Sees(s: State, a: Action, x: Seen) {
    && a == SyncRead(true) && s.sync.Reading? && x.id in s.sync.ids
    && x.id < |s.rows| && s.rows[x.id].brokerId == Some(x.bid)
    && x.bid < |s.book| && s.book[x.bid] == x.order
  }

  predicate SeesAt(steps: seq<Action>, m: nat, x: Seen)
    requires m < |steps|
  {
    Sees(Before(steps, m), steps[m], x)
  }

  predicate InSnapshot(s: State, x: Seen) {
    s.sync.Applying? && x in s.sync.todo
  }

  lemma SnapshotFromRead(s: State, a: Action, x: Seen)
    requires InSnapshot(Step(s, a), x)
    ensures InSnapshot(s, x) || Sees(s, a, x)
  {
    hide StepPlacing, StepCancel, StepExpire, Matched;
    SyncElsewhere(s, a);
    if s.sync.Reading? { MatchedIs(s.rows, s.book, s.sync.ids, x); }
  }

  lemma SyncElsewhere(s: State, a: Action)
    ensures StepPlacing(s, a).sync == s.sync && StepCancel(s, a).sync == s.sync && StepExpire(s, a).sync == s.sync
  {
    hide FindLive, WithStatus;
  }

  lemma {:induction false} SnapshotWasRead(steps: seq<Action>, n: nat, x: Seen)
    requires n <= |steps| && InSnapshot(Before(steps, n), x)
    ensures exists m :: 0 <= m < n && SeesAt(steps, m, x)
  {
    hide Step, InSnapshot, Sees, Before;
    if n == 0 {
      NoSnapshotAtStart(x);
      StartsEmpty(steps);
    } else {
      BeforeNext(steps, n - 1);
      SnapshotFromRead(Before(steps, n - 1), steps[n - 1], x);
      if InSnapshot(Before(steps, n - 1), x) {
        SnapshotWasRead(steps, n - 1, x);
      } else {
        assert SeesAt(steps, n - 1, x);
      }
    }
  }

  lemma NoSnapshotAtStart(x: Seen)
    ensures !InSnapshot(START, x)
  {
  }

  /** Under every interleaving a sync write gives its row the fill and the fate its
      order had when a list read that got through showed it, and no other row anything. */
  lemma SyncedAsRead(steps: seq<Action>, n: nat, i: nat)
    requires n < |steps| && i < |Before(steps, n).rows| && SyncWrites(Before(steps, n), steps[n], i)
    ensures var rows, rows' := Before(steps, n).rows, Before(steps, n + 1).rows;
      && |rows'| == |rows| && rows' == rows[i := rows'[i]]
      && exists m, bid, o :: 0 <= m < n && SeesAt(steps, m, Seen(i, bid, o)) && WrittenAs(rows[i], rows'[i], o)
  {
    hide Step, Before, Sees, WrittenAs;
    var s := Before(steps, n);
    BeforeNext(steps, n);
    SyncWriteIs(s, i);
    var x := s.sync.todo[0];
    SnapshotWasRead(steps, n, x);
    var m :| 0 <= m < n && SeesAt(steps, m, x);
    assert SeesAt(steps, m, Seen(i, x.bid, x.order));
  }

  // ---- what a row says of the broker is true -------------------------------

  predicate RowTrue(r: Row, b: Book) {
    r.status == Completed || r.status == Rejected ==>
      && r.brokerId.Some? && r.brokerId.value < |b|
      && b[r.brokerId.value].status == (if r.status == Completed then BComplete else BRejected)
      && r.filled == Some(b[r.brokerId.value].filled)
  }

  predicate SeenTrue(x: Seen, b: Book) {
    x.bid < |b| && x.order.Becomes(b[x.bid])
  }

  predicate RowsTrue(s: State) {
    forall i :: 0 <= i < |s.rows| ==> RowTrue(s.rows[i], s.book)
  }

  predicate SnapshotTrue(s: State) {
    s.sync.Applying? ==> forall k :: 0 <= k < |s.sync.todo| ==> SeenTrue(s.sync.todo[k], s.book)
  }

  predicate BookGrows(a: Book, b: Book) {
    |a| <= |b| && forall k :: 0 <= k < |a| ==> a[k].Becomes(b[k])
  }

  lemma StepGrows(s: State, a: Action)
    requires BookOk(s.book)
    ensures BookGrows(s.book, Step(s, a).book)
  {
    hide StepCancel, StepSync, StepExpire;
    BookElsewhere(s, a);
  }

  lemma BookElsewhere(s: State, a: Action)
    ensures StepCancel(s, a).book == s.book && StepSync(s, a).book == s.book && StepExpire(s, a).book == s.book
  {
    hide FindLive, WithStatus, Matched;
  }

  lemma SnapshotStaysTrue(s: State, a: Action)
    requires BookOk(s.book) && SnapshotTrue(s)
    ensures SnapshotTrue(Step(s, a))
  {
    hide Step, BookOk;
    var s' := Step(s, a);
    StepGrows(s, a);
    if s'.sync.Applying? {
      forall k | 0 <= k < |s'.sync.todo| ensures SeenTrue(s'.sync.todo[k], s'.book) {
        var x := s'.sync.todo[k];
        assert InSnapshot(s', x);
        SnapshotFromRead(s, a, x);
        if InSnapshot(s, x) {
          var j :| 0 <= j < |s.sync.todo| && s.sync.todo[j] == x;
          assert SeenTrue(s.sync.todo[j], s.book);
        }
        assert s.book[x.bid].Becomes(s'.book[x.bid]);
      }
    }
  }

  lemma RowStaysTrue(r: Row, b: Book, b': Book)
    requires RowTrue(r, b) && BookGrows(b, b')
    ensures RowTrue(r, b')
  {
    if r.status == Completed || r.status == Rejected {
      assert b[r.brokerId.value].Becomes(b'[r.brokerId.value]);
    }
  }

  /** A sync write from a true snapshot leaves its row true. */
  lemma SyncWriteTrue(s: State, i: nat)
    requires Inv(s) && SnapshotTrue(s) && i < |s.rows| && RowTrue(s.rows[i], s.book) && SyncWrites(s, SyncStep, i)
    ensures i < |Step(s, SyncStep).rows| && RowTrue(Step(s, SyncStep).rows[i], s.book)
  {
    hide Step, RowsOk, PlacingOk, CancelsOk, SnapshotOk, ExpireOk, ChildrenOk;
    var x := s.sync.todo[0];
    SyncWriteIs(s, i);
    assert SeenOk(s.rows, s.book, x) && SeenTrue(x, s.book);
  }

  /** Any other write keeps the row's status and fill, or gives it a status that
      says nothing of the broker's. */
  lemma OtherWriteTrue(s: State, a: Action, i: nat)
    requires Inv(s) && i < |s.rows| && RowTrue(s.rows[i], s.book) && !SyncWrites(s, a, i)
    ensures i < |Step(s, a).rows| && RowTrue(Step(s, a).rows[i], s.book)
  {
    hide Inv, Step, At;
    RowsRemain(s, a);
    if Step(s, a).rows[i].status != s.rows[i].status {
      StatusWrittenBy(s, a, i);
    } else if s.rows[i].status != Open {
      FillWrittenBy(s, a, i);
    }
  }

  lemma RowsRemain(s: State, a: Action)
    requires Inv(s)
    ensures |s.rows| <= |Step(s, a).rows|
  {
    hide Inv, Step, RowStep;
    StepKeeps(s, a);
    if Rewrites(s, a) { RewriteKeeps(s, a); }
  }

  lemma FillWrittenBy(s: State, a: Action, i: nat)
    requires Inv(s) && i < |s.rows| && i < |Step(s, a).rows| && !SyncWrites(s, a, i)
    requires Step(s, a).rows[i].status == s.rows[i].status && s.rows[i].status != Open
    ensures Step(s, a).rows[i] == s.rows[i]
  {
    hide Inv, StepPlacing, StepCancel, StepSync, StepExpire;
    FillStays(s, a, i);
    FillStaysInPlacing(s, a, i);
  }

  lemma FillStaysInPlacing(s: State, a: Action, i: nat)
    requires i < |s.rows|
    ensures i < |StepPlacing(s, a).rows|
    ensures var r := StepPlacing(s, a).rows[i];
      r.status == s.rows[i].status && s.rows[i].status != Open ==> r == s.rows[i]
  {
    hide FindLive;
  }

  lemma FillStays(s: State, a: Action, i: nat)
    requires i < |s.rows| && !SyncWrites(s, a, i)
    ensures i < |StepCancel(s, a).rows| && i < |StepSync(s, a).rows| && i < |StepExpire(s, a).rows|
    ensures
      var c, y, e := StepCancel(s, a).rows[i], StepSync(s, a).rows[i], StepExpire(s, a).rows[i];
      s.rows[i].status != Open ==>
        && (c.status == s.rows[i].status ==> c == s.rows[i])
        && (y.status == s.rows[i].status ==> y == s.rows[i])
        && (e.status == s.rows[i].status ==> e == s.rows[i])
  {
    hide Matched, WithStatus, FindLive;
  }

  lemma StepStaysTrue(s: State, a: Action)
    requires Inv(s) && RowsTrue(s) && SnapshotTrue(s)
    ensures RowsTrue(Step(s, a)) && SnapshotTrue(Step(s, a))
  {
    hide Step, RowsOk, PlacingOk, CancelsOk, SyncOk, SnapshotOk, ExpireOk, ChildrenOk, SnapshotTrue, RowTrue;
    var s' := Step(s, a);
    StepGrows(s, a);
    SnapshotStaysTrue(s, a);
    forall i | 0 <= i < |s'.rows| ensures RowTrue(s'.rows[i], s'.book) {
      if i < |s.rows| {
        if SyncWrites(s, a, i) { SyncWriteTrue(s, i); } else { OtherWriteTrue(s, a, i); }
        RowStaysTrue(s'.rows[i], s.book, s'.book);
      } else {
        NewRowTrue(s, a, i);
      }
    }
  }

  lemma NewRowTrue(s: State, a: Action, i: nat)
    requires Inv(s) && |s.rows| <= i < |Step(s, a).rows|
    ensures RowTrue(Step(s, a).rows[i], Step(s, a).book)
  {
    hide Inv, Step;
    StepKeeps(s, a);
    if Rewrites(s, a) { RewriteKeeps(s, a); }
  }

  lemma {:induction false} TrueOverRuns(steps: seq<Action>, n: nat)
    requires n <= |steps|
    ensures RowsTrue(Before(steps, n)) && SnapshotTrue(Before(steps, n))
  {
    hide Step, Inv, RowsTrue, SnapshotTrue, Before;
    if n == 0 {
      assert RowsTrue(START) && SnapshotTrue(START) by { TrueAtStart(); }
      StartsEmpty(steps);
    } else {
      TrueOverRuns(steps, n - 1);
      BeforeKeeps(steps, n - 1);
      BeforeNext(steps, n - 1);
      StepStaysTrue(Before(steps, n - 1), steps[n - 1]);
    }
  }

  lemma TrueAtStart()
    ensures RowsTrue(START) && SnapshotTrue(START)
  {
  }

  /** Under every interleaving a COMPLETED row's order is complete at the broker and
      the row holds its whole quantity; a REJECTED row's order is rejected there, and
      the row holds what it filled. */
  lemma FinishedRowsAreTrue(steps: seq<Action>, i: nat)
    requires i < |Run(steps).rows|
    ensures var s := Run(steps); var r := s.rows[i];
      && (r.status == Completed ==>
          && r.brokerId.Some? && r.brokerId.value < |s.book|
          && s.book[r.brokerId.value].tag == Some(i) && s.book[r.brokerId.value].status == BComplete
          && r.filled == Some(r.qty))
      && (r.status == Rejected ==>
          && r.brokerId.Some? && r.brokerId.value < |s.book|
          && s.book[r.brokerId.value].tag == Some(i) && s.book[r.brokerId.value].status == BRejected
          && r.filled == Some(s.book[r.brokerId.value].filled))
  {
    hide Run, Step, PlacingOk, CancelsOk, SyncOk, SnapshotOk, ExpireOk, ChildrenOk;
    var n, s := |steps|, Run(steps);
    WholeRun(steps);
    TrueOverRuns(steps, n);
    BeforeKeeps(steps, n);
    BeforeFits(steps, n);
    var r := s.rows[i];
    assert RowTrue(r, s.book) && RowOk(s.rows, s.book, i);
    if r.status == Completed { assert s.book[r.brokerId.value].Sound(); }
  }

  // ---- cancelled and expired only when confirmed ---------------------------

  /** The broker confirms the cancel of row `i`. */
  predicate Confirms(s: State, a: Action, i: nat) {
    || (a.CancelAnswer? && a.ok && a.task in s.cancelling && s.cancelling[a.task] == Asking(i))
    || (a == ExpireAnswer(true) && s.expire.StaleAsked? && s.expire.id == i)
  }

  predicate ConfirmsAt(steps: seq<Action>, m: nat, i: nat)
    requires m < |steps|
  {
    Confirms(Before(steps, m), steps[m], i)
  }

  /** Some task holds a confirmation about row `i`. */
  predicate Confirmation(s: State, i: nat) {
    || (exists t :: t in s.cancelling && s.cancelling[t] == Confirmed(i))
    || ((s.expire.StaleConfirmed? || s.expire.StaleRead? || s.expire.StaleWritten?) && s.expire.id == i)
  }

  lemma ConfirmationFrom(s: State, a: Action, i: nat)
    requires Confirmation(Step(s, a), i)
    ensures Confirmation(s, i) || Confirms(s, a, i)
  {
    hide StepPlacing, StepSync;
    ConfirmingElsewhere(s, a);
    hide WithStatus, FindLive;
  }

  lemma ConfirmingElsewhere(s: State, a: Action)
    ensures StepPlacing(s, a).cancelling == s.cancelling && StepPlacing(s, a).expire == s.expire
    ensures StepSync(s, a).cancelling == s.cancelling && StepSync(s, a).expire == s.expire
  {
    hide FindLive, Matched, WithStatus;
  }

  lemma {:induction false} ConfirmationWasGiven(steps: seq<Action>, n: nat, i: nat)
    requires n <= |steps| && Confirmation(Before(steps, n), i)
    ensures exists m :: 0 <= m < n && ConfirmsAt(steps, m, i)
  {
    hide Step, Confirmation, Confirms, Before;
    if n == 0 {
      NothingConfirmedAtStart(i);
      StartsEmpty(steps);
    } else {
      BeforeNext(steps, n - 1);
      ConfirmationFrom(Before(steps, n - 1), steps[n - 1], i);
      if Confirmation(Before(steps, n - 1), i) {
        ConfirmationWasGiven(steps, n - 1, i);
      } else {
        assert ConfirmsAt(steps, n - 1, i);
      }
    }
  }

  lemma NothingConfirmedAtStart(i: nat)
    ensures !Confirmation(START, i)
  {
  }

  ghost predicate Saw(steps: seq<Action>, m: nat, i: nat, st: BrokerStatus)
    requires m < |steps|
  {
    exists bid, o :: SeesAt(steps, m, Seen(i, bid, o)) && o.status == st
  }

  /** Under every interleaving a row becomes EXPIRED only after the broker confirmed
      a cancel of it; CANCELLED only after that or after a list read that got
      through showed its order cancelled; COMPLETED and REJECTED only after such a
      read showed it so. */
  lemma EndsOnEvidence(steps: seq<Action>, n: nat, i: nat)
    requires n < |steps| && i < |Before(steps, n).rows| && i < |Before(steps, n + 1).rows|
    requires Before(steps, n + 1).rows[i].status != Before(steps, n).rows[i].status
    ensures var st := Before(steps, n + 1).rows[i].status;
      && (st == Completed ==> exists m :: 0 <= m < n && Saw(steps, m, i, BComplete))
      && (st == Rejected ==> exists m :: 0 <= m < n && Saw(steps, m, i, BRejected))
      && (st == Cancelled ==> exists m :: 0 <= m < n && (ConfirmsAt(steps, m, i) || Saw(steps, m, i, BCancelled)))
      && (st == Expired ==> exists m :: 0 <= m < n && ConfirmsAt(steps, m, i))
  {
    hide Step, Before, Sees, Confirms, At;
    var s := Before(steps, n);
    BeforeNext(steps, n);
    StatusWrittenBy(s, steps[n], i);
    if SyncWrites(s, steps[n], i) {
      var x := s.sync.todo[0];
      SnapshotWasRead(steps, n, x);
      var m :| 0 <= m < n && SeesAt(steps, m, x);
      assert SeesAt(steps, m, Seen(i, x.bid, x.order));
      assert Saw(steps, m, i, x.order.status);
    } else if Confirmation(s, i) {
      ConfirmationWasGiven(steps, n, i);
    }
  }

  // ---- a refused order never reaches the broker ----------------------------

  /** Nothing of row `i` is at the broker or on its way. */
  predicate Unsent(s: State, i: nat) {
    i !in s.inFlight && forall k :: 0 <= k < |s.book| ==> s.book[k].tag != Some(i)
  }

  /** What has not been submitted is unsent, new ids included. */
  predicate Unsubmitted(s: State, i: nat) {
    |s.rows| <= i || At(s, i, Routing) || s.rows[i].status == RejectedByRisk ==> Unsent(s, i)
  }

  lemma UnsentStays(s: State, a: Action, i: nat)
    requires Inv(s) && Unsubmitted(s, i)
    ensures Unsubmitted(Step(s, a), i)
  {
    hide Inv, StepCancel, StepSync, StepExpire, BookMoves;
    if a.BrokerMove? {
      if BookMoves(s.book, a.book) && Unsent(s, i) { UntaggedMove(s, a.book, i); }
    } else {
      OwnTask(s, i);
      UnsentPlacing(s, a, i);
      UnsentElsewhere(s, a, i);
    }
  }

  lemma UntaggedMove(s: State, b: Book, i: nat)
    requires BookMoves(s.book, b) && Unsent(s, i)
    ensures Unsent(s.(book := b), i)
  {
    forall k | 0 <= k < |b| ensures b[k].tag != Some(i) {
      if k < |s.book| { assert s.book[k].Becomes(b[k]); }
    }
  }

  lemma UnsentPlacing(s: State, a: Action, i: nat)
    requires Unsubmitted(s, i) && (i in s.placing ==> TaskOk(s.rows, s.book, i, s.placing[i]))
    ensures Unsubmitted(StepPlacing(s, a), i)
  {
    hide FindLive;
  }

  lemma UnsentElsewhere(s: State, a: Action, i: nat)
    requires Inv(s) && Unsubmitted(s, i)
    ensures Unsubmitted(StepCancel(s, a), i) && Unsubmitted(StepSync(s, a), i) && Unsubmitted(StepExpire(s, a), i)
  {
    hide Inv, FindLive, Matched, WithStatus;
  }

  /** Under every interleaving, an order the risk check refused is never submitted:
      no order of it is at the broker or on its way. */
  lemma {:induction false} RefusedNeverSent(steps: seq<Action>, n: nat, i: nat)
    requires n <= |steps|
    ensures Unsubmitted(Before(steps, n), i)
  {
    hide Step, Inv, Unsubmitted, Before;
    if n == 0 {
      StartsEmpty(steps);
      assert Unsubmitted(START, i) by { NothingSentAtStart(i); }
    } else {
      RefusedNeverSent(steps, n - 1, i);
      BeforeKeeps(steps, n - 1);
      BeforeNext(steps, n - 1);
      UnsentStays(Before(steps, n - 1), steps[n - 1], i);
    }
  }

  lemma NothingSentAtStart(i: nat)
    ensures Unsubmitted(START, i)
  {
  }
}
