/** The capital ledger under every interleaving of the order manager's tasks.

    A task that writes a row calls the ledger only after further awaits, so each
    write leaves a call due, and due calls are performed in any order, any time
    later, or never: the audit context may be missing, or the task may die. */
module InterleavedLedger {
  import opened Wrappers
  import opened OrderTypes
  import opened OrderInterleaving
  import Serial = OrderConservation

  datatype Due = Reserve(strategy: string, amount: nat) | Release(strategy: string, amount: nat)

  datatype Books = Books(s: State, deployed: map<string, nat>, due: seq<Due>)

  const EMPTY := Books(START, map[], [])

  datatype Move = Act(a: Action) | Perform(k: nat) | Drop(k: nat)

  // ---- the moves -----------------------------------------------------------

  function ReserveDue(r: Row): seq<Due> {
    if Reserves(r.side, r.ctx) then [Reserve(r.ctx.strategy.value, r.qty)] else []
  }

  function ReleaseDue(r: Row, amount: nat): seq<Due> {
    if Reserves(r.side, r.ctx) then [Release(r.ctx.strategy.value, amount)] else []
  }

  /** What the task that acts owes the ledger for the row it writes. */
  function DueOf(s: State, a: Action): seq<Due> {
    match a
    case WriteOpen(id, result) =>
      if id < |s.rows| && id in s.placing && s.placing[id].Writing? && !result.NotWritten?
        && !s.rows[id].status.AfterOpen()
      then ReserveDue(s.rows[id]) else []
    case VerifyWrite(id) =>
      if id < |s.rows| && id in s.placing && s.placing[id].Decided? && s.placing[id].found.Some?
      then ReserveDue(s.rows[id]) else []
    case ExpireVerifyWrite =>
      if s.expire.VerifyDecided? && s.expire.id < |s.rows| && s.expire.found.Some?
      then ReserveDue(s.rows[s.expire.id]) else []
    case SyncStep =>
      if s.sync.Applying? && s.sync.todo != [] && s.sync.todo[0].id < |s.rows|
      then
        var x := s.sync.todo[0];
        var r := Reconciled(s.rows[x.id], x.order);
        if x.order.status.BCancelled? || x.order.status.BRejected? then ReleaseDue(r, Unfilled(r)) else []
      else []
    case CancelWrite(task) =>
      if task in s.cancelling && s.cancelling[task].Confirmed? && s.cancelling[task].id < |s.rows|
      then
        var r := s.rows[s.cancelling[task].id];
        ReleaseDue(r, Unfilled(r))
      else []
    case ExpireWrite =>
      if s.expire.StaleRead? && s.expire.id < |s.rows| then ReleaseDue(s.rows[s.expire.id], s.expire.left) else []
    case _ => []
  }

  function DeployedOf(deployed: map<string, nat>, s: string): nat {
    if s in deployed then deployed[s] else 0
  }

  /** The ledger never goes below zero. */
  function Performed(deployed: map<string, nat>, d: Due): map<string, nat> {
    var now := DeployedOf(deployed, d.strategy);
    match d
    case Reserve(s, q) => deployed[s := now + q]
    case Release(s, q) => deployed[s := if now < q then 0 else now - q]
  }

  function Without(due: seq<Due>, k: nat): seq<Due>
    requires k < |due|
  {
    due[..k] + due[k + 1..]
  }

  function Next(w: Books, m: Move): Books {
    match m
    case Act(a) => Books(Step(w.s, a), w.deployed, w.due + DueOf(w.s, a))
    case Perform(k) =>
      if k < |w.due| then Books(w.s, Performed(w.deployed, w.due[k]), Without(w.due, k)) else w
    case Drop(k) =>
      if k < |w.due| then w.(due := Without(w.due, k)) else w
  }

  function Run(ms: seq<Move>): Books {
    if ms == [] then EMPTY else Next(Run(ms[..|ms| - 1]), ms[|ms| - 1])
  }

  // ---- what balances -------------------------------------------------------

  function Effect(d: Due, s: string): int {
    var q: int := d.amount;
    if d.strategy != s then 0 else if d.Reserve? then q else -q
  }

  function Owed(due: seq<Due>, s: string): int {
    if due == [] then 0 else Owed(due[..|due| - 1], s) + Effect(due[|due| - 1], s)
  }

  /** Once the calls that are due are made, the reservations of every strategy are
      what its rows commit. */
  ghost predicate Balanced(w: Books) {
    forall s: string :: DeployedOf(w.deployed, s) + Owed(w.due, s) == Serial.Committed(w.s.rows, s)
  }

  // ---- what spoils it ------------------------------------------------------

  /** The order ended unfilled or partly filled. */
  predicate CutShort(r: Row) {
    r.status in {Cancelled, Rejected, Expired}
  }

  /** Its unfilled part has been given back. */
  predicate Returned(r: Row) {
    Reserves(r.side, r.ctx) && CutShort(r) && Unfilled(r) > 0
  }

  /** A write that gives back, or takes up again, a remainder that was given back
      already; a fill that becomes known only after the remainder was; or an
      expiry that gives back another remainder than the row shows. */
  predicate SpoilsRow(s: State, a: Action) {
    match a
    case WriteOpen(id, _) => Rewrites(s, a) && Returned(s.rows[id])
    case SyncStep =>
      && s.sync.Applying? && s.sync.todo != [] && s.sync.todo[0].id < |s.rows|
      && (var x := s.sync.todo[0];
          var r := s.rows[x.id];
          if x.order.status.BOpen?
          then Reserves(r.side, r.ctx) && CutShort(r) && r.filled.GetOr(0) < x.order.filled
          else Returned(r))
    case CancelWrite(task) =>
      && task in s.cancelling && s.cancelling[task].Confirmed? && s.cancelling[task].id < |s.rows|
      && Returned(s.rows[s.cancelling[task].id])
    case ExpireWrite =>
      && s.expire.StaleRead? && s.expire.id < |s.rows|
      && (var r := s.rows[s.expire.id];
          Reserves(r.side, r.ctx) && s.expire.left != if CutShort(r) then 0 else Unfilled(r))
    case _ => false
  }

  /** Besides those writes: a release that finds less than it gives back, and a
      call that is never made. */
  predicate Spoils(w: Books, m: Move) {
    match m
    case Act(a) => SpoilsRow(w.s, a)
    case Perform(k) =>
      k < |w.due| && w.due[k].Release? && DeployedOf(w.deployed, w.due[k].strategy) < w.due[k].amount
    case Drop(k) => k < |w.due| && w.due[k].amount > 0
  }

  // ---- one write at a time -------------------------------------------------

  /** The write of `a` moved what the rows commit by what it leaves due. */
  ghost predicate Even(s: State, a: Action) {
    forall str: string ::
      Serial.Committed(Step(s, a).rows, str) - Serial.Committed(s.rows, str) == Owed(DueOf(s, a), str)
  }

  lemma OwedOne(d: Due, str: string)
    ensures Owed([d], str) == Effect(d, str) && Owed([], str) == 0
  {
    assert [d][..0] == [];
  }

  /** Row `i` became `r` and `due` was left. */
  ghost predicate EvenRow(before: Row, r: Row, due: seq<Due>) {
    forall str: string :: Serial.Stake(r, str) - Serial.Stake(before, str) == Owed(due, str)
  }

  lemma EvenByRow(s: State, a: Action, i: nat)
    requires i < |s.rows| == |Step(s, a).rows| && Step(s, a).rows == s.rows[i := Step(s, a).rows[i]]
    ensures Even(s, a) <==> EvenRow(s.rows[i], Step(s, a).rows[i], DueOf(s, a))
  {
    hide Step, DueOf, Owed;
    var r := Step(s, a).rows[i];
    forall str: string ensures Serial.Committed(Step(s, a).rows, str) - Serial.Committed(s.rows, str)
      == Serial.Stake(r, str) - Serial.Stake(s.rows[i], str)
    {
      Serial.CommittedUpdate(s.rows, i, r, str);
    }
    if Even(s, a) {
      forall str: string ensures Serial.Stake(r, str) - Serial.Stake(s.rows[i], str) == Owed(DueOf(s, a), str) {
        assert Serial.Committed(Step(s, a).rows, str) - Serial.Committed(s.rows, str) == Owed(DueOf(s, a), str);
      }
    }
  }

  /** What a reserving row commits of its own strategy. */
  lemma StakeOf(r: Row, str: string)
    ensures Reserves(r.side, r.ctx) && r.ctx.strategy == Some(str) ==>
      Serial.Stake(r, str) ==
        if r.status == Open || r.status == Completed then r.qty else if CutShort(r) then r.filled.GetOr(0) else 0
    ensures !Reserves(r.side, r.ctx) || r.ctx.strategy != Some(str) ==> Serial.Stake(r, str) == 0
  {
  }

  /** A row that reserves nothing, or leaves nothing due and stays committed as it
      was, or leaves exactly the difference due. */
  lemma EvenRowIff(before: Row, r: Row, due: seq<Due>, amount: int)
    requires r.side == before.side && r.ctx == before.ctx && r.qty == before.qty
    requires !Reserves(before.side, before.ctx) ==> due == []
    requires Reserves(before.side, before.ctx) ==>
      var str := before.ctx.strategy.value;
      || (due == [] && amount == 0)
      || (amount >= 0 && due == [Reserve(str, amount)])
      || (amount <= 0 && due == [Release(str, -amount)])
    ensures EvenRow(before, r, due) <==>
      (Reserves(before.side, before.ctx) ==>
        var str := before.ctx.strategy.value; Serial.Stake(r, str) - Serial.Stake(before, str) == amount)
  {
    forall str: string ensures
      !Reserves(before.side, before.ctx) || before.ctx.strategy != Some(str) ==>
        Serial.Stake(r, str) - Serial.Stake(before, str) == Owed(due, str) == 0
    {
      StakeOf(r, str);
      StakeOf(before, str);
      if due != [] { OwedOne(due[0], str); }
    }
    if Reserves(before.side, before.ctx) {
      var str := before.ctx.strategy.value;
      if due != [] { OwedOne(due[0], str); }
      assert Owed(due, str) == amount;
    }
  }

  // ---- every action, one by one --------------------------------------------

  lemma OpenWriteEven(s: State, a: Action)
    requires Inv(s) && Fits(s) && (a.WriteOpen? || a.VerifyWrite?) && Step(s, a) != s
    ensures Even(s, a) <==> !SpoilsRow(s, a)
  {
    hide Even, EvenRow, Serial.Stake, RowsOk, CancelsOk, SyncOk, SnapshotOk, ExpireOk, ChildrenOk;
    hide StepCancel, StepSync, StepExpire, BookMoves, Fits;
    var i := a.id;
    assert TaskOk(s.rows, s.book, i, s.placing[i]);
    RowFits(s, i);
    EvenByRow(s, a, i);
    var r, r' := s.rows[i], Step(s, a).rows[i];
    EvenRowIff(r, r', DueOf(s, a), if DueOf(s, a) == [] then 0 else r.qty);
    if Reserves(r.side, r.ctx) {
      StakeOf(r, r.ctx.strategy.value);
      StakeOf(r', r.ctx.strategy.value);
    }
  }

  lemma VerifyWriteEven(s: State)
    requires Inv(s) && Step(s, ExpireVerifyWrite) != s
    ensures Even(s, ExpireVerifyWrite)
  {
    hide Even, EvenRow, Serial.Stake;
    var i := s.expire.id;
    assert s.rows[i].status == PendingVerification by { Head(s.rows, i, s.expire.ids); }
    EvenByRow(s, ExpireVerifyWrite, i);
    var r, r', due := s.rows[i], Step(s, ExpireVerifyWrite).rows[i], DueOf(s, ExpireVerifyWrite);
    EvenRowIff(r, r', due, if due == [] then 0 else r.qty);
    if Reserves(r.side, r.ctx) {
      StakeOf(r, r.ctx.strategy.value);
      StakeOf(r', r.ctx.strategy.value);
    }
  }

  lemma SyncWriteEven(s: State)
    requires Inv(s) && Fits(s) && s.sync.Applying? && s.sync.todo != []
    ensures Even(s, SyncStep) <==> !SpoilsRow(s, SyncStep)
  {
    hide Even, EvenRow, Serial.Stake;
    var x := s.sync.todo[0];
    assert SeenOk(s.rows, s.book, x);
    assert s.book[x.bid].Sound();
    assert RowOk(s.rows, s.book, x.id);
    RowFits(s, x.id);
    EvenByRow(s, SyncStep, x.id);
    var r, r', due := s.rows[x.id], Step(s, SyncStep).rows[x.id], DueOf(s, SyncStep);
    assert r' == Reconciled(r, x.order) && x.order.filled <= r.qty;
    EvenRowIff(r, r', due, if due == [] then 0 else -(Unfilled(r') as int));
    if Reserves(r.side, r.ctx) {
      StakeOf(r, r.ctx.strategy.value);
      StakeOf(r', r.ctx.strategy.value);
    }
  }

  lemma CancelWriteEven(s: State, task: nat)
    requires Inv(s) && Fits(s) && task in s.cancelling && s.cancelling[task].Confirmed?
    ensures Even(s, CancelWrite(task)) <==> !SpoilsRow(s, CancelWrite(task))
  {
    hide Even, EvenRow, Serial.Stake;
    var i := s.cancelling[task].id;
    RowFits(s, i);
    EvenByRow(s, CancelWrite(task), i);
    var r, r', due := s.rows[i], Step(s, CancelWrite(task)).rows[i], DueOf(s, CancelWrite(task));
    EvenRowIff(r, r', due, if due == [] then 0 else -(Unfilled(r) as int));
    if Reserves(r.side, r.ctx) {
      StakeOf(r, r.ctx.strategy.value);
      StakeOf(r', r.ctx.strategy.value);
    }
  }

  lemma ExpireWriteEven(s: State)
    requires Inv(s) && Fits(s) && s.expire.StaleRead?
    ensures Even(s, ExpireWrite) <==> !SpoilsRow(s, ExpireWrite)
  {
    hide Even, EvenRow, Serial.Stake;
    var i := s.expire.id;
    Head(s.rows, i, s.expire.ids);
    RowFits(s, i);
    EvenByRow(s, ExpireWrite, i);
    var r, r', due := s.rows[i], Step(s, ExpireWrite).rows[i], DueOf(s, ExpireWrite);
    EvenRowIff(r, r', due, if due == [] then 0 else -(s.expire.left as int));
    if Reserves(r.side, r.ctx) {
      StakeOf(r, r.ctx.strategy.value);
      StakeOf(r', r.ctx.strategy.value);
    }
  }

  /** Rows that are refused, fail, stay unknown or are new commit nothing. */
  lemma UncommittedEven(s: State, a: Action, i: nat)
    requires i < |s.rows| == |Step(s, a).rows| && Step(s, a).rows == s.rows[i := Step(s, a).rows[i]]
    requires !s.rows[i].status.AfterOpen() && !Step(s, a).rows[i].status.AfterOpen() && DueOf(s, a) == []
    ensures Even(s, a)
  {
    hide Step, DueOf;
    EvenByRow(s, a, i);
  }

  lemma NewRowEven(s: State, a: Action)
    requires |Step(s, a).rows| == |s.rows| + 1 && Step(s, a).rows[..|s.rows|] == s.rows
    requires Step(s, a).rows[|s.rows|].status == Pending && DueOf(s, a) == []
    ensures Even(s, a)
  {
    hide Step, DueOf;
    var r := Step(s, a).rows[|s.rows|];
    assert Step(s, a).rows == s.rows + [r];
    forall str: string ensures Serial.Committed(Step(s, a).rows, str) == Serial.Committed(s.rows, str) {
      Serial.CommittedAppend(s.rows, r, str);
    }
  }

  lemma SameRowsEven(s: State, a: Action)
    requires Step(s, a).rows == s.rows && DueOf(s, a) == []
    ensures Even(s, a)
  {
    hide Step, DueOf;
  }

  predicate Settles(a: Action) {
    a.WriteOpen? || a.VerifyWrite? || a.ExpireVerifyWrite? || a.SyncStep? || a.CancelWrite? || a.ExpireWrite?
  }

  lemma OtherEven(s: State, a: Action)
    requires Inv(s) && !Settles(a)
    ensures Even(s, a)
  {
    hide Even, FindLive, Matched, WithStatus;
    if a.RiskReject? || a.Raise? {
      OwnTaskPending(s, a.id);
      if Step(s, a) == s { SameRowsEven(s, a); } else { UncommittedEven(s, a, a.id); }
    } else if |Step(s, a).rows| > |s.rows| {
      NewRowEven(s, a);
    } else {
      SameRowsEven(s, a);
    }
  }

  lemma OwnTaskPending(s: State, i: nat)
    requires Inv(s)
    ensures i in s.placing && !s.placing[i].Writing? ==> i < |s.rows| && s.rows[i].status == Pending
  {
    assert i in s.placing ==> TaskOk(s.rows, s.book, i, s.placing[i]);
  }

  /** An action keeps books and commitments in step if and only if its write spoils
      no row. */
  lemma ActEven(s: State, a: Action)
    requires Inv(s) && Fits(s)
    ensures Even(s, a) <==> !SpoilsRow(s, a)
  {
    hide Inv, Fits, Even, Step;
    if !Settles(a) {
      OtherEven(s, a);
    } else {
      SettlingEven(s, a);
    }
  }

  lemma Idles(s: State, a: Action)
    requires Inv(s) && Settles(a) && Step(s, a) == s
    ensures DueOf(s, a) == [] && !SpoilsRow(s, a)
  {
  }

  lemma SettlingEven(s: State, a: Action)
    requires Inv(s) && Fits(s) && Settles(a)
    ensures Even(s, a) <==> !SpoilsRow(s, a)
  {
    hide Inv, Fits, Even, SpoilsRow, DueOf;
    if Step(s, a) == s {
      Idles(s, a);
      SameRowsEven(s, a);
    } else {
      match a {
        case WriteOpen(_, _) => OpenWriteEven(s, a);
        case VerifyWrite(_) => OpenWriteEven(s, a);
        case ExpireVerifyWrite =>
          VerifyWriteEven(s);
          assert !SpoilsRow(s, a) by { VerifySpoilsNothing(s); }
        case SyncStep => SyncWriteEven(s);
        case CancelWrite(task) => CancelWriteEven(s, task);
        case ExpireWrite => ExpireWriteEven(s);
      }
    }
  }

  lemma VerifySpoilsNothing(s: State)
    ensures !SpoilsRow(s, ExpireVerifyWrite)
  {
  }

  // ---- calls on the ledger -------------------------------------------------

  lemma {:induction false} OwedConcat(a: seq<Due>, b: seq<Due>, str: string)
    ensures Owed(a + b, str) == Owed(a, str) + Owed(b, str)
  {
    if b == [] {
      assert a + b == a;
    } else {
      var n := |b| - 1;
      assert (a + b)[..|a + b| - 1] == a + b[..n];
      OwedConcat(a, b[..n], str);
    }
  }

  lemma OwedWithout(due: seq<Due>, k: nat, str: string)
    requires k < |due|
    ensures Owed(Without(due, k), str) == Owed(due, str) - Effect(due[k], str)
  {
    OwedConcat(due[..k], due[k + 1..], str);
    OwedConcat(due[..k] + [due[k]], due[k + 1..], str);
    OwedConcat(due[..k], [due[k]], str);
    OwedOne(due[k], str);
    assert due[..k] + [due[k]] == due[..k + 1];
    assert due == due[..k + 1] + due[k + 1..];
  }

  lemma NextBalanced(w: Books, m: Move)
    requires Inv(w.s) && Fits(w.s) && Balanced(w)
    ensures Balanced(Next(w, m)) <==> !Spoils(w, m)
  {
    hide Inv, Fits, Step, SpoilsRow;
    match m
    case Act(a) =>
      ActEven(w.s, a);
      ActBalanced(w, a);
    case Perform(k) =>
      if k < |w.due| { PerformBalanced(w, k); }
    case Drop(k) =>
      if k < |w.due| { DropBalanced(w, k); }
  }

  lemma ActBalanced(w: Books, a: Action)
    requires Balanced(w)
    ensures Balanced(Next(w, Act(a))) <==> Even(w.s, a)
  {
    hide Step, DueOf;
    forall str: string ensures Owed(w.due + DueOf(w.s, a), str) == Owed(w.due, str) + Owed(DueOf(w.s, a), str) {
      OwedConcat(w.due, DueOf(w.s, a), str);
    }
    var v := Next(w, Act(a));
    if Balanced(v) {
      forall str: string
        ensures Serial.Committed(v.s.rows, str) - Serial.Committed(w.s.rows, str) == Owed(DueOf(w.s, a), str)
      {
        assert DeployedOf(v.deployed, str) + Owed(v.due, str) == Serial.Committed(v.s.rows, str);
        assert DeployedOf(w.deployed, str) + Owed(w.due, str) == Serial.Committed(w.s.rows, str);
      }
    }
    if Even(w.s, a) {
      forall str: string ensures DeployedOf(v.deployed, str) + Owed(v.due, str) == Serial.Committed(v.s.rows, str) {
        assert Serial.Committed(v.s.rows, str) - Serial.Committed(w.s.rows, str) == Owed(DueOf(w.s, a), str);
      }
    }
  }

  lemma PerformBalanced(w: Books, k: nat)
    requires Balanced(w) && k < |w.due|
    ensures Balanced(Next(w, Perform(k))) <==> !Spoils(w, Perform(k))
  {
    hide Serial.Committed, Owed, Without;
    var d, v := w.due[k], Next(w, Perform(k));
    forall str: string ensures Owed(v.due, str) == Owed(w.due, str) - Effect(d, str) {
      OwedWithout(w.due, k, str);
    }
    if Balanced(v) {
      assert DeployedOf(v.deployed, d.strategy) + Owed(v.due, d.strategy) == Serial.Committed(v.s.rows, d.strategy);
      assert DeployedOf(w.deployed, d.strategy) + Owed(w.due, d.strategy) == Serial.Committed(w.s.rows, d.strategy);
    }
  }

  lemma DropBalanced(w: Books, k: nat)
    requires Balanced(w) && k < |w.due|
    ensures Balanced(Next(w, Drop(k))) <==> !Spoils(w, Drop(k))
  {
    hide Serial.Committed, Owed, Without;
    var d, v := w.due[k], Next(w, Drop(k));
    forall str: string ensures Owed(v.due, str) == Owed(w.due, str) - Effect(d, str) {
      OwedWithout(w.due, k, str);
    }
    if Balanced(v) {
      assert DeployedOf(v.deployed, d.strategy) + Owed(v.due, d.strategy) == Serial.Committed(v.s.rows, d.strategy);
      assert DeployedOf(w.deployed, d.strategy) + Owed(w.due, d.strategy) == Serial.Committed(w.s.rows, d.strategy);
    }
  }

  // ---- over runs -----------------------------------------------------------

  function Before(ms: seq<Move>, n: nat): Books
    requires n <= |ms|
  {
    Run(ms[..n])
  }

  lemma BeforeNext(ms: seq<Move>, n: nat)
    requires n < |ms|
    ensures Before(ms, n + 1) == Next(Before(ms, n), ms[n])
  {
    hide Next;
    assert ms[..n + 1][..n] == ms[..n];
  }

  lemma {:induction false} BeforeOk(ms: seq<Move>, n: nat)
    requires n <= |ms|
    ensures Inv(Before(ms, n).s) && Fits(Before(ms, n).s)
  {
    hide Inv, Fits, Step, Before;
    if n == 0 {
      StartOk(ms);
    } else {
      BeforeOk(ms, n - 1);
      BeforeNext(ms, n - 1);
      if ms[n - 1].Act? {
        StepKeeps(Before(ms, n - 1).s, ms[n - 1].a);
        FitsKept(Before(ms, n - 1).s, ms[n - 1].a);
      }
    }
  }

  lemma StartOk(ms: seq<Move>)
    ensures Before(ms, 0) == EMPTY && Inv(EMPTY.s) && Fits(EMPTY.s) && Balanced(EMPTY)
  {
  }

  ghost predicate BalancedAt(ms: seq<Move>, n: nat)
    requires n <= |ms|
  {
    Balanced(Before(ms, n))
  }

  predicate SpoilsAt(ms: seq<Move>, n: nat)
    requires n < |ms|
  {
    Spoils(Before(ms, n), ms[n])
  }

  /** Under every interleaving, every order of the ledger calls and every answer of
      the broker: reservations and commitments agree at every point, calls still
      due included, if and only if no move spoils them. */
  lemma {:induction false} BalancedOverRuns(ms: seq<Move>, n: nat)
    requires n <= |ms|
    ensures (forall k :: 0 <= k <= n ==> BalancedAt(ms, k)) <==> (forall k :: 0 <= k < n ==> !SpoilsAt(ms, k))
  {
    hide Before, Balanced, Spoils, Inv, Fits, Next;
    if n == 0 {
      StartOk(ms);
      assert BalancedAt(ms, 0);
    } else {
      BalancedOverRuns(ms, n - 1);
      BeforeOk(ms, n - 1);
      BeforeNext(ms, n - 1);
      var balanced, spoilt := BalancedAt(ms, n), SpoilsAt(ms, n - 1);
      if BalancedAt(ms, n - 1) {
        NextBalanced(Before(ms, n - 1), ms[n - 1]);
      }
    }
  }

  /** With no call due, that is the ledger itself. */
  lemma SettledBooks(w: Books, str: string)
    requires Balanced(w) && w.due == []
    ensures DeployedOf(w.deployed, str) == Serial.Committed(w.s.rows, str)
  {
    hide Serial.Committed;
    assert Owed(w.due, str) == 0;
  }

  /** While the books balance, a release finds too little only if it overtakes a
      reservation of its strategy that is still due. */
  lemma {:induction false} OnlyOvertakingFallsShort(w: Books, k: nat)
    requires Balanced(w) && Spoils(w, Perform(k))
    ensures exists j ::
      0 <= j < |w.due| && w.due[j].Reserve? && w.due[j].strategy == w.due[k].strategy && w.due[j].amount > 0
  {
    hide Serial.Committed;
    var str := w.due[k].strategy;
    OwedWithout(w.due, k, str);
    if forall j :: 0 <= j < |w.due| && w.due[j].Reserve? && w.due[j].strategy == str ==> w.due[j].amount == 0 {
      OwedAtMostZero(Without(w.due, k), str);
    }
  }

  lemma {:induction false} OwedAtMostZero(due: seq<Due>, str: string)
    requires forall j :: 0 <= j < |due| && due[j].Reserve? && due[j].strategy == str ==> due[j].amount == 0
    ensures Owed(due, str) <= 0
  {
    if due != [] { OwedAtMostZero(due[..|due| - 1], str); }
  }
}
