/** The same order manager with its tasks interleaved at every await.

    Any number of place_order and cancel_order tasks, one expiry, one sync body
    behind its lock, submission threads that outlive their caller, and a broker
    that moves at will. A task's stored snapshot is what it read when it read it.
    Where a caller awaits sync_orders(), this machine lets the sync body run at
    any time or not at all, so it has every run of the program and more. */
module OrderInterleaving {
  import opened Wrappers
  import opened OrderTypes

  /** A place_order call between two awaits, once its row exists. */
  datatype Placing =
    | Routing
    | Submitting
    | Acked(bid: nat)
    | Writing(wbid: nat, filled: Option<nat>)
    | Verifying
    | Decided(found: Option<nat>)
    | Undecided

  datatype Cancelling = Asking(id: nat) | Confirmed(id: nat)

  datatype Seen = Seen(id: nat, bid: nat, order: BrokerOrder)

  datatype Syncing =
    | Unlocked
    | Reading(ids: seq<nat>)
    | Applying(todo: seq<Seen>)

  datatype Expiring =
    | Idle
    | VerifyList(ids: seq<nat>)
    | VerifyDecided(id: nat, found: Option<nat>, ids: seq<nat>)
    | StaleList(ids: seq<nat>)
    | StaleAsked(id: nat, ids: seq<nat>)
    | StaleConfirmed(id: nat, ids: seq<nat>)
    | StaleRead(id: nat, left: nat, ids: seq<nat>)
    | StaleWritten(id: nat, left: nat, ids: seq<nat>)

  datatype State = State(
    rows: seq<Row>, book: Book, inFlight: set<nat>,
    placing: map<nat, Placing>, cancelling: map<nat, Cancelling>,
    sync: Syncing, expire: Expiring)

  const START := State([], [], {}, map[], map[], Unlocked, Idle)

  datatype WriteResult = Written | NotWritten | WrittenButRaised

  datatype Action =
    | Create(symbol: string, side: Side, qty: nat, ctx: Context, audited: bool)
    | RiskReject(id: nat)
    | Submit(id: nat)
    | Lands(id: nat, order: BrokerOrder)
    | ThreadEnds(id: nat)
    | Ack(id: nat, bid: nat)
    | Raise(id: nat)
    | Timeout(id: nat)
    | ReadFill(id: nat, ok: bool)
    | WriteOpen(id: nat, result: WriteResult)
    | VerifyRead(id: nat, ok: bool)
    | VerifyWrite(id: nat)
    | Abandon(id: nat)
    | CancelStart(task: nat, id: nat)
    | CancelAnswer(task: nat, ok: bool)
    | CancelWrite(task: nat)
    | SyncStart
    | SyncRead(ok: bool)
    | SyncStep
    | SyncEnd
    | ExpireStart
    | ExpireVerifyRead(ok: bool)
    | ExpireVerifyWrite
    | ExpireList
    | ExpireSkip
    | ExpireAsk
    | ExpireAnswer(ok: bool)
    | ExpireRefresh
    | ExpireWrite
    | ExpireRetry(found: bool, audited: bool)
    | ExpireEnd
    | BrokerMove(book: Book)

  // ---- steps ---------------------------------------------------------------

  predicate Distinct(ids: seq<nat>) {
    forall j, k :: 0 <= j < k < |ids| ==> ids[j] != ids[k]
  }

  function SetRow(s: State, id: nat, r: Row): State
    requires id < |s.rows|
  {
    s.(rows := s.rows[id := r])
  }

  function MarkOpen(r: Row, bid: nat, filled: Option<nat>): Row {
    r.(status := Open, brokerId := Some(bid), filled := filled)
  }

  function EndPlacing(s: State, id: nat): State {
    s.(placing := s.placing - {id})
  }

  function NewRow(s: State, r: Row): State {
    s.(rows := s.rows + [r], placing := s.placing[|s.rows| := Routing])
  }

  /** The rows of a sync snapshot the broker's list has an order for. */
  function Matched(rows: seq<Row>, book: Book, ids: seq<nat>): seq<Seen> {
    if ids == [] then []
    else
      var n := |ids| - 1;
      var rest := Matched(rows, book, ids[..n]);
      if ids[n] < |rows| && rows[ids[n]].brokerId.Some? && rows[ids[n]].brokerId.value < |book|
      then rest + [Seen(ids[n], rows[ids[n]].brokerId.value, book[rows[ids[n]].brokerId.value])]
      else rest
  }

  /** The write of one reconciled row; the snapshot said OPEN. */
  function Reconciled(r: Row, b: BrokerOrder): Row {
    var seen := MapBrokerStatus(b.status);
    r.(status := if seen != Open then seen else r.status, filled := Some(b.filled))
  }

  predicate At(s: State, id: nat, p: Placing) {
    id < |s.rows| && id in s.placing && s.placing[id] == p
  }

  predicate BookMoves(a: Book, b: Book) {
    && |a| <= |b|
    && (forall k :: 0 <= k < |a| ==> a[k].Becomes(b[k]))
    && (forall k :: |a| <= k < |b| ==> b[k].tag.None? && b[k].Sound())
  }

  /** The verdict of a successful look at the broker's list. */
  function Settle(s: State, id: nat, found: Option<nat>, filled: Option<nat>): State
    requires id < |s.rows|
  {
    SetRow(s, id, if found.Some? then MarkOpen(s.rows[id], found.value, filled) else s.rows[id].(status := Failed))
  }

  function StepPlacing(s: State, a: Action): State {
    match a
    case Create(symbol, side, qty, ctx, audited) =>
      if ctx.isRetry then s
      else NewRow(s, Row(symbol, side, qty, Pending, None, None, 0, ctx, audited, None))
    case RiskReject(id) =>
      if At(s, id, Routing)
      then EndPlacing(SetRow(s, id, s.rows[id].(status := RejectedByRisk)), id) else s
    case Submit(id) =>
      if At(s, id, Routing)
      then s.(placing := s.placing[id := Submitting], inFlight := s.inFlight + {id}) else s
    case Lands(id, order) =>
      if id in s.inFlight && order.tag == Some(id) && order.Sound() && id < |s.rows| && order.qty == s.rows[id].qty
      then s.(book := s.book + [order]) else s
    case ThreadEnds(id) => s.(inFlight := s.inFlight - {id})
    case Ack(id, bid) =>
      if At(s, id, Submitting) && bid < |s.book| && s.book[bid].tag == Some(id)
      then s.(placing := s.placing[id := Acked(bid)], inFlight := s.inFlight - {id}) else s
    case Raise(id) =>
      if At(s, id, Submitting)
      then EndPlacing(SetRow(s, id, s.rows[id].(status := Failed)), id) else s
    case Timeout(id) =>
      if At(s, id, Submitting) then s.(placing := s.placing[id := Verifying]) else s
    case ReadFill(id, ok) =>
      if id < |s.rows| && id in s.placing && s.placing[id].Acked? && s.placing[id].bid < |s.book|
      then
        var bid := s.placing[id].bid;
        s.(placing := s.placing[id := Writing(bid, if ok then Some(s.book[bid].filled) else None)])
      else s
    case WriteOpen(id, result) =>
      if id < |s.rows| && id in s.placing && s.placing[id].Writing?
      then
        var p := s.placing[id];
        var s' := SetRow(s, id, MarkOpen(s.rows[id], p.wbid, p.filled));
        match result
          case Written => EndPlacing(s', id)
          case NotWritten => s
          case WrittenButRaised => s'
      else s
    case VerifyRead(id, ok) =>
      if At(s, id, Verifying)
      then s.(placing := s.placing[id := if ok then Decided(FindLive(s.book, id)) else Undecided]) else s
    case VerifyWrite(id) =>
      if id < |s.rows| && id in s.placing && s.placing[id].Decided?
      then EndPlacing(Settle(s, id, s.placing[id].found, None), id)
      else if At(s, id, Undecided)
      then EndPlacing(SetRow(s, id, s.rows[id].(status := PendingVerification)), id)
      else s
    case Abandon(id) => EndPlacing(s, id)
    case _ => s
  }

  function StepCancel(s: State, a: Action): State {
    match a
    case CancelStart(task, id) =>
      if task !in s.cancelling && id < |s.rows| && s.rows[id].brokerId.Some?
        && s.rows[id].status !in {Completed, Cancelled, Rejected, Failed, Expired}
      then s.(cancelling := s.cancelling[task := Asking(id)]) else s
    case CancelAnswer(task, ok) =>
      if task in s.cancelling && s.cancelling[task].Asking?
      then
        if ok then s.(cancelling := s.cancelling[task := Confirmed(s.cancelling[task].id)])
        else s.(cancelling := s.cancelling - {task})
      else s
    case CancelWrite(task) =>
      if task in s.cancelling && s.cancelling[task].Confirmed? && s.cancelling[task].id < |s.rows|
      then
        var id := s.cancelling[task].id;
        SetRow(s, id, s.rows[id].(status := Cancelled)).(cancelling := s.cancelling - {task})
      else s
    case _ => s
  }

  function StepSync(s: State, a: Action): State {
    match a
    case SyncStart =>
      if s.sync.Unlocked? then s.(sync := Reading(WithStatus(s.rows, Open))) else s
    case SyncRead(ok) =>
      if s.sync.Reading?
      then s.(sync := if ok then Applying(Matched(s.rows, s.book, s.sync.ids)) else Unlocked) else s
    case SyncStep =>
      if s.sync.Applying? && s.sync.todo != [] && s.sync.todo[0].id < |s.rows|
      then
        var x := s.sync.todo[0];
        SetRow(s, x.id, Reconciled(s.rows[x.id], x.order)).(sync := Applying(s.sync.todo[1..]))
      else s
    case SyncEnd => s.(sync := Unlocked)
    case _ => s
  }

  function StepExpire(s: State, a: Action): State {
    match a
    case ExpireStart =>
      if s.expire.Idle? then s.(expire := VerifyList(WithStatus(s.rows, PendingVerification))) else s
    case ExpireVerifyRead(ok) =>
      if s.expire.VerifyList? && s.expire.ids != []
      then
        var id := s.expire.ids[0];
        s.(expire := if ok then VerifyDecided(id, FindLive(s.book, id), s.expire.ids[1..])
                     else VerifyList(s.expire.ids[1..]))
      else s
    case ExpireVerifyWrite =>
      if s.expire.VerifyDecided? && s.expire.id < |s.rows|
      then Settle(s, s.expire.id, s.expire.found, s.rows[s.expire.id].filled).(expire := VerifyList(s.expire.ids))
      else s
    case ExpireList =>
      if s.expire.VerifyList? && s.expire.ids == [] then s.(expire := StaleList(WithStatus(s.rows, Open))) else s
    case ExpireSkip =>
      if s.expire.StaleList? && s.expire.ids != [] then s.(expire := StaleList(s.expire.ids[1..])) else s
    case ExpireAsk =>
      if s.expire.StaleList? && s.expire.ids != []
      then s.(expire := StaleAsked(s.expire.ids[0], s.expire.ids[1..])) else s
    case ExpireAnswer(ok) =>
      if s.expire.StaleAsked?
      then s.(expire := if ok then StaleConfirmed(s.expire.id, s.expire.ids) else StaleList(s.expire.ids)) else s
    case ExpireRefresh =>
      if s.expire.StaleConfirmed? && s.expire.id < |s.rows|
      then s.(expire := StaleRead(s.expire.id, Unfilled(s.rows[s.expire.id]), s.expire.ids)) else s
    case ExpireWrite =>
      if s.expire.StaleRead? && s.expire.id < |s.rows|
      then
        var e := s.expire;
        SetRow(s, e.id, s.rows[e.id].(status := Expired)).(expire := StaleWritten(e.id, e.left, e.ids))
      else s
    case ExpireRetry(found, audited) =>
      if s.expire.StaleWritten? && s.expire.id < |s.rows|
      then
        var p := s.expire.id;
        var r := s.rows[p];
        var s' := s.(expire := StaleList(s.expire.ids));
        if found && s.expire.left > 0 && RetryEligible(r)
        then NewRow(s', Row(r.symbol, r.side, s.expire.left, Pending, None, None, 0,
                            Context(r.ctx.strategy, r.ctx.isExit, false, true), audited, Some(p)))
        else s'
      else s
    case ExpireEnd => s.(expire := Idle)
    case _ => s
  }

  function Step(s: State, a: Action): State {
    match a
    case BrokerMove(b) => if BookMoves(s.book, b) then s.(book := b) else s
    case CancelStart(_, _) => StepCancel(s, a)
    case CancelAnswer(_, _) => StepCancel(s, a)
    case CancelWrite(_) => StepCancel(s, a)
    case SyncStart => StepSync(s, a)
    case SyncRead(_) => StepSync(s, a)
    case SyncStep => StepSync(s, a)
    case SyncEnd => StepSync(s, a)
    case ExpireStart => StepExpire(s, a)
    case ExpireVerifyRead(_) => StepExpire(s, a)
    case ExpireVerifyWrite => StepExpire(s, a)
    case ExpireList => StepExpire(s, a)
    case ExpireSkip => StepExpire(s, a)
    case ExpireAsk => StepExpire(s, a)
    case ExpireAnswer(_) => StepExpire(s, a)
    case ExpireRefresh => StepExpire(s, a)
    case ExpireWrite => StepExpire(s, a)
    case ExpireRetry(_, _) => StepExpire(s, a)
    case ExpireEnd => StepExpire(s, a)
    case _ => StepPlacing(s, a)
  }

  // ---- what every step keeps -----------------------------------------------

  /** A broker order known to be the row's own. */
  predicate Owns(b: Book, i: nat, bid: nat) {
    bid < |b| && b[bid].tag == Some(i)
  }

  predicate RowOk(rows: seq<Row>, b: Book, i: nat)
    requires i < |rows|
  {
    var r := rows[i];
    && (r.brokerId.Some? <==> r.status.AfterOpen())
    && (r.brokerId.None? ==> r.filled.None?)
    && (r.brokerId.Some? ==> Owns(b, i, r.brokerId.value) && r.filled.GetOr(0) <= b[r.brokerId.value].filled)
  }

  predicate RowsOk(rows: seq<Row>, b: Book) {
    forall i :: 0 <= i < |rows| ==> RowOk(rows, b, i)
  }

  /** A placing task's row is PENDING, unless its OPEN write has already taken
      effect and raised: then anything may have happened to the row since. */
  predicate TaskOk(rows: seq<Row>, b: Book, i: nat, p: Placing) {
    && i < |rows|
    && (rows[i].status == Pending || (p.Writing? && rows[i].status.AfterOpen() && rows[i].brokerId == Some(p.wbid)))
    && match p
       case Acked(bid) => Owns(b, i, bid)
       case Writing(bid, filled) => Owns(b, i, bid) && filled.GetOr(0) <= b[bid].filled
       case Decided(found) => found.Some? ==> Owns(b, i, found.value)
       case _ => true
  }

  predicate PlacingOk(rows: seq<Row>, b: Book, placing: map<nat, Placing>) {
    forall i :: i in placing ==> TaskOk(rows, b, i, placing[i])
  }

  predicate CancelsOk(rows: seq<Row>, cancelling: map<nat, Cancelling>) {
    forall t :: t in cancelling ==>
      cancelling[t].id < |rows| && rows[cancelling[t].id].status.AfterOpen()
  }

  predicate Listed(rows: seq<Row>, ids: seq<nat>, st: Status) {
    Distinct(ids) && forall i :: i in ids ==> i < |rows| && rows[i].status == st
  }

  predicate ListedAfterOpen(rows: seq<Row>, ids: seq<nat>) {
    Distinct(ids) && forall i :: i in ids ==> i < |rows| && rows[i].status.AfterOpen()
  }

  predicate SeenOk(rows: seq<Row>, b: Book, x: Seen) {
    && x.id < |rows| && rows[x.id].status.AfterOpen() && rows[x.id].brokerId == Some(x.bid)
    && x.bid < |b|
    && rows[x.id].filled.GetOr(0) <= x.order.filled <= b[x.bid].filled
  }

  predicate AllSeenOk(rows: seq<Row>, b: Book, todo: seq<Seen>) {
    && (forall k :: 0 <= k < |todo| ==> SeenOk(rows, b, todo[k]))
    && (forall j, k :: 0 <= j < k < |todo| ==> todo[j].id != todo[k].id)
  }

  predicate SyncOk(rows: seq<Row>, b: Book, sync: Syncing) {
    match sync
    case Unlocked => true
    case Reading(ids) => ListedAfterOpen(rows, ids)
    case Applying(todo) => AllSeenOk(rows, b, todo)
  }

  /** The orders the running expiry still has to verify. */
  function Unverified(e: Expiring): seq<nat> {
    match e
    case VerifyList(ids) => ids
    case VerifyDecided(id, _, ids) => [id] + ids
    case _ => []
  }

  /** The open orders the running expiry has not finished with. */
  function Unfinished(e: Expiring): seq<nat> {
    match e
    case StaleList(ids) => ids
    case StaleAsked(id, ids) => [id] + ids
    case StaleConfirmed(id, ids) => [id] + ids
    case StaleRead(id, _, ids) => [id] + ids
    case StaleWritten(id, _, ids) => [id] + ids
    case _ => []
  }

  predicate ExpireOk(rows: seq<Row>, b: Book, e: Expiring) {
    && Listed(rows, Unverified(e), PendingVerification)
    && ListedAfterOpen(rows, Unfinished(e))
    && (e.VerifyDecided? && e.found.Some? ==> Owns(b, e.id, e.found.value))
    && ((e.StaleRead? || e.StaleWritten?) && e.id < |rows| ==> e.left <= rows[e.id].qty)
  }

  /** The sync's snapshot of an order is no older than the fill its placing task
      is still to write. */
  predicate NotBehind(placing: map<nat, Placing>, x: Seen) {
    x.id in placing && placing[x.id].Writing? ==> placing[x.id].filled.GetOr(0) <= x.order.filled
  }

  predicate SnapshotOk(placing: map<nat, Placing>, sync: Syncing) {
    sync.Applying? ==> forall k :: 0 <= k < |sync.todo| ==> NotBehind(placing, sync.todo[k])
  }

  predicate ChildOk(rows: seq<Row>, c: nat)
    requires c < |rows|
  {
    && (rows[c].ctx.isRetry <==> rows[c].parent.Some?)
    && (rows[c].parent.Some? ==>
          var p := rows[c].parent.value;
          p < c && RetryEligible(rows[p]) && rows[p].status.AfterOpen() && Heir(rows[p], rows[c]))
  }

  predicate ChildrenOk(rows: seq<Row>) {
    forall c :: 0 <= c < |rows| ==> ChildOk(rows, c)
  }

  predicate BookOk(b: Book) {
    forall k :: 0 <= k < |b| ==> b[k].Sound()
  }

  predicate Inv(s: State) {
    && BookOk(s.book) && RowsOk(s.rows, s.book)
    && PlacingOk(s.rows, s.book, s.placing) && CancelsOk(s.rows, s.cancelling)
    && SyncOk(s.rows, s.book, s.sync) && SnapshotOk(s.placing, s.sync)
    && ExpireOk(s.rows, s.book, s.expire) && ChildrenOk(s.rows)
  }

  // ---- the lifecycle graph -------------------------------------------------

  predicate Edge(a: Status, b: Status) {
    || a == b
    || (a == Pending && b in {RejectedByRisk, PendingVerification, Open, Failed})
    || (a == PendingVerification && b in {Open, Failed})
    || (a.AfterOpen() && b in {Completed, Cancelled, Rejected, Expired})
  }

  /** One step of one row: along the graph, and its fill is never forgotten. */
  predicate RowStep(r: Row, r': Row) {
    && r' == r.(status := r'.status, brokerId := r'.brokerId, filled := r'.filled)
    && Edge(r.status, r'.status)
    && (r.status.AfterOpen() ==> r'.brokerId == r.brokerId && r.filled.GetOr(0) <= r'.filled.GetOr(0))
  }

  predicate Steps(s: State, s': State) {
    && |s.rows| <= |s'.rows|
    && (forall i :: 0 <= i < |s.rows| ==> RowStep(s.rows[i], s'.rows[i]))
    && (forall i :: |s.rows| <= i < |s'.rows| ==> s'.rows[i].status == Pending)
  }

  /** The OPEN write takes effect on a row it had already opened: the write before
      it took effect too, and raised. */
  predicate Rewrites(s: State, a: Action) {
    && a.WriteOpen? && !a.result.NotWritten?
    && a.id < |s.rows| && a.id in s.placing && s.placing[a.id].Writing?
    && s.rows[a.id].status.AfterOpen()
  }

  lemma ChildrenKept(s: State, s': State)
    requires ChildrenOk(s.rows) && |s.rows| == |s'.rows|
    requires forall i :: 0 <= i < |s.rows| ==> RowStep(s.rows[i], s'.rows[i])
    ensures ChildrenOk(s'.rows)
  {
    forall c | 0 <= c < |s.rows| ensures ChildOk(s'.rows, c) {
      assert ChildOk(s.rows, c) && RowStep(s.rows[c], s'.rows[c]);
      if s.rows[c].parent.Some? {
        var p := s.rows[c].parent.value;
        assert RowStep(s.rows[p], s'.rows[p]);
      }
    }
  }

  /** A write to a row that has been OPEN disturbs no other task's view. */
  lemma LateWriteKeeps(s: State, s': State, i: nat)
    requires Inv(s) && i < |s.rows| && s.rows[i].status.AfterOpen()
    requires |s'.rows| == |s.rows| && s' == s.(rows := s.rows[i := s'.rows[i]])
    requires RowStep(s.rows[i], s'.rows[i]) && RowOk(s'.rows, s'.book, i)
    requires s'.rows[i].filled == s.rows[i].filled
      || !s.sync.Applying? || (forall k :: 0 <= k < |s.sync.todo| ==> s.sync.todo[k].id != i)
    ensures Inv(s') && Steps(s, s')
  {
    forall j | 0 <= j < |s.rows| ensures RowOk(s'.rows, s'.book, j) && RowStep(s.rows[j], s'.rows[j]) {
      assert RowOk(s.rows, s.book, j);
    }
    forall j | j in s'.placing ensures TaskOk(s'.rows, s'.book, j, s'.placing[j]) {
      assert TaskOk(s.rows, s.book, j, s.placing[j]);
    }
    if s.sync.Applying? {
      forall k | 0 <= k < |s.sync.todo| ensures SeenOk(s'.rows, s'.book, s.sync.todo[k]) {
        assert SeenOk(s.rows, s.book, s.sync.todo[k]);
      }
    }
    ChildrenKept(s, s');
  }

  lemma RowsStay(s: State, s': State)
    requires s'.rows == s.rows
    ensures Steps(s, s')
  {
  }

  lemma CancelStepKeeps(s: State, a: Action)
    requires Inv(s)
    ensures Inv(StepCancel(s, a)) && Steps(s, StepCancel(s, a))
  {
    hide TaskOk, AllSeenOk, ExpireOk, ChildrenOk, Steps;
    if a.CancelWrite? {
      CancelWriteKeeps(s, a.task);
    } else {
      if a.CancelStart? && a.id < |s.rows| { assert RowOk(s.rows, s.book, a.id); }
      RowsStay(s, StepCancel(s, a));
    }
  }

  lemma CancelWriteKeeps(s: State, task: nat)
    requires Inv(s)
    ensures Inv(StepCancel(s, CancelWrite(task))) && Steps(s, StepCancel(s, CancelWrite(task)))
  {
    hide TaskOk, AllSeenOk, ExpireOk, ChildrenOk;
    var s' := StepCancel(s, CancelWrite(task));
    if s' != s {
      var id := s.cancelling[task].id;
      var m := s.(rows := s'.rows);
      assert RowOk(s.rows, s.book, id) && RowOk(m.rows, m.book, id);
      LateWriteKeeps(s, m, id);
    }
  }

  lemma MatchedOk(s: State, ids: seq<nat>)
    requires RowsOk(s.rows, s.book) && PlacingOk(s.rows, s.book, s.placing) && ListedAfterOpen(s.rows, ids)
    ensures forall x :: x in Matched(s.rows, s.book, ids) ==> NotBehind(s.placing, x)
    ensures AllSeenOk(s.rows, s.book, Matched(s.rows, s.book, ids))
    ensures forall x :: x in Matched(s.rows, s.book, ids) ==> x.id in ids
  {
    if ids != [] {
      var n := |ids| - 1;
      assert ids[n] in ids && forall i :: i in ids[..n] ==> i in ids;
      assert Distinct(ids[..n]) && ids[n] !in ids[..n];
      MatchedOk(s, ids[..n]);
      assert RowOk(s.rows, s.book, ids[n]);
      assert ids[n] in s.placing ==> TaskOk(s.rows, s.book, ids[n], s.placing[ids[n]]);
    }
  }

  lemma SyncStepKeeps(s: State, a: Action)
    requires Inv(s)
    ensures Inv(StepSync(s, a)) && Steps(s, StepSync(s, a))
  {
    hide TaskOk, AllSeenOk, ExpireOk, ChildrenOk, RowsOk, Matched, Steps;
    if a.SyncStep? {
      SyncWriteKeeps(s);
    } else {
      if s.sync.Reading? { MatchedOk(s, s.sync.ids); }
      RowsStay(s, StepSync(s, a));
    }
  }

  lemma SyncWriteKeeps(s: State)
    requires Inv(s)
    ensures Inv(StepSync(s, SyncStep)) && Steps(s, StepSync(s, SyncStep))
  {
    hide TaskOk, ExpireOk, ChildrenOk;
    var s' := StepSync(s, SyncStep);
    if s' != s {
      var x := s.sync.todo[0];
      var rest := s.sync.todo[1..];
      var m := s.(sync := Applying(rest));
      assert SeenOk(s.rows, s.book, x);
      assert RowOk(s.rows, s.book, x.id) && RowOk(s'.rows, s'.book, x.id);
      assert AllSeenOk(s.rows, s.book, rest);
      LateWriteKeeps(m, s', x.id) by { hide RowOk, AllSeenOk; }
    }
  }

  lemma ExpireStepKeeps(s: State, a: Action)
    requires Inv(s)
    ensures Inv(StepExpire(s, a)) && Steps(s, StepExpire(s, a))
  {
    hide Inv, Steps, StepExpire;
    if a.ExpireVerifyWrite? {
      ExpireVerifyWriteKeeps(s);
    } else if a.ExpireWrite? {
      ExpireWriteKeeps(s);
    } else if a.ExpireRetry? {
      ExpireRetryKeeps(s, a);
    } else {
      ExpireTurnKeeps(s, a);
    }
  }

  lemma Head(rows: seq<Row>, id: nat, ids: seq<nat>)
    ensures id in [id] + ids && forall i :: i in ids ==> i in [id] + ids
    ensures Distinct([id] + ids) ==> Distinct(ids) && id !in ids
    ensures forall st :: Listed(rows, [id] + ids, st) ==> Listed(rows, ids, st)
    ensures ListedAfterOpen(rows, [id] + ids) ==> ListedAfterOpen(rows, ids)
  {
    var all := [id] + ids;
    assert all[0] == id && forall k :: 0 <= k < |ids| ==> ids[k] == all[k + 1];
  }

  lemma FreshLists(rows: seq<Row>)
    ensures Listed(rows, WithStatus(rows, PendingVerification), PendingVerification)
    ensures ListedAfterOpen(rows, WithStatus(rows, Open))
    ensures Listed(rows, [], PendingVerification) && ListedAfterOpen(rows, [])
  {
  }

  /** The expiry looks at the next order, or at nothing more. */
  lemma ExpireMoveKeeps(s: State, s': State)
    requires Inv(s) && s' == s.(expire := s'.expire) && ExpireOk(s'.rows, s'.book, s'.expire)
    ensures Inv(s') && Steps(s, s')
  {
    hide TaskOk, AllSeenOk, RowOk, ExpireOk;
    ChildrenKept(s, s');
  }

  lemma ExpireTurnKeeps(s: State, a: Action)
    requires Inv(s) && !a.ExpireVerifyWrite? && !a.ExpireWrite? && !a.ExpireRetry?
    ensures Inv(StepExpire(s, a)) && Steps(s, StepExpire(s, a))
  {
    hide RowsOk, PlacingOk, SyncOk, ChildrenOk, Listed, ListedAfterOpen, Distinct, Steps, WithStatus;
    var e := s.expire;
    FreshLists(s.rows);
    if (e.VerifyList? || e.StaleList?) && e.ids != [] {
      Head(s.rows, e.ids[0], e.ids[1..]);
      assert [e.ids[0]] + e.ids[1..] == e.ids;
    }
    if e.StaleAsked? || e.StaleConfirmed? { Head(s.rows, e.id, e.ids); }
    ExpireMoveKeeps(s, StepExpire(s, a));
  }

  lemma ExpireWriteKeeps(s: State)
    requires Inv(s)
    ensures Inv(StepExpire(s, ExpireWrite)) && Steps(s, StepExpire(s, ExpireWrite))
  {
    var s' := StepExpire(s, ExpireWrite);
    if s' != s {
      var id := s.expire.id;
      var m := s.(rows := s'.rows);
      assert ([id] + s.expire.ids)[0] == id;
      assert RowOk(s.rows, s.book, id) && RowOk(m.rows, m.book, id);
      hide RowOk, TaskOk, AllSeenOk, ChildrenOk;
      LateWriteKeeps(s, m, id);
      ExpireMoveKeeps(m, s');
    }
  }

  /** The first write that decides a row, by the task that owns the row. */
  lemma EarlyWriteKeeps(s: State, s': State, i: nat)
    requires Inv(s) && i < |s.rows| && !s.rows[i].status.AfterOpen()
    requires |s'.rows| == |s.rows|
    requires s' == s.(rows := s.rows[i := s'.rows[i]], placing := s'.placing)
    requires forall j :: j in s'.placing && j != i ==> j in s.placing && s'.placing[j] == s.placing[j]
    requires i in s'.placing ==> TaskOk(s'.rows, s'.book, i, s'.placing[i])
    requires RowStep(s.rows[i], s'.rows[i]) && RowOk(s'.rows, s'.book, i)
    requires i !in Unverified(s.expire)
    ensures Inv(s') && Steps(s, s')
  {
    forall j | 0 <= j < |s.rows| ensures RowOk(s'.rows, s'.book, j) && RowStep(s.rows[j], s'.rows[j]) {
      assert RowOk(s.rows, s.book, j);
    }
    forall j | j in s'.placing ensures TaskOk(s'.rows, s'.book, j, s'.placing[j]) {
      if j != i { assert TaskOk(s.rows, s.book, j, s.placing[j]); }
    }
    if s.sync.Applying? {
      forall k | 0 <= k < |s.sync.todo|
        ensures SeenOk(s'.rows, s'.book, s.sync.todo[k]) && NotBehind(s'.placing, s.sync.todo[k])
      {
        assert SeenOk(s.rows, s.book, s.sync.todo[k]) && NotBehind(s.placing, s.sync.todo[k]);
      }
    }
    ChildrenKept(s, s');
  }

  lemma SettledRowOk(s: State, id: nat, found: Option<nat>, filled: Option<nat>)
    requires id < |s.rows| && s.rows[id].status == PendingVerification && RowOk(s.rows, s.book, id)
    requires (found.Some? ==> Owns(s.book, id, found.value)) && filled.None?
    ensures var s' := Settle(s, id, found, filled);
      RowOk(s'.rows, s'.book, id) && RowStep(s.rows[id], s'.rows[id])
  {
  }

  lemma DecidedHead(rows: seq<Row>, b: Book, e: Expiring)
    requires ExpireOk(rows, b, e) && e.VerifyDecided?
    ensures e.id < |rows| && rows[e.id].status == PendingVerification && e.id !in e.ids
    ensures (e.found.Some? ==> Owns(b, e.id, e.found.value)) && ExpireOk(rows, b, VerifyList(e.ids))
  {
    Head(rows, e.id, e.ids);
  }

  lemma {:induction false} ExpireVerifyWriteKeeps(s: State)
    requires Inv(s)
    ensures Inv(StepExpire(s, ExpireVerifyWrite)) && Steps(s, StepExpire(s, ExpireVerifyWrite))
  {
    hide RowsOk, CancelsOk, SyncOk, SnapshotOk, ExpireOk, ChildrenOk, Steps, RowStep;
    var s' := StepExpire(s, ExpireVerifyWrite);
    if s' == s {
      RowsStay(s, s);
    } else {
      var id, ids := s.expire.id, s.expire.ids;
      var m := s.(expire := VerifyList(ids));
      DecidedHead(s.rows, s.book, s.expire);
      assert RowOk(s.rows, s.book, id) by { RowOkAt(s.rows, s.book, id); }
      SettledRowOk(s, id, s.expire.found, s.rows[id].filled);
      assert id !in s.placing by { assert id in s.placing ==> TaskOk(s.rows, s.book, id, s.placing[id]); }
      assert m.placing - {id} == m.placing;
      ExpireMoveKeeps(s, m);
      EarlyWriteKeeps(m, s', id) by { hide PlacingOk; }
      assert Steps(s, s') by { SameSteps(s, m, s'); }
    }
  }

  lemma RowOkAt(rows: seq<Row>, b: Book, i: nat)
    requires RowsOk(rows, b) && i < |rows|
    ensures RowOk(rows, b, i)
  {
  }

  lemma SameSteps(s: State, m: State, s': State)
    requires s.rows == m.rows && Steps(m, s')
    ensures Steps(s, s')
  {
  }

  /** A fresh PENDING row with its own task. */
  lemma NewRowKeeps(s: State, r: Row)
    requires Inv(s) && r.status == Pending && r.brokerId.None? && r.filled.None?
    requires r.ctx.isRetry ==> r.parent.Some?
    requires r.parent.Some? ==>
      var p := r.parent.value;
      p < |s.rows| && RetryEligible(s.rows[p]) && s.rows[p].status.AfterOpen() && Heir(s.rows[p], r)
    ensures Inv(NewRow(s, r)) && Steps(s, NewRow(s, r))
  {
    var s' := NewRow(s, r);
    var n := |s.rows|;
    forall j | 0 <= j < |s'.rows| ensures RowOk(s'.rows, s'.book, j) && ChildOk(s'.rows, j) {
      if j < n { assert RowOk(s.rows, s.book, j) && ChildOk(s.rows, j); }
    }
    forall j | j in s'.placing ensures TaskOk(s'.rows, s'.book, j, s'.placing[j]) {
      if j != n { assert TaskOk(s.rows, s.book, j, s.placing[j]); }
    }
    if s.sync.Applying? {
      forall k | 0 <= k < |s.sync.todo|
        ensures SeenOk(s'.rows, s'.book, s.sync.todo[k]) && NotBehind(s'.placing, s.sync.todo[k])
      {
        assert SeenOk(s.rows, s.book, s.sync.todo[k]) && NotBehind(s.placing, s.sync.todo[k]);
      }
    }
  }

  lemma ExpireRetryKeeps(s: State, a: Action)
    requires Inv(s) && a.ExpireRetry?
    ensures Inv(StepExpire(s, a)) && Steps(s, StepExpire(s, a))
  {
    var s' := StepExpire(s, a);
    if s' != s {
      var p := s.expire.id;
      var ids := s.expire.ids;
      var m := s.(expire := StaleList(ids));
      Head(s.rows, p, ids);
      ExpireMoveKeeps(s, m) by { hide TaskOk, AllSeenOk, RowOk, ChildrenOk; }
      if s' != m {
        NewRowKeeps(m, s'.rows[|s.rows|]) by { hide TaskOk, AllSeenOk, RowOk, ChildOk; }
      }
    }
  }

  /** Moving one placing task on, without touching its row. */
  lemma TaskMoveKeeps(s: State, s': State, i: nat)
    requires Inv(s) && s' == s.(placing := s'.placing, inFlight := s'.inFlight)
    requires forall j :: j in s'.placing && j != i ==> j in s.placing && s'.placing[j] == s.placing[j]
    requires i in s'.placing ==> TaskOk(s.rows, s.book, i, s'.placing[i])
    requires i in s'.placing ==> s.rows[i].status == Pending || (i in s.placing && s'.placing[i] == s.placing[i])
    ensures Inv(s') && Steps(s, s')
  {
    if s.sync.Applying? {
      forall k | 0 <= k < |s.sync.todo| ensures NotBehind(s'.placing, s.sync.todo[k]) {
        assert SeenOk(s.rows, s.book, s.sync.todo[k]) && NotBehind(s.placing, s.sync.todo[k]);
      }
    }
    hide RowOk, AllSeenOk, ExpireOk, TaskOk;
    ChildrenKept(s, s');
  }

  predicate TaskMove(a: Action) {
    a.Submit? || a.ThreadEnds? || a.Ack? || a.Timeout? || a.ReadFill? || a.VerifyRead? || a.Abandon?
  }

  predicate TaskWrite(a: Action) {
    a.RiskReject? || a.Raise? || a.WriteOpen? || a.VerifyWrite?
  }

  /** What moving a task on leaves alone, and what the task knows next. */
  lemma TaskMoveShape(s: State, a: Action)
    requires TaskMove(a)
    requires a.id in s.placing ==> TaskOk(s.rows, s.book, a.id, s.placing[a.id])
    ensures var i := a.id; var s' := StepPlacing(s, a);
      && s' == s.(placing := s'.placing, inFlight := s'.inFlight)
      && (forall j :: j in s'.placing && j != i ==> j in s.placing && s'.placing[j] == s.placing[j])
      && (i in s'.placing ==> TaskOk(s.rows, s.book, i, s'.placing[i]))
      && (i in s'.placing ==> s.rows[i].status == Pending || (i in s.placing && s'.placing[i] == s.placing[i]))
  {
  }

  lemma TaskMovesKeep(s: State, a: Action)
    requires Inv(s) && TaskMove(a)
    ensures Inv(StepPlacing(s, a)) && Steps(s, StepPlacing(s, a))
  {
    hide StepPlacing, TaskOk, Steps, RowsOk, CancelsOk, SyncOk, ExpireOk, ChildrenOk;
    TaskMoveShape(s, a);
    TaskMoveKeeps(s, StepPlacing(s, a), a.id);
  }

  /** What a deciding write does, from what its task knows. */
  lemma TaskWriteShape(s: State, a: Action)
    requires !Rewrites(s, a) && TaskWrite(a) && StepPlacing(s, a) != s
    requires a.id in s.placing ==> TaskOk(s.rows, s.book, a.id, s.placing[a.id])
    requires a.id < |s.rows| ==> RowOk(s.rows, s.book, a.id)
    ensures var i := a.id; var s' := StepPlacing(s, a);
      && i < |s.rows| == |s'.rows| && s.rows[i].status == Pending
      && s' == s.(rows := s.rows[i := s'.rows[i]], placing := s'.placing)
      && (forall j :: j in s'.placing && j != i ==> j in s.placing && s'.placing[j] == s.placing[j])
      && (i in s'.placing ==> TaskOk(s'.rows, s'.book, i, s'.placing[i]))
      && RowStep(s.rows[i], s'.rows[i]) && RowOk(s'.rows, s'.book, i)
  {
  }

  lemma TaskWritesKeep(s: State, a: Action)
    requires Inv(s) && !Rewrites(s, a) && TaskWrite(a)
    ensures Inv(StepPlacing(s, a)) && Steps(s, StepPlacing(s, a))
  {
    hide StepPlacing, TaskOk, RowOk, RowStep, Steps, CancelsOk, SyncOk, SnapshotOk, ChildrenOk;
    var s' := StepPlacing(s, a);
    if s' == s {
      RowsStay(s, s');
    } else {
      TaskWriteShape(s, a);
      EarlyWriteKeeps(s, s', a.id);
    }
  }

  lemma RewriteShape(s: State, a: Action)
    requires Rewrites(s, a)
    ensures var i, p, s' := a.id, s.placing[a.id], Step(s, a);
      && s' == s.(rows := s.rows[i := MarkOpen(s.rows[i], p.wbid, p.filled)], placing := s'.placing)
      && (forall j :: j in s'.placing ==> j in s.placing && s'.placing[j] == s.placing[j])
  {
  }

  /** A repeated OPEN write puts its row back to OPEN with the fill it has held
      since before the first, and leaves every other task's view sound. */
  lemma RewriteKeeps(s: State, a: Action)
    requires Inv(s) && Rewrites(s, a)
    ensures var p := s.placing[a.id];
      && Inv(Step(s, a))
      && Step(s, a).rows == s.rows[a.id := MarkOpen(s.rows[a.id], p.wbid, p.filled)]
      && s.rows[a.id].brokerId == Some(p.wbid)
      && Step(s, a).expire == s.expire
  {
    hide Step, RowsOk, CancelsOk, SyncOk, SnapshotOk, ExpireOk, ChildrenOk;
    var s', i := Step(s, a), a.id;
    RewriteShape(s, a);
    assert TaskOk(s.rows, s.book, i, s.placing[i]);
    RewrittenRows(s.rows, s.book, i, s.placing[i]);
    assert PlacingOk(s'.rows, s'.book, s'.placing) by {
      forall j | j in s'.placing ensures TaskOk(s'.rows, s'.book, j, s'.placing[j]) {
        assert TaskOk(s.rows, s.book, j, s.placing[j]);
      }
    }
    RewrittenViews(s, s', i);
  }

  /** The views of the other tasks, past a repeated OPEN write. */
  lemma RewrittenViews(s: State, s': State, i: nat)
    requires Inv(s) && i < |s.rows| && s.rows[i].status.AfterOpen() && i in s.placing && s.placing[i].Writing?
    requires s.rows[i].brokerId == Some(s.placing[i].wbid)
    requires s'.rows == s.rows[i := MarkOpen(s.rows[i], s.placing[i].wbid, s.placing[i].filled)] && s'.book == s.book
    requires s'.cancelling == s.cancelling && s'.sync == s.sync && s'.expire == s.expire
    requires forall j :: j in s'.placing ==> j in s.placing && s'.placing[j] == s.placing[j]
    ensures CancelsOk(s'.rows, s'.cancelling) && ExpireOk(s'.rows, s'.book, s'.expire)
    ensures SyncOk(s'.rows, s'.book, s'.sync) && SnapshotOk(s'.placing, s'.sync)
  {
    hide RowsOk, PlacingOk, ChildrenOk, BookOk;
    if s.sync.Applying? {
      forall k | 0 <= k < |s.sync.todo|
        ensures SeenOk(s'.rows, s'.book, s.sync.todo[k]) && NotBehind(s'.placing, s.sync.todo[k])
      {
        assert SeenOk(s.rows, s.book, s.sync.todo[k]) && NotBehind(s.placing, s.sync.todo[k]);
      }
    }
  }

  lemma RewrittenRows(rows: seq<Row>, b: Book, i: nat, p: Placing)
    requires RowsOk(rows, b) && ChildrenOk(rows)
    requires p.Writing? && TaskOk(rows, b, i, p) && rows[i].status.AfterOpen()
    ensures var rows' := rows[i := MarkOpen(rows[i], p.wbid, p.filled)]; RowsOk(rows', b) && ChildrenOk(rows')
  {
    var rows' := rows[i := MarkOpen(rows[i], p.wbid, p.filled)];
    forall j | 0 <= j < |rows| ensures RowOk(rows', b, j) && ChildOk(rows', j) {
      assert RowOk(rows, b, j) && ChildOk(rows, j);
    }
  }

  /** The broker moving on disturbs nobody. */
  lemma BookMoveKeeps(s: State, b: Book)
    requires Inv(s) && |s.book| <= |b|
    requires forall k :: 0 <= k < |s.book| ==> s.book[k].Becomes(b[k])
    requires forall k :: |s.book| <= k < |b| ==> b[k].Sound()
    ensures Inv(s.(book := b)) && Steps(s, s.(book := b))
  {
    var s' := s.(book := b);
    forall i: nat, bid: nat | Owns(s.book, i, bid) ensures Owns(b, i, bid) && s.book[bid].filled <= b[bid].filled {
      assert s.book[bid].Becomes(b[bid]);
    }
    forall k | 0 <= k < |b| ensures b[k].Sound() {
      if k < |s.book| { assert s.book[k].Becomes(b[k]); }
    }
    forall j | 0 <= j < |s.rows| ensures RowOk(s'.rows, s'.book, j) && RowStep(s.rows[j], s'.rows[j]) {
      assert RowOk(s.rows, s.book, j);
    }
    forall j | j in s'.placing ensures TaskOk(s'.rows, s'.book, j, s'.placing[j]) {
      assert TaskOk(s.rows, s.book, j, s.placing[j]);
    }
    if s.sync.Applying? {
      forall k | 0 <= k < |s.sync.todo| ensures SeenOk(s'.rows, s'.book, s.sync.todo[k]) {
        var x := s.sync.todo[k];
        assert SeenOk(s.rows, s.book, x) && s.book[x.bid].Becomes(b[x.bid]);
      }
    }
    ChildrenKept(s, s');
  }

  lemma PlacingStepKeeps(s: State, a: Action)
    requires Inv(s) && !Rewrites(s, a)
    ensures Inv(StepPlacing(s, a)) && Steps(s, StepPlacing(s, a))
  {
    if TaskMove(a) {
      TaskMovesKeep(s, a);
    } else if TaskWrite(a) {
      TaskWritesKeep(s, a);
    } else if StepPlacing(s, a) == s {
      RowsStay(s, s);
    } else if a.Create? {
      NewRowKeeps(s, Row(a.symbol, a.side, a.qty, Pending, None, None, 0, a.ctx, a.audited, None))
        by { hide RowsOk, PlacingOk, SyncOk, ExpireOk, ChildrenOk; }
    } else {
      BookMoveKeeps(s, StepPlacing(s, a).book) by { hide RowsOk, PlacingOk, SyncOk, SnapshotOk, ExpireOk, ChildrenOk; }
    }
  }

  /** Every step of every task and of the broker keeps the invariant, and moves
      every row along the lifecycle graph, a repeated OPEN write apart. */
  lemma StepKeeps(s: State, a: Action)
    requires Inv(s)
    ensures Inv(Step(s, a))
    ensures Rewrites(s, a) || Steps(s, Step(s, a))
  {
    hide Inv, Steps, StepPlacing, StepCancel, StepSync, StepExpire, BookMoves, Rewrites;
    if Rewrites(s, a) {
      RewriteKeeps(s, a);
    } else {
      PlacingStepKeeps(s, a);
      CancelStepKeeps(s, a);
      SyncStepKeeps(s, a);
      ExpireStepKeeps(s, a);
      if a.BrokerMove? {
        BrokerMoveKeeps(s, a.book);
      }
    }
  }

  lemma BrokerMoveKeeps(s: State, b: Book)
    requires Inv(s)
    ensures Inv(Step(s, BrokerMove(b))) && Steps(s, Step(s, BrokerMove(b)))
  {
    if BookMoves(s.book, b) {
      hide RowsOk, PlacingOk, SyncOk, SnapshotOk, ExpireOk, ChildrenOk;
      BookMoveKeeps(s, b);
    } else {
      RowsStay(s, s);
    }
  }

  // ---- orders fit their rows --------------------------------------------------

  predicate Fits(s: State) {
    forall k :: 0 <= k < |s.book| && s.book[k].tag.Some? ==>
      s.book[k].tag.value < |s.rows| && s.book[k].qty == s.rows[s.book[k].tag.value].qty
  }

  lemma RowFits(s: State, i: nat)
    requires Inv(s) && Fits(s) && i < |s.rows|
    ensures s.rows[i].filled.GetOr(0) <= s.rows[i].qty
  {
    assert RowOk(s.rows, s.book, i);
    if s.rows[i].brokerId.Some? { assert s.book[s.rows[i].brokerId.value].Sound(); }
  }

  lemma BookStep(s: State, a: Action)
    requires Fits(s)
    ensures var b := Step(s, a).book;
      && |s.book| <= |b|
      && (forall k :: 0 <= k < |s.book| ==> b[k].tag == s.book[k].tag && b[k].qty == s.book[k].qty)
      && (forall k :: |s.book| <= k < |b| && b[k].tag.Some? ==>
            b[k].tag.value < |s.rows| && b[k].qty == s.rows[b[k].tag.value].qty)
  {
    hide FindLive, Matched, WithStatus, Fits;
    if a.BrokerMove? && BookMoves(s.book, a.book) {
      forall k | 0 <= k < |s.book| ensures a.book[k].tag == s.book[k].tag && a.book[k].qty == s.book[k].qty {
        assert s.book[k].Becomes(a.book[k]);
      }
    }
  }

  lemma FitsKept(s: State, a: Action)
    requires Inv(s) && Fits(s)
    ensures Fits(Step(s, a))
  {
    hide Step, Inv;
    BookStep(s, a);
    StepKeeps(s, a);
    if Rewrites(s, a) { RewriteKeeps(s, a); }
    assert |s.rows| <= |Step(s, a).rows|;
    forall i | 0 <= i < |s.rows| ensures Step(s, a).rows[i].qty == s.rows[i].qty {
      if !Rewrites(s, a) { assert RowStep(s.rows[i], Step(s, a).rows[i]); }
    }
  }
}
