/** The order lifecycle as a function of what the broker answers, with the
    operations run one after another, and the capital they keep reserved.

    Everything the broker may do is an argument: each call carries the book the
    broker has moved to by then and whether the call got through. A proof about
    all arguments is a proof about every broker. Amounts are in quantity units. */
module OrderLedger {
  import opened Wrappers
  import opened OrderTypes

  const ORDER_EXPIRY_SECONDS := 300

  datatype World = World(
    rows: seq<Row>, book: Book,
    deployed: map<string, nat>)

  /** A read of the broker's order list. */
  datatype ListReply = ListReply(book: Book, ok: bool)

  datatype Submission =
    | Accepted
    | TimedOut(landed: bool)
    | Raised(landed: bool)

  datatype PlaceReply = PlaceReply(
    riskOk: bool, auditOk: bool, submission: Submission,
    listing: ListReply, writeOk: bool)

  datatype Request = Request(symbol: string, side: Side, qty: nat, ctx: Context)

  datatype StaleReply = StaleReply(cancelBook: Book, cancelOk: bool, resync: ListReply, retry: PlaceReply)

  datatype ExpireReply = ExpireReply(verify: seq<ListReply>, sync: ListReply, each: seq<StaleReply>)

  // ---- the broker moves on -------------------------------------------------

  predicate BookEvolves(a: Book, b: Book) {
    |a| <= |b| && forall k :: 0 <= k < |a| ==> a[k].Becomes(b[k])
  }

  predicate BookFits(rows: seq<Row>, b: Book) {
    forall k :: 0 <= k < |b| ==>
      b[k].Sound() && (b[k].tag.Some? ==> b[k].tag.value < |rows| && b[k].qty == rows[b[k].tag.value].qty)
  }

  /** Lets the broker move to `b`; a move no broker could make is no move. */
  function Advance(w: World, b: Book): (r: World)
    ensures r.rows == w.rows && r.deployed == w.deployed
    ensures r.book == w.book || (r.book == b && BookEvolves(w.book, b) && BookFits(w.rows, b))
  {
    if BookEvolves(w.book, b) && BookFits(w.rows, b) then w.(book := b) else w
  }

  // ---- the capital ledger --------------------------------------------------

  function Deployed(w: World, s: string): nat {
    if s in w.deployed then w.deployed[s] else 0
  }

  function AddCapital(w: World, s: string, q: nat): World {
    w.(deployed := w.deployed[s := Deployed(w, s) + q])
  }

  /** Releasing never takes a strategy below zero. */
  function ReleaseCapital(w: World, s: string, q: nat): World {
    w.(deployed := w.deployed[s := if Deployed(w, s) < q then 0 else Deployed(w, s) - q])
  }

  function ReleaseIfDeployed(w: World, id: nat): World
    requires id < |w.rows|
  {
    var r := w.rows[id];
    if Reserves(r.side, r.ctx) && r.audited
    then ReleaseCapital(w, r.ctx.strategy.value, Unfilled(r)) else w
  }

  function AddIfDeployed(w: World, id: nat): World
    requires id < |w.rows|
  {
    var r := w.rows[id];
    if Reserves(r.side, r.ctx) && r.audited
    then AddCapital(w, r.ctx.strategy.value, r.qty) else w
  }

  // ---- sync_orders ---------------------------------------------------------

  function SyncRow(w: World, id: nat): World
    requires id < |w.rows|
  {
    var r := w.rows[id];
    if r.brokerId.None? || r.brokerId.value >= |w.book| then w
    else
      var b := w.book[r.brokerId.value];
      var seen := MapBrokerStatus(b.status);
      var r' := r.(status := if seen != Open then seen else r.status, filled := Some(b.filled));
      var w' := w.(rows := w.rows[id := r']);
      if seen == Cancelled || seen == Rejected then ReleaseIfDeployed(w', id) else w'
  }

  function SyncRows(w: World, ids: seq<nat>): (r: World)
    requires forall k :: 0 <= k < |ids| ==> ids[k] < |w.rows|
    ensures |r.rows| == |w.rows| && r.book == w.book
  {
    if ids == [] then w
    else SyncRow(SyncRows(w, ids[..|ids| - 1]), ids[|ids| - 1])
  }

  function Sync(w: World, reply: ListReply): (r: World)
    ensures |r.rows| == |w.rows|
  {
    var ids := WithStatus(w.rows, Open);
    if ids == [] then w
    else
      var w' := Advance(w, reply.book);
      if reply.ok then SyncRows(w', ids) else w'
  }

  // ---- place_order ---------------------------------------------------------

  predicate Resting(rows: seq<Row>, symbol: string) {
    exists i :: 0 <= i < |rows| && rows[i].status == Open && rows[i].symbol == symbol
  }

  function NewRow(req: Request, now: int, audited: bool, parent: Option<nat>): Row {
    Row(req.symbol, req.side, req.qty, Pending, None, None, now, req.ctx, audited, parent)
  }

  function SetStatus(w: World, id: nat, st: Status): World
    requires id < |w.rows|
  {
    w.(rows := w.rows[id := w.rows[id].(status := st)])
  }

  function Opened(w: World, id: nat, bid: nat, filled: Option<nat>): World
    requires id < |w.rows|
  {
    w.(rows := w.rows[id := w.rows[id].(status := Open, brokerId := Some(bid), filled := filled)])
  }

  function Land(w: World, id: nat): World
    requires id < |w.rows|
  {
    w.(book := w.book + [BrokerOrder(Some(id), w.rows[id].qty, 0, BOpen)])
  }

  /** Books the reservation of an order the broker accepted. */
  function Credit(w: World, id: nat): World
    requires id < |w.rows|
  {
    var r := w.rows[id];
    if Reserves(r.side, r.ctx) then AddCapital(w, r.ctx.strategy.value, r.qty) else w
  }

  function Acknowledged(w: World, id: nat, a: PlaceReply): (r: World)
    requires id < |w.rows|
    ensures |r.rows| == |w.rows|
  {
    var bid := |w.book|;
    var w' := Advance(Land(w, id), a.listing.book);
    var filled := if a.listing.ok then Some(w'.book[bid].filled) else None;
    if a.writeOk then Credit(Opened(w', id, bid, filled), id) else w'
  }

  function Unanswered(w: World, id: nat, landed: bool, verify: ListReply): (r: World)
    requires id < |w.rows|
    ensures |r.rows| == |w.rows|
  {
    var w' := Advance(if landed then Land(w, id) else w, verify.book);
    if !verify.ok then SetStatus(w', id, PendingVerification)
    else match FindLive(w'.book, id)
      case Some(bid) => Credit(Opened(w', id, bid, None), id)
      case None => SetStatus(w', id, Failed)
  }

  /** What becomes of the PENDING row. */
  function Placed(w: World, id: nat, a: PlaceReply): (r: World)
    requires id < |w.rows|
    ensures |r.rows| == |w.rows|
  {
    if !a.riskOk then SetStatus(w, id, RejectedByRisk)
    else match a.submission
      case Accepted => Acknowledged(w, id, a)
      case TimedOut(landed) => Unanswered(w, id, landed, a.listing)
      case Raised(landed) => SetStatus(if landed then Land(w, id) else w, id, Failed)
  }

  function Place(w: World, req: Request, now: int, parent: Option<nat>, a: PlaceReply): (r: World)
    ensures |w.rows| <= |r.rows| <= |w.rows| + 1
  {
    if !req.ctx.isExit && Resting(w.rows, req.symbol) then w
    else
      var id := |w.rows|;
      Placed(w.(rows := w.rows + [NewRow(req, now, a.auditOk, parent)]), id, a)
  }

  // ---- PENDING_VERIFICATION retry ------------------------------------------

  function ReplyAt(replies: seq<ListReply>, k: nat): ListReply {
    if k < |replies| then replies[k] else ListReply([], false)
  }

  function VerifyOne(w: World, id: nat, reply: ListReply): (r: World)
    requires id < |w.rows|
    ensures |r.rows| == |w.rows|
  {
    var w' := Advance(w, reply.book);
    if !reply.ok then w'
    else match FindLive(w'.book, id)
      case Some(bid) => AddIfDeployed(Opened(w', id, bid, w'.rows[id].filled), id)
      case None => SetStatus(w', id, Failed)
  }

  function VerifyRows(w: World, ids: seq<nat>, replies: seq<ListReply>): (r: World)
    requires forall k :: 0 <= k < |ids| ==> ids[k] < |w.rows|
    ensures |r.rows| == |w.rows|
  {
    if ids == [] then w
    else
      var n := |ids| - 1;
      VerifyOne(VerifyRows(w, ids[..n], replies), ids[n], ReplyAt(replies, n))
  }

  // ---- expire_stale_orders -------------------------------------------------

  predicate Stale(r: Row, now: int) {
    r.created <= now - ORDER_EXPIRY_SECONDS
  }

  function RetryRequest(r: Row): Request {
    Request(r.symbol, r.side, Unfilled(r), Context(r.ctx.strategy, r.ctx.isExit, false, true))
  }

  /** Writes EXPIRED, releases the unfilled part and retries it once. */
  function Retire(w: World, id: nat, now: int, a: PlaceReply): (r: World)
    requires id < |w.rows|
    ensures |w.rows| <= |r.rows|
  {
    var w1 := SetStatus(w, id, Expired);
    var r := w1.rows[id];
    var w2 := ReleaseIfDeployed(w1, id);
    if Retryable(r) then Place(w2, RetryRequest(r), now, Some(id), a) else w2
  }

  /** The world in which the stale order's final status is written. */
  function Resynced(w: World, a: StaleReply): (r: World)
    ensures |r.rows| == |w.rows|
  {
    Sync(Advance(w, a.cancelBook), a.resync)
  }

  function ExpireOne(w: World, id: nat, now: int, a: StaleReply): (r: World)
    requires id < |w.rows|
    ensures |w.rows| <= |r.rows|
  {
    if !Stale(w.rows[id], now) then w
    else if a.cancelOk then Retire(Resynced(w, a), id, now, a.retry)
    else Resynced(w, a)
  }

  function StaleAt(replies: seq<StaleReply>, k: nat): StaleReply {
    if k < |replies| then replies[k]
    else
      var silent := ListReply([], false);
      StaleReply([], false, silent, PlaceReply(false, false, Raised(false), silent, false))
  }

  function ExpireRows(w: World, ids: seq<nat>, now: int, replies: seq<StaleReply>): (r: World)
    requires forall k :: 0 <= k < |ids| ==> ids[k] < |w.rows|
    ensures |w.rows| <= |r.rows|
  {
    if ids == [] then w
    else
      var n := |ids| - 1;
      ExpireOne(ExpireRows(w, ids[..n], now, replies), ids[n], now, StaleAt(replies, n))
  }

  /** The world the loop over stale orders starts from. */
  function Prepared(w: World, a: ExpireReply): (r: World)
    ensures |r.rows| == |w.rows|
  {
    Sync(VerifyRows(w, WithStatus(w.rows, PendingVerification), a.verify), a.sync)
  }

  function Expire(w: World, now: int, a: ExpireReply): World {
    var w' := Prepared(w, a);
    ExpireRows(w', WithStatus(w'.rows, Open), now, a.each)
  }

  // ---- cancel_order --------------------------------------------------------

  predicate Cancellable(w: World, id: nat) {
    && id < |w.rows|
    && w.rows[id].brokerId.Some?
    && w.rows[id].status !in {Completed, Cancelled, Rejected, Failed, Expired}
  }

  function Cancel(w: World, id: nat, b: Book, ok: bool): World {
    if !Cancellable(w, id) then w
    else
      var w' := Advance(w, b);
      if ok then ReleaseIfDeployed(SetStatus(w', id, Cancelled), id) else w'
  }
}
