/** Reserved capital equals outstanding commitments, over every run of serial
    operations and every broker, and exactly when it does not. */
module OrderConservation {
  import opened Wrappers
  import opened OrderTypes
  import opened OrderLedger

  // ---- what the ledger should say ------------------------------------------

  /** What a row commits of strategy `s`: everything asked for while it rests or
      once it completed, only what was filled once it ended otherwise. */
  function Stake(r: Row, s: string): nat {
    if !Reserves(r.side, r.ctx) || r.ctx.strategy != Some(s) then 0
    else match r.status
      case Open => r.qty
      case Completed => r.qty
      case Cancelled => r.filled.GetOr(0)
      case Rejected => r.filled.GetOr(0)
      case Expired => r.filled.GetOr(0)
      case _ => 0
  }

  function Committed(rows: seq<Row>, s: string): nat {
    if rows == [] then 0 else Committed(rows[..|rows| - 1], s) + Stake(rows[|rows| - 1], s)
  }

  ghost predicate Conserved(w: World) {
    forall s: string :: Deployed(w, s) == Committed(w.rows, s)
  }

  lemma {:induction false} CommittedUpdate(rows: seq<Row>, i: nat, r: Row, s: string)
    requires i < |rows|
    ensures Committed(rows[i := r], s) == Committed(rows, s) - Stake(rows[i], s) + Stake(r, s)
    ensures Stake(rows[i], s) <= Committed(rows, s)
  {
    var n := |rows| - 1;
    if i == n {
      assert rows[i := r][..n] == rows[..n];
    } else {
      assert rows[i := r][..n] == rows[..n][i := r];
      CommittedUpdate(rows[..n], i, r, s);
    }
  }

  lemma CommittedAppend(rows: seq<Row>, r: Row, s: string)
    ensures Committed(rows + [r], s) == Committed(rows, s) + Stake(r, s)
  {
    assert (rows + [r])[..|rows|] == rows;
  }

  /** The ledger and the commitments moved by the same amount. */
  ghost predicate InStep(w: World, w': World) {
    forall s: string ::
      Deployed(w', s) - Committed(w'.rows, s) == Deployed(w, s) - Committed(w.rows, s)
  }

  lemma UpdateInStep(w: World, w': World, i: nat)
    requires i < |w.rows| == |w'.rows| && w'.rows == w.rows[i := w'.rows[i]]
    requires forall s: string ::
      Deployed(w', s) - Stake(w'.rows[i], s) == Deployed(w, s) - Stake(w.rows[i], s)
    ensures InStep(w, w')
  {
    forall s: string ensures
      Deployed(w', s) - Committed(w'.rows, s) == Deployed(w, s) - Committed(w.rows, s)
    {
      CommittedUpdate(w.rows, i, w'.rows[i], s);
    }
  }

  // ---- what every operation keeps ------------------------------------------

  predicate RowOk(w: World, i: nat)
    requires i < |w.rows|
  {
    var r := w.rows[i];
    && r.filled.GetOr(0) <= r.qty
    && (r.brokerId.Some? <==> r.status.AfterOpen())
    && (r.brokerId.Some? ==>
        && r.brokerId.value < |w.book|
        && w.book[r.brokerId.value].tag == Some(i)
        && r.filled.GetOr(0) <= w.book[r.brokerId.value].filled)
    && (r.brokerId.None? ==> r.filled.None?)
    && (r.status == Completed ==> r.filled == Some(r.qty))
  }

  predicate Inv(w: World) {
    && BookFits(w.rows, w.book)
    && forall i :: 0 <= i < |w.rows| ==> RowOk(w, i)
  }

  /** Rows keep what they were placed with, and their broker order for good. */
  predicate RowAges(r: Row, r': Row) {
    && r' == r.(status := r'.status, brokerId := r'.brokerId, filled := r'.filled)
    && (r.status.AfterOpen() ==> r'.status.AfterOpen() && r'.brokerId == r.brokerId)
  }

  predicate Ages(w: World, w': World) {
    && |w.rows| <= |w'.rows|
    && (forall i :: 0 <= i < |w.rows| ==> RowAges(w.rows[i], w'.rows[i]))
    && BookEvolves(w.book, w'.book)
  }

  lemma AgesTransitive(a: World, b: World, c: World)
    requires Ages(a, b) && Ages(b, c)
    ensures Ages(a, c)
  {
    forall i | 0 <= i < |a.rows| ensures RowAges(a.rows[i], c.rows[i]) {
      assert RowAges(b.rows[i], c.rows[i]);
    }
    forall k | 0 <= k < |a.book| ensures a.book[k].Becomes(c.book[k]) {
      assert b.book[k].Becomes(c.book[k]);
    }
  }

  ghost predicate Follows(w: World, w': World) {
    Inv(w') && Ages(w, w') && InStep(w, w')
  }

  lemma FollowsTransitive(a: World, b: World, c: World)
    requires Follows(a, b) && Follows(b, c)
    ensures Follows(a, c)
  {
    AgesTransitive(a, b, c);
  }

  predicate AllAudited(w: World) {
    forall i :: 0 <= i < |w.rows| ==> w.rows[i].audited
  }

  lemma AdvanceKeeps(w: World, b: Book)
    requires Inv(w)
    ensures Follows(w, Advance(w, b))
  {
    var w' := Advance(w, b);
    forall i | 0 <= i < |w'.rows| ensures RowOk(w', i) {
      assert RowOk(w, i);
    }
  }

  /** Replacing one row by a sound one keeps the invariant. */
  lemma UpdateKeepsInv(w: World, w': World, i: nat)
    requires Inv(w) && i < |w.rows|
    requires w'.book == w.book && |w'.rows| == |w.rows| && w'.rows == w.rows[i := w'.rows[i]]
    requires RowAges(w.rows[i], w'.rows[i]) && RowOk(w', i)
    ensures Inv(w') && Ages(w, w')
  {
    forall j | 0 <= j < |w'.rows| ensures RowOk(w', j) && RowAges(w.rows[j], w'.rows[j]) {
      assert RowOk(w, j);
    }
  }

  // ---- sync ----------------------------------------------------------------

  lemma SyncRowKeeps(w: World, id: nat)
    requires Inv(w) && id < |w.rows| && w.rows[id].status == Open
    ensures var w' := SyncRow(w, id);
      && Inv(w') && Ages(w, w') && (AllAudited(w) && Conserved(w) ==> Conserved(w'))
      && forall j :: 0 <= j < |w.rows| && j != id ==> w'.rows[j] == w.rows[j]
  {
    var w' := SyncRow(w, id);
    assert RowOk(w, id);
    UpdateKeepsInv(w, w', id);
    if AllAudited(w) && Conserved(w) {
      SyncRowConserves(w, id);
    }
  }

  lemma SyncRowConserves(w: World, id: nat)
    requires id < |w.rows| && w.rows[id].status == Open && RowOk(w, id) && w.rows[id].audited && Conserved(w)
    requires RowOk(SyncRow(w, id), id)
    ensures Conserved(SyncRow(w, id))
  {
    var w' := SyncRow(w, id);
    forall s: string ensures Deployed(w', s) == Committed(w'.rows, s) {
      CommittedUpdate(w.rows, id, w'.rows[id], s);
    }
  }

  lemma {:induction false} SyncRowsKeeps(w: World, ids: seq<nat>)
    requires Inv(w)
    requires forall k :: 0 <= k < |ids| ==> ids[k] < |w.rows| && w.rows[ids[k]].status == Open
    requires forall j, k :: 0 <= j < k < |ids| ==> ids[j] < ids[k]
    ensures var w' := SyncRows(w, ids);
      && Inv(w') && Ages(w, w') && (AllAudited(w) && Conserved(w) ==> Conserved(w'))
      && forall i :: 0 <= i < |w.rows| && i !in ids ==> w'.rows[i] == w.rows[i]
  {
    if ids != [] {
      var n := |ids| - 1;
      var w1 := SyncRows(w, ids[..n]);
      SyncRowsKeeps(w, ids[..n]);
      assert ids[n] !in ids[..n];
      SyncRowKeeps(w1, ids[n]);
      AgesTransitive(w, w1, SyncRows(w, ids));
      assert ids == ids[..n] + [ids[n]];
    }
  }

  lemma SyncKeeps(w: World, reply: ListReply)
    requires Inv(w)
    ensures var w' := Sync(w, reply);
      Inv(w') && Ages(w, w') && (AllAudited(w) && Conserved(w) ==> Conserved(w'))
  {
    var ids := WithStatus(w.rows, Open);
    AdvanceKeeps(w, w.book);
    AdvanceKeeps(w, reply.book);
    SyncRowsKeeps(Advance(w, reply.book), ids);
    AgesTransitive(w, Advance(w, reply.book), SyncRows(Advance(w, reply.book), ids));
  }

  // ---- place_order ---------------------------------------------------------

  lemma LandKeeps(w: World, id: nat)
    requires Inv(w) && id < |w.rows|
    ensures Follows(w, Land(w, id))
  {
    var w' := Land(w, id);
    forall i | 0 <= i < |w'.rows| ensures RowOk(w', i) {
      assert RowOk(w, i);
    }
  }

  lemma CreditedOpenKeeps(w: World, id: nat, bid: nat, filled: Option<nat>)
    requires Inv(w) && id < |w.rows| && !w.rows[id].status.AfterOpen()
    requires bid < |w.book| && w.book[bid].tag == Some(id) && filled.GetOr(0) <= w.book[bid].filled
    ensures Follows(w, Credit(Opened(w, id, bid, filled), id))
  {
    var w' := Credit(Opened(w, id, bid, filled), id);
    UpdateKeepsInv(w, w', id);
    UpdateInStep(w, w', id);
  }

  lemma SetStatusKeeps(w: World, id: nat, st: Status)
    requires Inv(w) && id < |w.rows| && !w.rows[id].status.AfterOpen() && !st.AfterOpen()
    ensures Follows(w, SetStatus(w, id, st))
  {
    assert RowOk(w, id);
    UpdateKeepsInv(w, SetStatus(w, id, st), id);
    UpdateInStep(w, SetStatus(w, id, st), id);
  }

  lemma AcknowledgedKeeps(w: World, id: nat, a: PlaceReply)
    requires Inv(w) && id < |w.rows| && w.rows[id].status == Pending
    ensures Follows(w, Acknowledged(w, id, a))
  {
    var bid := |w.book|;
    LandKeeps(w, id);
    AdvanceKeeps(Land(w, id), a.listing.book);
    var w' := Advance(Land(w, id), a.listing.book);
    FollowsTransitive(w, Land(w, id), w');
    if a.writeOk {
      var filled := if a.listing.ok then Some(w'.book[bid].filled) else None;
      var c := Credit(Opened(w', id, bid, filled), id);
      CreditedOpenKeeps(w', id, bid, filled);
      FollowsTransitive(w, w', c);
    }
  }

  lemma UnansweredKeeps(w: World, id: nat, landed: bool, verify: ListReply)
    requires Inv(w) && id < |w.rows| && w.rows[id].status == Pending
    ensures Follows(w, Unanswered(w, id, landed, verify))
  {
    LandKeeps(w, id);
    var w1 := if landed then Land(w, id) else w;
    AdvanceKeeps(w, w.book);
    AdvanceKeeps(w1, verify.book);
    var w' := Advance(w1, verify.book);
    FollowsTransitive(w, w1, w');
    if !verify.ok {
      SetStatusKeeps(w', id, PendingVerification);
    } else {
      match FindLive(w'.book, id)
      case Some(bid) => CreditedOpenKeeps(w', id, bid, None);
      case None => SetStatusKeeps(w', id, Failed);
    }
    FollowsTransitive(w, w', Unanswered(w, id, landed, verify));
  }

  lemma CreatedKeeps(w: World, w': World, r: Row)
    requires Inv(w) && w' == w.(rows := w.rows + [r])
    requires r.status == Pending && r.brokerId.None? && r.filled.None?
    ensures Follows(w, w')
  {
    forall i | 0 <= i < |w'.rows| ensures RowOk(w', i) {
      if i < |w.rows| { assert RowOk(w, i); }
    }
    forall s: string ensures Committed(w'.rows, s) == Committed(w.rows, s) {
      CommittedAppend(w.rows, r, s);
    }
  }

  /** Placing an order never moves the ledger away from the commitments. */
  lemma PlaceKeeps(w: World, req: Request, now: int, parent: Option<nat>, a: PlaceReply)
    requires Inv(w)
    ensures Follows(w, Place(w, req, now, parent, a))
    ensures AllAudited(w) && a.auditOk ==> AllAudited(Place(w, req, now, parent, a))
  {
    AdvanceKeeps(w, w.book);
    var id := |w.rows|;
    var w1 := w.(rows := w.rows + [NewRow(req, now, a.auditOk, parent)]);
    CreatedKeeps(w, w1, w1.rows[id]);
    PlacedKeeps(w1, id, a);
    if Place(w, req, now, parent, a) != w {
      assert Place(w, req, now, parent, a) == Placed(w1, id, a);
      FollowsTransitive(w, w1, Placed(w1, id, a));
    }
  }

  lemma PlacedKeeps(w: World, id: nat, a: PlaceReply)
    requires Inv(w) && id < |w.rows| && w.rows[id].status == Pending
    ensures Follows(w, Placed(w, id, a))
  {
    if !a.riskOk {
      SetStatusKeeps(w, id, RejectedByRisk);
    } else {
      match a.submission
      case Accepted => AcknowledgedKeeps(w, id, a);
      case TimedOut(landed) => UnansweredKeeps(w, id, landed, a.listing);
      case Raised(landed) =>
        LandKeeps(w, id);
        AdvanceKeeps(w, w.book);
        var w1 := if landed then Land(w, id) else w;
        SetStatusKeeps(w1, id, Failed);
        FollowsTransitive(w, w1, SetStatus(w1, id, Failed));
    }
  }

  // ---- PENDING_VERIFICATION retry ------------------------------------------

  lemma VerifyOneKeeps(w: World, id: nat, reply: ListReply)
    requires Inv(w) && id < |w.rows| && w.rows[id].status == PendingVerification
    ensures var w' := VerifyOne(w, id, reply);
      && Inv(w') && Ages(w, w') && (w.rows[id].audited ==> InStep(w, w'))
      && forall i :: 0 <= i < |w.rows| && i != id ==> w'.rows[i] == w.rows[i]
  {
    AdvanceKeeps(w, reply.book);
    var w' := Advance(w, reply.book);
    assert RowOk(w', id);
    if reply.ok {
      match FindLive(w'.book, id)
      case Some(bid) =>
        UpdateKeepsInv(w', VerifyOne(w, id, reply), id);
        if w.rows[id].audited {
          UpdateInStep(w', VerifyOne(w, id, reply), id);
        }
      case None => SetStatusKeeps(w', id, Failed);
    }
    AgesTransitive(w, w', VerifyOne(w, id, reply));
    if w.rows[id].audited {
      FollowsTransitive(w, w', VerifyOne(w, id, reply));
    }
  }

  lemma {:induction false} VerifyRowsKeeps(w: World, ids: seq<nat>, replies: seq<ListReply>)
    requires Inv(w)
    requires forall k :: 0 <= k < |ids| ==> ids[k] < |w.rows| && w.rows[ids[k]].status == PendingVerification
    requires forall j, k :: 0 <= j < k < |ids| ==> ids[j] < ids[k]
    ensures var w' := VerifyRows(w, ids, replies);
      && Inv(w') && Ages(w, w') && (AllAudited(w) ==> InStep(w, w'))
      && forall i :: 0 <= i < |w.rows| && i !in ids ==> w'.rows[i] == w.rows[i]
  {
    AdvanceKeeps(w, w.book);
    if ids != [] {
      var n := |ids| - 1;
      var w1 := VerifyRows(w, ids[..n], replies);
      VerifyRowsKeeps(w, ids[..n], replies);
      assert ids[n] !in ids[..n];
      VerifyOneKeeps(w1, ids[n], ReplyAt(replies, n));
      AgesTransitive(w, w1, VerifyRows(w, ids, replies));
      assert ids == ids[..n] + [ids[n]];
    }
  }

  lemma PreparedKeeps(w: World, a: ExpireReply)
    requires Inv(w)
    ensures var w' := Prepared(w, a);
      && Inv(w') && Ages(w, w')
      && (AllAudited(w) ==> AllAudited(w') && (Conserved(w) ==> Conserved(w')))
  {
    var ids := WithStatus(w.rows, PendingVerification);
    var w1 := VerifyRows(w, ids, a.verify);
    VerifyRowsKeeps(w, ids, a.verify);
    SyncKeeps(w1, a.sync);
    AgesTransitive(w, w1, Prepared(w, a));
  }

  // ---- expire_stale_orders: where the ledger can be spoilt -----------------

  /** The row had left OPEN, so its remainder was already released, when EXPIRED
      is written, and the strategy has a reservation left to take it from again. */
  predicate ReleasedTwice(w: World, id: nat)
    requires id < |w.rows|
  {
    var r := w.rows[id];
    && Reserves(r.side, r.ctx) && Unfilled(r) > 0
    && r.status != Open
    && Deployed(w, r.ctx.strategy.value) > 0
  }

  lemma RetireKeeps(w: World, id: nat, now: int, a: PlaceReply)
    requires Inv(w) && id < |w.rows| && w.rows[id].status.AfterOpen()
    ensures var w' := Retire(w, id, now, a);
      && Inv(w') && Ages(w, w')
      && (AllAudited(w) && a.auditOk ==>
          AllAudited(w') && (Conserved(w) ==> (Conserved(w') <==> !ReleasedTwice(w, id))))
  {
    var w1 := ReleaseIfDeployed(SetStatus(w, id, Expired), id);
    assert RowOk(w, id);
    UpdateKeepsInv(w, w1, id);
    if AllAudited(w) && Conserved(w) {
      ReleaseOnExpiry(w, w1, id);
    }
    var r := w1.rows[id];
    PlaceKeeps(w1, RetryRequest(r), now, Some(id), a);
    if Retryable(r) {
      AgesTransitive(w, w1, Retire(w, id, now, a));
    }
  }

  lemma ReleaseOnExpiry(w: World, w1: World, id: nat)
    requires Inv(w) && AllAudited(w) && Conserved(w)
    requires id < |w.rows| && w.rows[id].status.AfterOpen()
    requires w1 == ReleaseIfDeployed(SetStatus(w, id, Expired), id)
    ensures Conserved(w1) <==> !ReleasedTwice(w, id)
  {
    assert RowOk(w, id);
    var r := w.rows[id];
    forall s: string ensures Committed(w1.rows, s) == Committed(w.rows, s) - Stake(r, s) + Stake(w1.rows[id], s)
      && Stake(r, s) <= Committed(w.rows, s)
    {
      CommittedUpdate(w.rows, id, w1.rows[id], s);
    }
    if ReleasedTwice(w, id) {
      var s := r.ctx.strategy.value;
      assert Deployed(w1, s) < Deployed(w, s) == Committed(w.rows, s) == Committed(w1.rows, s);
    } else {
      forall s: string ensures Deployed(w1, s) == Committed(w1.rows, s) {
        assert Deployed(w, s) == Committed(w.rows, s);
      }
    }
  }

  lemma ExpireOneKeeps(w: World, id: nat, now: int, a: StaleReply)
    requires Inv(w) && id < |w.rows| && w.rows[id].status.AfterOpen()
    ensures var w' := ExpireOne(w, id, now, a);
      && Inv(w') && Ages(w, w')
      && (AllAudited(w) && (a.cancelOk ==> a.retry.auditOk) ==>
          AllAudited(w') && (Conserved(w) ==> (Conserved(w') <==> !SpoiltAt(w, id, now, a))))
  {
    hide Inv, Retire, Sync, ReleasedTwice, BookEvolves;
    AdvanceKeeps(w, w.book);
    if Stale(w.rows[id], now) {
      AdvanceKeeps(w, a.cancelBook);
      SyncKeeps(Advance(w, a.cancelBook), a.resync);
      AgesTransitive(w, Advance(w, a.cancelBook), Resynced(w, a));
      if a.cancelOk {
        RetireKeeps(Resynced(w, a), id, now, a.retry);
        AgesTransitive(w, Resynced(w, a), ExpireOne(w, id, now, a));
      }
    }
  }

  /** The broker confirmed the cancel and the re-read that follows it finds the
      order already released. */
  predicate SpoiltAt(w: World, id: nat, now: int, a: StaleReply)
    requires id < |w.rows|
  {
    Stale(w.rows[id], now) && a.cancelOk && ReleasedTwice(Resynced(w, a), id)
  }

  lemma {:induction false} ExpireRowsKeeps(w: World, ids: seq<nat>, now: int, replies: seq<StaleReply>)
    requires Inv(w)
    requires forall k :: 0 <= k < |ids| ==> ids[k] < |w.rows| && w.rows[ids[k]].status.AfterOpen()
    ensures var w' := ExpireRows(w, ids, now, replies);
      && Inv(w') && Ages(w, w')
      && (AllAudited(w) && (forall k :: 0 <= k < |replies| ==> replies[k].retry.auditOk) ==> AllAudited(w'))
  {
    AdvanceKeeps(w, w.book);
    if ids != [] {
      var n := |ids| - 1;
      var w1 := ExpireRows(w, ids[..n], now, replies);
      ExpireRowsKeeps(w, ids[..n], now, replies);
      ExpireOneKeeps(w1, ids[n], now, StaleAt(replies, n));
      AgesTransitive(w, w1, ExpireRows(w, ids, now, replies));
    }
  }

  // ---- cancel_order --------------------------------------------------------

  lemma InvRow(w: World, i: nat)
    requires Inv(w) && i < |w.rows|
    ensures RowOk(w, i)
  {
  }

  lemma CancelKeeps(w: World, id: nat, b: Book, ok: bool)
    requires Inv(w)
    ensures var w' := Cancel(w, id, b, ok);
      Inv(w') && Ages(w, w') && (AllAudited(w) && Conserved(w) ==> Conserved(w'))
  {
    hide Inv, Ages, Advance;
    AdvanceKeeps(w, w.book);
    AdvanceKeeps(w, b);
    var w1, w' := Advance(w, b), Cancel(w, id, b, ok);
    if !Cancellable(w, id) {
      AgesSelf(w);
    } else if ok {
      InvRow(w1, id);
      UpdateKeepsInv(w1, w', id);
      AgesTransitive(w, w1, w');
      if AllAudited(w) && Conserved(w) {
        forall s: string ensures Deployed(w', s) == Committed(w'.rows, s) {
          CommittedUpdate(w1.rows, id, w'.rows[id], s);
        }
      }
    }
  }

  lemma AgesSelf(w: World)
    requires Inv(w)
    ensures Ages(w, w)
  {
  }

  // ---- runs ----------------------------------------------------------------

  datatype Op =
    | Placing(req: Request, now: int, reply: PlaceReply)
    | Syncing(listing: ListReply)
    | Expiring(now: int, replies: ExpireReply)
    | Cancelling(id: nat, book: Book, ok: bool)
    | BrokerMoving(book: Book)

  function Apply(w: World, op: Op): World {
    match op
    case Placing(req, now, reply) => Place(w, req, now, None, reply)
    case Syncing(listing) => Sync(w, listing)
    case Expiring(now, replies) => Expire(w, now, replies)
    case Cancelling(id, book, ok) => Cancel(w, id, book, ok)
    case BrokerMoving(book) => Advance(w, book)
  }

  function Run(w: World, ops: seq<Op>): World {
    if ops == [] then w else Apply(Run(w, ops[..|ops| - 1]), ops[|ops| - 1])
  }

  const START := World([], [], map[])

  /** Every placement's audit entry is written, so that it is found later. */
  predicate Audited(op: Op) {
    match op
    case Placing(_, _, reply) => reply.auditOk
    case Expiring(_, replies) => forall k :: 0 <= k < |replies.each| ==> replies.each[k].retry.auditOk
    case _ => true
  }

  /** The world before the k-th stale order of an expiry is looked at. */
  function Midway(w: World, now: int, a: ExpireReply, k: nat): World
    requires k <= |WithStatus(Prepared(w, a).rows, Open)|
  {
    ExpireRows(Prepared(w, a), WithStatus(Prepared(w, a).rows, Open)[..k], now, a.each)
  }

  function StaleCount(w: World, a: ExpireReply): nat {
    |WithStatus(Prepared(w, a).rows, Open)|
  }

  predicate SpoiltMidway(w: World, now: int, a: ExpireReply, k: nat)
    requires k < StaleCount(w, a)
  {
    var id := WithStatus(Prepared(w, a).rows, Open)[k];
    var m := Midway(w, now, a, k);
    id < |m.rows| && SpoiltAt(m, id, now, StaleAt(a.each, k))
  }

  /** No expiry of `op` releases a remainder twice. */
  predicate Clean(w: World, op: Op) {
    op.Expiring? ==>
      forall k :: 0 <= k < StaleCount(w, op.replies) ==> !SpoiltMidway(w, op.now, op.replies, k)
  }

  ghost predicate ConservedMidway(w: World, now: int, a: ExpireReply, k: nat)
    requires k <= StaleCount(w, a)
  {
    Conserved(Midway(w, now, a, k))
  }

  /** The ledger agrees with the commitments at every point `op` passes. */
  ghost predicate ConservedDuring(w: World, op: Op) {
    if op.Expiring? then
      forall k :: 0 <= k <= StaleCount(w, op.replies) ==> ConservedMidway(w, op.now, op.replies, k)
    else Conserved(Apply(w, op))
  }

  lemma ApplyKeeps(w: World, op: Op)
    requires Inv(w)
    ensures Inv(Apply(w, op)) && Ages(w, Apply(w, op))
    ensures AllAudited(w) && Audited(op) ==> AllAudited(Apply(w, op))
    ensures AllAudited(w) && Audited(op) && !op.Expiring? && Conserved(w) ==> Conserved(Apply(w, op))
  {
    match op
    case Placing(req, now, reply) => PlaceKeeps(w, req, now, None, reply);
    case Syncing(listing) => SyncKeeps(w, listing);
    case Expiring(now, a) =>
      PreparedKeeps(w, a);
      var w1 := Prepared(w, a);
      ExpireRowsKeeps(w1, WithStatus(w1.rows, Open), now, a.each);
      AgesTransitive(w, w1, Expire(w, now, a));
    case Cancelling(id, book, ok) => CancelKeeps(w, id, book, ok);
    case BrokerMoving(book) => AdvanceKeeps(w, book);
  }

  lemma NextRowConserves(w: World, ids: seq<nat>, k: nat, now: int, replies: seq<StaleReply>)
    requires Inv(w) && AllAudited(w) && k < |ids|
    requires forall j :: 0 <= j < |ids| ==> ids[j] < |w.rows| && w.rows[ids[j]].status.AfterOpen()
    requires forall j :: 0 <= j < |replies| ==> replies[j].retry.auditOk
    ensures var m := ExpireRows(w, ids[..k], now, replies);
      && ids[k] < |m.rows|
      && (Conserved(m) ==>
          (Conserved(ExpireRows(w, ids[..k + 1], now, replies)) <==> !SpoiltAt(m, ids[k], now, StaleAt(replies, k))))
  {
    hide Inv, Conserved, ExpireOne, SpoiltAt;
    var m := ExpireRows(w, ids[..k], now, replies);
    ExpireRowsKeeps(w, ids[..k], now, replies);
    assert RowAges(w.rows[ids[k]], m.rows[ids[k]]);
    ExpireOneKeeps(m, ids[k], now, StaleAt(replies, k));
    assert ids[..k + 1][..k] == ids[..k];
  }

  lemma MidwayStep(w: World, now: int, a: ExpireReply, k: nat)
    requires Inv(w) && AllAudited(w) && Audited(Expiring(now, a))
    requires k < StaleCount(w, a) && ConservedMidway(w, now, a, k)
    ensures ConservedMidway(w, now, a, k + 1) <==> !SpoiltMidway(w, now, a, k)
  {
    hide Inv, Ages, Conserved, Prepared, ExpireRows, SpoiltAt;
    PreparedKeeps(w, a);
    var w1 := Prepared(w, a);
    NextRowConserves(w1, WithStatus(w1.rows, Open), k, now, a.each);
  }

  lemma MidwayEnds(w: World, now: int, a: ExpireReply)
    ensures ConservedMidway(w, now, a, 0) <==> Conserved(Prepared(w, a))
    ensures ConservedMidway(w, now, a, StaleCount(w, a)) <==> Conserved(Expire(w, now, a))
  {
    hide Conserved, Prepared;
    var ids := WithStatus(Prepared(w, a).rows, Open);
    assert ids[..|ids|] == ids;
  }

  /** One expiry: the ledger stays right throughout exactly when it releases no
      remainder that was already released. */
  lemma ConservedIffCleanExpiry(w: World, now: int, a: ExpireReply)
    requires Inv(w) && AllAudited(w) && Audited(Expiring(now, a)) && Conserved(w)
    ensures ConservedDuring(w, Expiring(now, a)) <==> Clean(w, Expiring(now, a))
    ensures ConservedDuring(w, Expiring(now, a)) ==> Conserved(Expire(w, now, a))
  {
    hide Inv, Conserved, Prepared, Midway, SpoiltMidway, ConservedMidway, Expire;
    PreparedKeeps(w, a);
    MidwayEnds(w, now, a);
    var n := StaleCount(w, a);
    var k := 0;
    while k < n && !SpoiltMidway(w, now, a, k)
      invariant 0 <= k <= n
      invariant forall j :: 0 <= j <= k ==> ConservedMidway(w, now, a, j)
      invariant forall j :: 0 <= j < k ==> !SpoiltMidway(w, now, a, j)
    {
      MidwayStep(w, now, a, k);
      k := k + 1;
    }
    if k < n {
      MidwayStep(w, now, a, k);
    }
  }

  lemma ConservedIffClean(w: World, op: Op)
    requires Inv(w) && AllAudited(w) && Audited(op) && Conserved(w)
    ensures ConservedDuring(w, op) <==> Clean(w, op)
    ensures ConservedDuring(w, op) ==> Conserved(Apply(w, op))
  {
    if op.Expiring? {
      ConservedIffCleanExpiry(w, op.now, op.replies);
    } else {
      ApplyKeeps(w, op);
    }
  }

  ghost predicate ConservedAt(w: World, ops: seq<Op>, n: nat)
    requires n < |ops|
  {
    ConservedDuring(Run(w, ops[..n]), ops[n])
  }

  ghost predicate ConservedThroughout(w: World, ops: seq<Op>) {
    forall n :: 0 <= n < |ops| ==> ConservedAt(w, ops, n)
  }

  predicate CleanAt(w: World, ops: seq<Op>, n: nat)
    requires n < |ops|
  {
    Clean(Run(w, ops[..n]), ops[n])
  }

  predicate CleanRun(w: World, ops: seq<Op>) {
    forall n :: 0 <= n < |ops| ==> CleanAt(w, ops, n)
  }

  lemma {:induction false} RunKeeps(ops: seq<Op>)
    ensures Inv(Run(START, ops))
    ensures (forall n :: 0 <= n < |ops| ==> Audited(ops[n])) ==> AllAudited(Run(START, ops))
  {
    if ops != [] {
      RunKeeps(ops[..|ops| - 1]);
      ApplyKeeps(Run(START, ops[..|ops| - 1]), ops[|ops| - 1]);
    }
  }

  lemma {:induction false} LastOp(ops: seq<Op>)
    requires ops != []
    ensures var m := |ops| - 1;
      && (ConservedThroughout(START, ops) <==>
          ConservedThroughout(START, ops[..m]) && ConservedAt(START, ops, m))
      && (CleanRun(START, ops) <==> CleanRun(START, ops[..m]) && CleanAt(START, ops, m))
  {
    hide ConservedDuring, Clean, Run;
    var m := |ops| - 1;
    forall n | 0 <= n < m
      ensures ConservedAt(START, ops[..m], n) == ConservedAt(START, ops, n)
      ensures CleanAt(START, ops[..m], n) == CleanAt(START, ops, n)
    {
      assert ops[..m][..n] == ops[..n];
    }
  }

  /** Over every run against every broker, the reserved capital of every strategy
      equals its commitments at all times if and only if the run is clean. */
  lemma {:induction false} ConservationOverRuns(ops: seq<Op>)
    requires forall n :: 0 <= n < |ops| ==> Audited(ops[n])
    ensures ConservedThroughout(START, ops) <==> CleanRun(START, ops)
    ensures CleanRun(START, ops) ==> Conserved(Run(START, ops))
  {
    if ops != [] {
      var prior := ops[..|ops| - 1];
      LastOp(ops);
      ConservationOverRuns(prior);
      RunKeeps(prior);
      if CleanRun(START, prior) {
        ConservedIffClean(Run(START, prior), ops[|ops| - 1]);
      }
    }
  }
}
