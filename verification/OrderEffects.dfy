/** What each operation of the order manager leaves behind, spelt out: the row it
    writes, the ledger, and the rows it must not touch. */
module OrderEffects {
  import opened Wrappers
  import opened OrderTypes
  import opened OrderLedger
  import opened OrderConservation
  import opened OrderRetry

  /** The book holds an order with the tag that rests or is complete. */
  predicate TagLive(book: Book, tag: nat) {
    exists k :: 0 <= k < |book| && book[k].tag == Some(tag) && (book[k].status == BOpen || book[k].status == BComplete)
  }

  /** A single-leg buy for strategy `s`. */
  predicate BuysFor(r: Row, s: string) {
    r.side == Buy && r.ctx.strategy == Some(s) && !r.ctx.isSpreadLeg
  }

  // ---- place_order ---------------------------------------------------------

  predicate Refused(w: World, req: Request) {
    !req.ctx.isExit && exists i :: 0 <= i < |w.rows| && w.rows[i].status == Open && w.rows[i].symbol == req.symbol
  }

  /** A write to one row leaves the other rows, and what this one was placed with. */
  predicate Writes(w: World, w': World, id: nat)
    requires id < |w.rows|
  {
    && |w'.rows| == |w.rows| && w'.rows == w.rows[id := w'.rows[id]]
    && w'.rows[id] ==
       w.rows[id].(status := w'.rows[id].status, brokerId := w'.rows[id].brokerId, filled := w'.rows[id].filled)
  }

  /** The ledger gains row `id`'s quantity for its strategy if `open`. */
  predicate Reserved(w: World, w': World, id: nat, open: bool, s: string)
    requires id < |w.rows|
  {
    Deployed(w', s) == Deployed(w, s) + if open && BuysFor(w.rows[id], s) then w.rows[id].qty else 0
  }

  lemma CreditedOpenIs(w: World, id: nat, bid: nat, filled: Option<nat>, s: string)
    requires id < |w.rows|
    ensures var w' := Credit(Opened(w, id, bid, filled), id);
      && Writes(w, w', id) && Reserved(w, w', id, true, s) && w'.book == w.book
      && w'.rows[id].status == Open && w'.rows[id].brokerId == Some(bid) && w'.rows[id].filled == filled
  {
  }

  lemma AcknowledgedIs(w: World, id: nat, a: PlaceReply, s: string)
    requires id < |w.rows| && w.rows[id].status == Pending && w.rows[id].brokerId.None?
    ensures var w', bid := Acknowledged(w, id, a), |w.book|;
      && Writes(w, w', id) && Reserved(w, w', id, a.writeOk, s)
      && bid < |w'.book| && w'.book[bid].tag == Some(id) && w'.book[bid].qty == w.rows[id].qty
      && (if a.writeOk
          then w'.rows[id].status == Open && w'.rows[id].brokerId == Some(bid)
               && w'.rows[id].filled == (if a.listing.ok then Some(w'.book[bid].filled) else None)
          else w'.rows[id].status == Pending && w'.rows[id].brokerId.None?)
  {
    LandedStays(w, id, a.listing.book);
    var v := Advance(Land(w, id), a.listing.book);
    CreditedOpenIs(v, id, |w.book|, if a.listing.ok then Some(v.book[|w.book|].filled) else None, s);
    hide Advance, Credit, Opened;
  }

  lemma UnansweredIs(w: World, id: nat, landed: bool, verify: ListReply, s: string)
    requires id < |w.rows|
    ensures var w', bid := Unanswered(w, id, landed, verify), |w.book|;
      && Writes(w, w', id) && Reserved(w, w', id, w'.rows[id].status == Open, s)
      && (landed ==> bid < |w'.book| && w'.book[bid].tag == Some(id) && w'.book[bid].qty == w.rows[id].qty)
      && (w'.rows[id].status == PendingVerification <==> !verify.ok)
      && (w'.rows[id].status == Open <==> verify.ok && TagLive(w'.book, id))
      && (w'.rows[id].status == Failed <==> verify.ok && !TagLive(w'.book, id))
      && (w'.rows[id].status == Open ==>
            && w'.rows[id].brokerId.Some? && w'.rows[id].brokerId.value < |w'.book|
            && w'.book[w'.rows[id].brokerId.value].tag == Some(id))
  {
    if landed { LandedStays(w, id, verify.book); }
    var v := Advance(if landed then Land(w, id) else w, verify.book);
    var found := FindLive(v.book, id);
    VerdictIs(v.book, id);
    if verify.ok && found.Some? { CreditedOpenIs(v, id, found.value, None, s); }
    hide Advance, FindLive, Credit, Opened, TagLive;
  }

  /** The table and book a placement leaves, ready for its outcome. */
  function Entered(w: World, req: Request, now: int, parent: Option<nat>, a: PlaceReply): World {
    w.(rows := w.rows + [NewRow(req, now, a.auditOk, parent)])
  }

  lemma PlacedWrites(w: World, id: nat, a: PlaceReply, s: string)
    requires id < |w.rows| && w.rows[id].status == Pending && w.rows[id].brokerId.None?
    ensures var w' := Placed(w, id, a); Writes(w, w', id) && Reserved(w, w', id, w'.rows[id].status == Open, s)
  {
    hide Acknowledged, Unanswered;
    match a.submission
    case Accepted => AcknowledgedIs(w, id, a, s);
    case TimedOut(landed) => UnansweredIs(w, id, landed, a.listing, s);
    case Raised(_) =>
  }

  /** The row a placement adds is what was asked for. */
  lemma PlacedRow(w: World, req: Request, now: int, parent: Option<nat>, a: PlaceReply)
    ensures var w', n := Place(w, req, now, parent, a), |w.rows|;
      && (Refused(w, req) ==> w' == w)
      && (!Refused(w, req) ==>
          && |w'.rows| == n + 1 && w'.rows[..n] == w.rows
          && w'.rows[n].symbol == req.symbol && w'.rows[n].side == req.side && w'.rows[n].qty == req.qty
          && w'.rows[n].ctx == req.ctx && w'.rows[n].created == now
          && w'.rows[n].parent == parent && w'.rows[n].audited == a.auditOk)
  {
    hide Placed, Deployed;
    PlacedWrites(Entered(w, req, now, parent, a), |w.rows|, a, "");
  }

  /** And its fate follows the broker's answer: acknowledged and written, OPEN with
      its order; timed out, PENDING_VERIFICATION exactly when the list could not be
      read, OPEN exactly when it shows a live order of the row, FAILED otherwise. */
  lemma PlacedFate(w: World, req: Request, now: int, parent: Option<nat>, a: PlaceReply)
    requires !Refused(w, req)
    ensures var w', n, bid := Place(w, req, now, parent, a), |w.rows|, |w.book|;
      n < |w'.rows| &&
      var st := w'.rows[n].status;
      var lands := bid < |w'.book| && w'.book[bid].tag == Some(n) && w'.book[bid].qty == req.qty;
      if !a.riskOk then st == RejectedByRisk && w'.book == w.book
      else match a.submission
        case Accepted =>
          && lands
          && (if a.writeOk
              then st == Open && w'.rows[n].brokerId == Some(bid)
                   && w'.rows[n].filled == (if a.listing.ok then Some(w'.book[bid].filled) else None)
              else st == Pending && w'.rows[n].brokerId.None?)
        case TimedOut(landed) =>
          && (landed ==> lands)
          && (st == PendingVerification <==> !a.listing.ok)
          && (st == Open <==> a.listing.ok && TagLive(w'.book, n))
          && (st == Failed <==> a.listing.ok && !TagLive(w'.book, n))
          && (st == Open ==>
                && w'.rows[n].brokerId.Some? && w'.rows[n].brokerId.value < |w'.book|
                && w'.book[w'.rows[n].brokerId.value].tag == Some(n))
        case Raised(landed) =>
          st == Failed && (if landed then lands && |w'.book| == bid + 1 else w'.book == w.book)
  {
    hide Acknowledged, Unanswered, TagLive;
    var w1 := Entered(w, req, now, parent, a);
    match a.submission
    case Accepted => AcknowledgedIs(w1, |w.rows|, a, "");
    case TimedOut(landed) => UnansweredIs(w1, |w.rows|, landed, a.listing, "");
    case Raised(_) =>
  }

  lemma LandedStays(w: World, id: nat, b: Book)
    requires id < |w.rows|
    ensures var v, n := Advance(Land(w, id), b), |w.book|;
      n < |v.book| && v.book[n].tag == Some(id) && v.book[n].qty == w.rows[id].qty
  {
    var l := Land(w, id);
    assert l.book[|w.book|] == BrokerOrder(Some(id), w.rows[id].qty, 0, BOpen);
    if Advance(l, b).book != l.book { assert l.book[|w.book|].Becomes(b[|w.book|]); }
  }

  lemma VerdictIs(book: Book, tag: nat)
    ensures FindLive(book, tag).Some? <==> TagLive(book, tag)
  {
  }

  /** A placement reserves its whole quantity for its strategy if it is a single-leg
      buy that came to rest, and nothing otherwise. */
  lemma PlacedReserves(w: World, req: Request, now: int, parent: Option<nat>, a: PlaceReply, s: string)
    requires !Refused(w, req)
    ensures var w', n := Place(w, req, now, parent, a), |w.rows|;
      && n < |w'.rows|
      && Deployed(w', s) == Deployed(w, s)
         + if w'.rows[n].status == Open && BuysFor(w'.rows[n], s) then req.qty else 0
  {
    hide Placed;
    PlacedWrites(Entered(w, req, now, parent, a), |w.rows|, a, s);
  }

  // ---- PENDING_VERIFICATION ------------------------------------------------

  /** One row of unknown outcome: as it was exactly when the list could not be read,
      OPEN with its reservation exactly when a live order of it is there, and FAILED
      exactly when the list was read and none is. */
  lemma VerifiedFate(w: World, id: nat, reply: ListReply)
    requires id < |w.rows| && w.rows[id].status == PendingVerification
    ensures var w' := VerifyOne(w, id, reply);
      && id < |w'.rows| && |w'.rows| == |w.rows| && w'.book == Advance(w, reply.book).book
      && (forall i :: 0 <= i < |w.rows| && i != id ==> w'.rows[i] == w.rows[i])
      && (w'.rows[id].status == PendingVerification <==> !reply.ok)
      && (!reply.ok ==> w'.rows == w.rows && w'.deployed == w.deployed)
      && (w'.rows[id].status == Open <==> reply.ok && TagLive(w'.book, id))
      && (w'.rows[id].status == Failed <==> reply.ok && !TagLive(w'.book, id))
      && forall s: string :: Deployed(w', s) == Deployed(w, s)
           + if w'.rows[id].status == Open && w.rows[id].audited && BuysFor(w.rows[id], s) then w.rows[id].qty else 0
  {
    VerdictIs(Advance(w, reply.book).book, id);
    hide FindLive, Advance;
  }

  predicate UnknownList(rows: seq<Row>, ids: seq<nat>) {
    && (forall k :: 0 <= k < |ids| ==> ids[k] < |rows| && rows[ids[k]].status == PendingVerification)
    && forall j, k :: 0 <= j < k < |ids| ==> ids[j] < ids[k]
  }

  /** The book as it is when the k-th of the listed rows is looked up. */
  function BookAt(w: World, ids: seq<nat>, replies: seq<ListReply>, k: nat): Book
    requires UnknownList(w.rows, ids) && k < |ids|
  {
    Advance(VerifyRows(w, ids[..k], replies), ReplyAt(replies, k).book).book
  }

  lemma {:induction false} VerifyLeaves(w: World, ids: seq<nat>, replies: seq<ListReply>, i: nat)
    requires UnknownList(w.rows, ids) && i < |w.rows| && i !in ids
    ensures VerifyRows(w, ids, replies).rows[i] == w.rows[i]
  {
    if ids != [] {
      var n := |ids| - 1;
      VerifyLeaves(w, ids[..n], replies, i);
      VerifyLeaves(w, ids[..n], replies, ids[n]);
      VerifiedFate(VerifyRows(w, ids[..n], replies), ids[n], ReplyAt(replies, n));
    }
  }

  /** Each listed row by its own read. */
  lemma {:induction false} VerifiedRows(w: World, ids: seq<nat>, replies: seq<ListReply>, k: nat)
    requires UnknownList(w.rows, ids) && k < |ids|
    ensures var r, reply := VerifyRows(w, ids, replies).rows[ids[k]], ReplyAt(replies, k);
      && (!reply.ok ==> r == w.rows[ids[k]])
      && (reply.ok ==> r.status == if TagLive(BookAt(w, ids, replies, k), ids[k]) then Open else Failed)
  {
    var n := |ids| - 1;
    var w1 := VerifyRows(w, ids[..n], replies);
    VerifyLeaves(w, ids[..n], replies, ids[n]);
    VerifiedFate(w1, ids[n], ReplyAt(replies, n));
    if k < n {
      assert ids[..n][..k] == ids[..k];
      VerifiedRows(w, ids[..n], replies, k);
    }
  }

  // ---- sync_orders ---------------------------------------------------------

  /** What a sync whose list gets through makes of a row, given the book it reads. */
  predicate SyncedRow(r: Row, r': Row, book: Book) {
    if r.status == Open && r.brokerId.Some? && r.brokerId.value < |book|
    then
      var o := book[r.brokerId.value];
      && r'.filled == Some(o.filled)
      && (r'.status == Completed <==> o.status == BComplete)
      && (r'.status == Cancelled <==> o.status == BCancelled)
      && (r'.status == Rejected <==> o.status == BRejected)
      && (r'.status == Open <==> o.status == BOpen)
      && r' == r.(status := r'.status, filled := r'.filled)
    else r' == r
  }

  lemma SyncedOne(w: World, id: nat)
    requires id < |w.rows| && w.rows[id].status == Open
    ensures var w' := SyncRow(w, id);
      && |w'.rows| == |w.rows| && w'.book == w.book && SyncedRow(w.rows[id], w'.rows[id], w.book)
      && forall i :: 0 <= i < |w.rows| && i != id ==> w'.rows[i] == w.rows[i]
  {
  }

  lemma {:induction false} SyncedRows(w: World, ids: seq<nat>, i: nat)
    requires i < |w.rows| && forall k :: 0 <= k < |ids| ==> ids[k] < |w.rows| && w.rows[ids[k]].status == Open
    requires forall j, k :: 0 <= j < k < |ids| ==> ids[j] < ids[k]
    ensures var r' := SyncRows(w, ids).rows[i];
      if i in ids then SyncedRow(w.rows[i], r', w.book) else r' == w.rows[i]
  {
    hide SyncRow, SyncedRow;
    if ids != [] {
      var n := |ids| - 1;
      var w1 := SyncRows(w, ids[..n]);
      SyncedRows(w, ids[..n], i);
      SyncedRows(w, ids[..n], ids[n]);
      assert ids == ids[..n] + [ids[n]] && ids[n] !in ids[..n];
      SyncedOne(w1, ids[n]);
    }
  }

  /** A sync whose list gets through writes every OPEN row's fill and fate as the book
      it read has them, and no other row; one that does not writes nothing. */
  lemma SyncedIs(w: World, reply: ListReply, i: nat)
    requires i < |w.rows|
    ensures var w' := Sync(w, reply);
      && i < |w'.rows|
      && (reply.ok ==> SyncedRow(w.rows[i], w'.rows[i], Advance(w, reply.book).book))
      && (!reply.ok ==> w'.rows == w.rows && w'.deployed == w.deployed)
      && (w.rows[i].status != Open ==> w'.rows[i] == w.rows[i])
      && (w.rows[i].status == Open ==> w'.book == Advance(w, reply.book).book)
  {
    hide SyncRow, SyncRows, Advance;
    var ids := WithStatus(w.rows, Open);
    SyncedRows(Advance(w, reply.book), ids, i);
  }

  // ---- cancel_order --------------------------------------------------------

  /** A resting order, and no other, is cancelled when the broker confirms; its
      unfilled part goes back to its strategy. */
  lemma CancelledIs(w: World, id: nat, b: Book, ok: bool)
    requires Inv(w)
    ensures var w', may := Cancel(w, id, b, ok), id < |w.rows| && w.rows[id].status == Open && ok;
      && |w'.rows| == |w.rows|
      && (forall i :: 0 <= i < |w.rows| && (i != id || !may) ==> w'.rows[i] == w.rows[i])
      && (may ==> w'.rows[id] == w.rows[id].(status := Cancelled))
      && forall s: string ::
           var r := if may then w.rows[id].qty - w.rows[id].filled.GetOr(0) else 0;
           Deployed(w', s) ==
             if may && w.rows[id].audited && BuysFor(w.rows[id], s)
             then (if Deployed(w, s) < r then 0 else Deployed(w, s) - r) else Deployed(w, s)
  {
    if id < |w.rows| { InvRow(w, id); }
    hide Inv, Advance;
  }

  // ---- expire_stale_orders -------------------------------------------------

  /** What the audit entry must say, and the order lack, for a retry. */
  predicate MayRetry(r: Row) {
    && r.filled.GetOr(0) < r.qty && r.audited && !r.ctx.isSpreadLeg && !r.ctx.isRetry
    && (r.ctx.isExit || (r.ctx.strategy != Some("credit_spread_v1") && r.ctx.strategy != Some("iron_condor_v1")))
  }

  /** Retiring a stale order: EXPIRED, its unfilled part goes back, and a retry for
      exactly that part if and only if it may be retried and nothing of its symbol
      rests in the way. */
  lemma RetiredIs(w: World, id: nat, now: int, a: PlaceReply)
    requires id < |w.rows|
    ensures var w', n, r := Retire(w, id, now, a), |w.rows|, w.rows[id];
      var blocked := !r.ctx.isExit &&
        exists i :: 0 <= i < n && i != id && w.rows[i].status == Open && w.rows[i].symbol == r.symbol;
      && n <= |w'.rows| <= n + 1
      && w'.rows[id] == r.(status := Expired)
      && (forall i :: 0 <= i < n && i != id ==> w'.rows[i] == w.rows[i])
      && (|w'.rows| == n + 1 <==> MayRetry(r) && !blocked)
      && (|w'.rows| == n + 1 ==>
          && Heir(r, w'.rows[n]) && w'.rows[n].parent == Some(id) && w'.rows[n].created == now
          && w'.rows[n].qty == r.qty - r.filled.GetOr(0))
  {
    hide Placed;
    var w1 := SetStatus(w, id, Expired);
    var w2 := ReleaseIfDeployed(w1, id);
    var req := RetryRequest(w1.rows[id]);
    PlacedRow(w2, req, now, Some(id), a);
    ExpiredOutOfTheWay(w, id, w.rows[id].symbol);
  }

  lemma ExpiredOutOfTheWay(w: World, id: nat, symbol: string)
    requires id < |w.rows|
    ensures Resting(SetStatus(w, id, Expired).rows, symbol) <==>
      exists i :: 0 <= i < |w.rows| && i != id && w.rows[i].status == Open && w.rows[i].symbol == symbol
  {
    var rows := SetStatus(w, id, Expired).rows;
    if i :| 0 <= i < |w.rows| && i != id && w.rows[i].status == Open && w.rows[i].symbol == symbol {
      assert rows[i].status == Open && rows[i].symbol == symbol;
    }
  }

  /** An open order is retired exactly when it is at least five minutes old and its
      cancel is confirmed; else the expiry only re-reads the book, or does nothing. */
  lemma ExpiredIs(w: World, id: nat, now: int, a: StaleReply)
    requires id < |w.rows|
    ensures var w', old_enough := ExpireOne(w, id, now, a), now - w.rows[id].created >= 300;
      && (!old_enough ==> w' == w)
      && (old_enough && !a.cancelOk ==> w' == Sync(Advance(w, a.cancelBook), a.resync))
      && (old_enough && a.cancelOk ==>
          && w'.rows[id] == Sync(Advance(w, a.cancelBook), a.resync).rows[id].(status := Expired)
          && forall i :: 0 <= i < |w.rows| && i != id ==>
               w'.rows[i] == Sync(Advance(w, a.cancelBook), a.resync).rows[i])
  {
    hide Retire, Sync, Advance;
    if Stale(w.rows[id], now) && a.cancelOk { RetiredIs(Resynced(w, a), id, now, a.retry); }
  }

  lemma SyncedNotExpired(r: Row, r': Row, book: Book)
    requires SyncedRow(r, r', book)
    ensures r'.created == r.created && (r'.status == Expired <==> r.status == Expired)
  {
  }

  /** What one stale order's turn does to another row: only what a sync does. */
  lemma TurnLeaves(w: World, id: nat, now: int, a: StaleReply, i: nat)
    requires id < |w.rows| && i < |w.rows| && i != id
    ensures var w' := ExpireOne(w, id, now, a);
      && |w.rows| <= |w'.rows| && w'.rows[i].created == w.rows[i].created
      && (w.rows[i].status != Open ==> w'.rows[i] == w.rows[i])
      && (w'.rows[i].status == Expired <==> w.rows[i].status == Expired)
  {
    hide Retire, Sync, SyncedRow;
    var w1 := Advance(w, a.cancelBook);
    ExpiredIs(w, id, now, a);
    SyncedIs(w1, a.resync, i);
    if a.resync.ok { SyncedNotExpired(w1.rows[i], Sync(w1, a.resync).rows[i], Advance(w1, a.resync.book).book); }
  }

  lemma TurnMarks(w: World, id: nat, now: int, a: StaleReply)
    requires id < |w.rows| && w.rows[id].status != Expired
    ensures var w' := ExpireOne(w, id, now, a);
      && |w.rows| <= |w'.rows|
      && (w'.rows[id].status == Expired <==> now - w.rows[id].created >= 300 && a.cancelOk)
  {
    hide Retire, Sync, SyncedRow;
    var w1 := Advance(w, a.cancelBook);
    ExpiredIs(w, id, now, a);
    SyncedIs(w1, a.resync, id);
    if a.resync.ok { SyncedNotExpired(w1.rows[id], Sync(w1, a.resync).rows[id], Advance(w1, a.resync.book).book); }
  }

  /** Whether the k-th resting order is old enough and its cancel is confirmed. */
  predicate Retired(w: World, ids: seq<nat>, now: int, replies: seq<StaleReply>, k: nat)
    requires k < |ids| && ids[k] < |w.rows|
  {
    now - w.rows[ids[k]].created >= 300 && k < |replies| && replies[k].cancelOk
  }

  /** Row `i` is one of those. */
  predicate Marked(w: World, ids: seq<nat>, now: int, replies: seq<StaleReply>, i: nat)
    requires forall k :: 0 <= k < |ids| ==> ids[k] < |w.rows|
  {
    exists k :: 0 <= k < |ids| && ids[k] == i && Retired(w, ids, now, replies, k)
  }

  lemma {:induction false} RowsMarked(w: World, ids: seq<nat>, now: int, replies: seq<StaleReply>, i: nat)
    requires i < |w.rows| && forall k :: 0 <= k < |ids| ==> ids[k] < |w.rows| && w.rows[ids[k]].status == Open
    requires forall j, k :: 0 <= j < k < |ids| ==> ids[j] < ids[k]
    ensures var w' := ExpireRows(w, ids, now, replies);
      && |w.rows| <= |w'.rows| && w'.rows[i].created == w.rows[i].created
      && (w.rows[i].status != Open ==> w'.rows[i] == w.rows[i])
      && (w'.rows[i].status == Expired <==>
          w.rows[i].status == Expired || Marked(w, ids, now, replies, i))
  {
    hide ExpireOne;
    if ids != [] {
      var n := |ids| - 1;
      var id, m := ids[n], ExpireRows(w, ids[..n], now, replies);
      RowsMarked(w, ids[..n], now, replies, i);
      assert forall k :: 0 <= k < n ==> Retired(w, ids[..n], now, replies, k) == Retired(w, ids, now, replies, k);
      if i == id {
        TurnMarks(m, id, now, StaleAt(replies, n));
        ExpireKeepsCreated(m, id, now, StaleAt(replies, n));
      } else {
        TurnLeaves(m, id, now, StaleAt(replies, n), i);
      }
    }
  }

  lemma ExpireKeepsCreated(w: World, id: nat, now: int, a: StaleReply)
    requires id < |w.rows|
    ensures ExpireOne(w, id, now, a).rows[id].created == w.rows[id].created
  {
    hide Retire, Sync, SyncedRow;
    var w1 := Advance(w, a.cancelBook);
    ExpiredIs(w, id, now, a);
    SyncedIs(w1, a.resync, id);
    if a.resync.ok { SyncedNotExpired(w1.rows[id], Sync(w1, a.resync).rows[id], Advance(w1, a.resync.book).book); }
  }

  /** The expiry marks EXPIRED exactly the orders that rest after its sync, are at
      least five minutes old and whose cancel is confirmed; and no order that did
      not rest is touched. */
  lemma ExpireMarks(w: World, now: int, a: ExpireReply, i: nat)
    requires i < |w.rows|
    ensures var v, w' := Prepared(w, a), Expire(w, now, a);
      var ids := WithStatus(v.rows, Open);
      && i < |v.rows| <= |w'.rows|
      && (v.rows[i].status != Open ==> w'.rows[i] == v.rows[i])
      && (w'.rows[i].status == Expired <==>
          v.rows[i].status == Expired || Marked(v, ids, now, a.each, i))
  {
    hide Prepared, ExpireRows;
    var v, w' := Prepared(w, a), Expire(w, now, a);
    var ids := WithStatus(v.rows, Open);
    RowsMarked(v, ids, now, a.each, i);
    assert w' == ExpireRows(v, ids, now, a.each);
  }

  /** No finished order reaches the loop over stale orders once the sync before it
      gets through: what rests there rests at the broker, and its fill is known. */
  lemma ExpireSyncsFirst(w: World, a: ExpireReply, i: nat)
    requires Inv(w) && a.sync.ok && i < |w.rows| && Prepared(w, a).rows[i].status == Open
    ensures var v := Prepared(w, a); var r := v.rows[i];
      && r.brokerId.Some? && r.brokerId.value < |v.book|
      && v.book[r.brokerId.value].tag == Some(i)
      && v.book[r.brokerId.value].status == BOpen && r.filled == Some(v.book[r.brokerId.value].filled)
  {
    hide Inv, VerifyRows, Sync, SyncedRow;
    var ids := WithStatus(w.rows, PendingVerification);
    var u := VerifyRows(w, ids, a.verify);
    VerifyRowsKeeps(w, ids, a.verify);
    SyncedIs(u, a.sync, i);
    AdvanceKeeps(u, a.sync.book);
    InvRow(Advance(u, a.sync.book), i);
    SyncedStillOpen(u.rows[i], Prepared(w, a).rows[i], Advance(u, a.sync.book).book);
  }

  lemma SyncedStillOpen(r: Row, r': Row, book: Book)
    requires SyncedRow(r, r', book) && r'.status == Open && (r.brokerId.Some? ==> r.brokerId.value < |book|)
    requires r.brokerId.Some?
    ensures r.status == Open && r'.brokerId == r.brokerId
    ensures book[r.brokerId.value].status == BOpen && r'.filled == Some(book[r.brokerId.value].filled)
  {
  }

  // ---- the unknown outcome over runs ---------------------------------------

  /** Position of row `i` in the list of rows of unknown outcome. */
  predicate ListedAt(w: World, i: nat, k: nat) {
    var ids := WithStatus(w.rows, PendingVerification);
    k < |ids| && ids[k] == i
  }

  /** The read for the k-th row of unknown outcome got through. */
  predicate ReadOk(a: ExpireReply, k: nat) {
    k < |a.verify| && a.verify[k].ok
  }

  /** The book that read showed held a live order of the row. */
  predicate ShownLive(w: World, a: ExpireReply, k: nat) {
    var ids := WithStatus(w.rows, PendingVerification);
    k < |ids| && TagLive(BookAt(w, ids, a.verify, k), ids[k])
  }

  /** A row of unknown outcome stays exactly as it is through every operation but an
      expiry, and through that too unless its own read gets through. Then it has
      FAILED exactly when the book shown held no live order of it, and was opened
      exactly when it did. */
  lemma UnknownUntilRead(ops: seq<Op>, op: Op, i: nat)
    requires var w := Run(START, ops); i < |w.rows| && w.rows[i].status == PendingVerification
    ensures var w, w' := Run(START, ops), Run(START, ops + [op]);
      && i < |w'.rows|
      && (!op.Expiring? ==> w'.rows[i] == w.rows[i])
      && (op.Expiring? ==>
          exists k: nat ::
           && ListedAt(w, i, k)
           && (w'.rows[i] == w.rows[i] <==> !ReadOk(op.replies, k))
           && (w'.rows[i].status == Failed <==> ReadOk(op.replies, k) && !ShownLive(w, op.replies, k))
           && (w'.rows[i].status.AfterOpen() <==> ReadOk(op.replies, k) && ShownLive(w, op.replies, k)))
  {
    hide Inv, Place, Sync, Cancel, Expire, Advance;
    RunKeeps(ops);
    assert (ops + [op])[..|ops|] == ops;
    var w := Run(START, ops);
    assert Run(START, ops + [op]) == Apply(w, op);
    match op
    case Placing(req, now, reply) => PlacedRow(w, req, now, None, reply);
    case Syncing(listing) => SyncedIs(w, listing, i);
    case Cancelling(id, b, ok) => CancelledIs(w, id, b, ok);
    case BrokerMoving(_) =>
    case Expiring(now, a) =>
      var ids := WithStatus(w.rows, PendingVerification);
      var k: nat :| k < |ids| && ids[k] == i;
      UnknownThroughExpiry(w, now, a, k);
      assert ListedAt(w, i, k);
  }

  lemma UnknownThroughExpiry(w: World, now: int, a: ExpireReply, k: nat)
    requires Inv(w) && k < |WithStatus(w.rows, PendingVerification)|
    ensures var w', i := Expire(w, now, a), WithStatus(w.rows, PendingVerification)[k];
      && i < |w'.rows|
      && (!ReadOk(a, k) ==> w'.rows[i] == w.rows[i])
      && (ReadOk(a, k) && ShownLive(w, a, k) ==> w'.rows[i].status.AfterOpen())
      && (ReadOk(a, k) && !ShownLive(w, a, k) ==> w'.rows[i].status == Failed)
  {
    hide Inv, VerifyRows, Sync, ExpireRows, BookAt, TagLive;
    var ids := WithStatus(w.rows, PendingVerification);
    var u, v, i := VerifyRows(w, ids, a.verify), Prepared(w, a), ids[k];
    VerifiedRows(w, ids, a.verify, k);
    VerifyRowsKeeps(w, ids, a.verify);
    SyncedIs(u, a.sync, i);
    SyncKeeps(u, a.sync);
    ExpireMarks(w, now, a, i);
    if ReadOk(a, k) && ShownLive(w, a, k) {
      assert RowAges(u.rows[i], v.rows[i]);
      ExpireRowsKeeps(v, WithStatus(v.rows, Open), now, a.each);
      assert RowAges(v.rows[i], Expire(w, now, a).rows[i]);
    }
  }

  // ---- retries over runs ---------------------------------------------------

  predicate HeirAt(w: World, c: nat)
    requires c < |w.rows|
  {
    w.rows[c].parent.Some? ==> w.rows[c].parent.value < c && Heir(w.rows[w.rows[c].parent.value], w.rows[c])
  }

  predicate HeirsOk(w: World) {
    forall c :: 0 <= c < |w.rows| ==> HeirAt(w, c)
  }

  lemma AgeingKeepsHeirs(w: World, w': World)
    requires Ages(w, w') && HeirsOk(w)
    requires forall c :: |w.rows| <= c < |w'.rows| ==> HeirAt(w', c)
    ensures HeirsOk(w')
  {
    forall c | 0 <= c < |w.rows| ensures HeirAt(w', c) {
      assert HeirAt(w, c) && RowAges(w.rows[c], w'.rows[c]);
      if w.rows[c].parent.Some? {
        var p := w.rows[c].parent.value;
        assert RowAges(w.rows[p], w'.rows[p]);
      }
    }
  }

  lemma ExpireOneKeepsHeirs(w: World, id: nat, now: int, a: StaleReply)
    requires Inv(w) && HeirsOk(w) && id < |w.rows| && w.rows[id].status.AfterOpen()
    ensures HeirsOk(ExpireOne(w, id, now, a))
  {
    hide Inv, Retire, Sync, Heir;
    var m, w' := Resynced(w, a), ExpireOne(w, id, now, a);
    ExpireOneKeeps(w, id, now, a);
    if Stale(w.rows[id], now) && a.cancelOk {
      RetiredIs(m, id, now, a.retry);
      RetiredHeir(m, id, now, a.retry);
    }
    AgeingKeepsHeirs(w, w');
  }

  lemma RetiredHeir(w: World, id: nat, now: int, a: PlaceReply)
    requires id < |w.rows|
    ensures forall c :: |w.rows| <= c < |Retire(w, id, now, a).rows| ==> HeirAt(Retire(w, id, now, a), c)
  {
    hide Retire;
    RetiredIs(w, id, now, a);
  }

  lemma {:induction false} MidwayHeirs(w: World, now: int, a: ExpireReply, k: nat)
    requires Inv(w) && HeirsOk(w) && k <= StaleCount(w, a)
    ensures HeirsOk(Midway(w, now, a, k))
  {
    hide Inv, HeirsOk, Prepared, ExpireOne;
    if k == 0 {
      PreparedKeeps(w, a);
      AgeingKeepsHeirs(w, Prepared(w, a));
    } else {
      MidwayHeirs(w, now, a, k - 1);
      MidwayGrows(w, now, a, k - 1);
      MidwayNext(w, now, a, k - 1);
      var id := WithStatus(Prepared(w, a).rows, Open)[k - 1];
      ExpireOneKeepsHeirs(Midway(w, now, a, k - 1), id, now, StaleAt(a.each, k - 1));
    }
  }

  lemma ApplyKeepsHeirs(w: World, op: Op)
    requires Inv(w) && HeirsOk(w)
    ensures HeirsOk(Apply(w, op))
  {
    hide Inv, HeirsOk, Place, Sync, Cancel;
    ApplyKeeps(w, op);
    match op
    case Placing(req, now, reply) =>
      PlaceParent(w, req, now, None, reply);
      AgeingKeepsHeirs(w, Apply(w, op));
    case Syncing(_) => AgeingKeepsHeirs(w, Apply(w, op));
    case Expiring(now, a) =>
      MidwayHeirs(w, now, a, StaleCount(w, a));
      var ids := WithStatus(Prepared(w, a).rows, Open);
      assert ids[..|ids|] == ids;
    case Cancelling(id, b, ok) =>
      CancelGrowsNothing(w, id, b, ok);
      AgeingKeepsHeirs(w, Apply(w, op));
    case BrokerMoving(_) => AgeingKeepsHeirs(w, Apply(w, op));
  }

  /** Over every serial run, a retry is its expired original again: the same symbol,
      side, strategy and exit flag, no spread leg, marked a retry, and for at least
      one and at most what was asked for. */
  lemma {:induction false} HeirsOverRuns(ops: seq<Op>, c: nat)
    requires var w := Run(START, ops); c < |w.rows| && w.rows[c].parent.Some?
    ensures var w := Run(START, ops); var p := w.rows[c].parent.value;
      && p < c
      && w.rows[c].symbol == w.rows[p].symbol && w.rows[c].side == w.rows[p].side
      && w.rows[c].ctx.strategy == w.rows[p].ctx.strategy && w.rows[c].ctx.isExit == w.rows[p].ctx.isExit
      && !w.rows[c].ctx.isSpreadLeg && w.rows[c].ctx.isRetry
      && 0 < w.rows[c].qty <= w.rows[p].qty
  {
    hide Run;
    AllHeirs(ops);
    assert HeirAt(Run(START, ops), c);
  }

  lemma {:induction false} AllHeirs(ops: seq<Op>)
    ensures HeirsOk(Run(START, ops))
  {
    hide Apply, HeirsOk;
    if ops == [] {
      assert HeirsOk(START) by { NoHeirs(); }
    } else {
      AllHeirs(ops[..|ops| - 1]);
      RunKeeps(ops[..|ops| - 1]);
      ApplyKeepsHeirs(Run(START, ops[..|ops| - 1]), ops[|ops| - 1]);
    }
  }

  lemma NoHeirs()
    ensures HeirsOk(START)
  {
  }
}
