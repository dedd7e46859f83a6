/** The order manager itself: the table and the ledger are updated in place, row by
    row, and every operation is proved to leave the world `OrderLedger` says it
    leaves. */
module OrderManagement {
  import opened Wrappers
  import opened OrderTypes
  import opened OrderLedger
  import opened OrderConservation

  class RiskManager {
    var deployed: map<string, nat>

    constructor ()
      ensures deployed == map[]
    {
      deployed := map[];
    }

    function Deployed(s: string): nat
      reads this
    {
      if s in deployed then deployed[s] else 0
    }

    method AddDeployedCapital(s: string, q: nat)
      modifies this`deployed
      ensures deployed == old(deployed)[s := old(Deployed(s)) + q]
    {
      deployed := deployed[s := Deployed(s) + q];
    }

    /** A release larger than what is deployed leaves zero. */
    method ReleaseDeployedCapital(s: string, q: nat)
      modifies this`deployed
      ensures deployed == old(deployed)[s := if old(Deployed(s)) < q then 0 else old(Deployed(s)) - q]
    {
      var left := Deployed(s) - q;
      deployed := deployed[s := if left < 0 then 0 else left];
    }
  }

  /** How many of the listed orders an expiry marks EXPIRED. */
  function RetiredCount(w: World, ids: seq<nat>, now: int, replies: seq<StaleReply>): nat
    requires forall k :: 0 <= k < |ids| ==> ids[k] < |w.rows|
  {
    if ids == [] then 0
    else
      var n := |ids| - 1;
      RetiredCount(w, ids[..n], now, replies)
      + if Stale(ExpireRows(w, ids[..n], now, replies).rows[ids[n]], now) && StaleAt(replies, n).cancelOk then 1 else 0
  }

  class OrderManager {
    const risk: RiskManager
    var rows: seq<Row>
    var book: Book

    constructor ()
      ensures fresh(risk) && TheWorld() == START
    {
      risk := new RiskManager();
      rows := [];
      book := [];
    }

    ghost function TheWorld(): World
      reads this, risk
    {
      World(rows, book, risk.deployed)
    }

    /** The broker's book as the next call finds it. */
    method BrokerMoves(b: Book)
      modifies this`book
      ensures TheWorld() == Advance(old(TheWorld()), b)
    {
      if BookEvolves(book, b) && BookFits(rows, b) {
        book := b;
      }
    }

    method ReleaseIfWasDeployed(id: nat)
      requires id < |rows|
      modifies risk
      ensures TheWorld() == ReleaseIfDeployed(old(TheWorld()), id)
    {
      var r := rows[id];
      if r.side == Buy && r.audited && r.ctx.strategy.Some? && !r.ctx.isSpreadLeg {
        var filled := r.filled.GetOr(0);
        var remaining := if r.qty - filled < 0 then 0 else r.qty - filled;
        risk.ReleaseDeployedCapital(r.ctx.strategy.value, remaining);
      }
    }

    method SyncOrders(reply: ListReply)
      modifies this, risk
      ensures TheWorld() == Sync(old(TheWorld()), reply)
    {
      hide SyncRow, WithStatus, Advance;
      var ids := WithStatus(rows, Open);
      if ids == [] { return; }
      BrokerMoves(reply.book);
      if !reply.ok { return; }
      ghost var start := TheWorld();
      for k := 0 to |ids|
        invariant TheWorld() == SyncRows(start, ids[..k])
        invariant |rows| == |start.rows|
      {
        assert ids[..k + 1][..k] == ids[..k];
        SyncOne(ids[k]);
      }
      assert ids[..|ids|] == ids;
    }

    method SyncOne(id: nat)
      requires id < |rows|
      modifies this, risk
      ensures TheWorld() == SyncRow(old(TheWorld()), id)
    {
      var r := rows[id];
      if r.brokerId.None? || r.brokerId.value >= |book| { return; }
      var b := book[r.brokerId.value];
      var seen := MapBrokerStatus(b.status);
      rows := rows[id := r.(filled := Some(b.filled))];
      if seen != Open {
        rows := rows[id := rows[id].(status := seen)];
        if seen == Cancelled || seen == Rejected {
          ReleaseIfWasDeployed(id);
        }
      }
    }

    /** Refuses a new entry while an order for the same symbol rests; otherwise
        the new row's id is returned. */
    method PlaceOrder(req: Request, now: int, parent: Option<nat>, a: PlaceReply) returns (id: Option<nat>)
      modifies this, risk
      ensures TheWorld() == Place(old(TheWorld()), req, now, parent, a)
      ensures id == if !req.ctx.isExit && Resting(old(rows), req.symbol) then None else Some(old(|rows|))
    {
      if !req.ctx.isExit {
        var busy := HasResting(req.symbol);
        if busy { return None; }
      }
      var n := |rows|;
      id := Some(n);
      rows := rows + [NewRow(req, now, a.auditOk, parent)];
      if !a.riskOk {
        Update(n, RejectedByRisk);
        return;
      }
      match a.submission
      case Accepted =>
        FollowUp(n, a);
      case TimedOut(landed) =>
        if landed { Landing(n); }
        BrokerMoves(a.listing.book);
        if !a.listing.ok {
          Update(n, PendingVerification);
        } else {
          var found := FindLive(book, n);
          if found.Some? {
            MarkOpen(n, found.value, None);
            AddIfReserving(n);
          } else {
            Update(n, Failed);
          }
        }
      case Raised(landed) =>
        if landed { Landing(n); }
        Update(n, Failed);
    }

    method HasResting(symbol: string) returns (busy: bool)
      ensures busy <==> Resting(rows, symbol)
    {
      busy := false;
      for i := 0 to |rows|
        invariant busy <==> exists j :: 0 <= j < i && rows[j].status == Open && rows[j].symbol == symbol
      {
        if rows[i].status == Open && rows[i].symbol == symbol {
          busy := true;
        }
      }
    }

    method Update(id: nat, st: Status)
      requires id < |rows|
      modifies this`rows
      ensures TheWorld() == SetStatus(old(TheWorld()), id, st)
    {
      rows := rows[id := rows[id].(status := st)];
    }

    method MarkOpen(id: nat, bid: nat, filled: Option<nat>)
      requires id < |rows|
      modifies this`rows
      ensures TheWorld() == Opened(old(TheWorld()), id, bid, filled)
    {
      rows := rows[id := rows[id].(status := Open, brokerId := Some(bid), filled := filled)];
    }

    method Landing(id: nat)
      requires id < |rows|
      modifies this`book
      ensures TheWorld() == Land(old(TheWorld()), id)
    {
      book := book + [BrokerOrder(Some(id), rows[id].qty, 0, BOpen)];
    }

    method AddIfReserving(id: nat)
      requires id < |rows|
      modifies risk
      ensures TheWorld() == Credit(old(TheWorld()), id)
    {
      var r := rows[id];
      if r.side == Buy && r.ctx.strategy.Some? && !r.ctx.isSpreadLeg {
        risk.AddDeployedCapital(r.ctx.strategy.value, r.qty);
      }
    }

    /** The acknowledged branch: read back the fill, write OPEN, book it. */
    method FollowUp(id: nat, a: PlaceReply)
      requires id < |rows|
      modifies this, risk
      ensures TheWorld() == Acknowledged(old(TheWorld()), id, a)
    {
      var bid := |book|;
      Landing(id);
      BrokerMoves(a.listing.book);
      var filled := if a.listing.ok then Some(book[bid].filled) else None;
      if !a.writeOk { return; }
      MarkOpen(id, bid, filled);
      AddIfReserving(id);
    }

    method RetryPendingVerification(replies: seq<ListReply>)
      modifies this, risk
      ensures TheWorld() == VerifyRows(old(TheWorld()), WithStatus(old(rows), PendingVerification), replies)
    {
      hide VerifyOne, WithStatus;
      var ids := WithStatus(rows, PendingVerification);
      ghost var start := TheWorld();
      for k := 0 to |ids|
        invariant |rows| == |start.rows|
        invariant TheWorld() == VerifyRows(start, ids[..k], replies)
      {
        assert ids[..k + 1][..k] == ids[..k];
        VerifyAgain(ids[k], ReplyAt(replies, k));
      }
      assert ids[..|ids|] == ids;
    }

    method VerifyAgain(id: nat, reply: ListReply)
      requires id < |rows|
      modifies this, risk
      ensures TheWorld() == VerifyOne(old(TheWorld()), id, reply)
    {
      BrokerMoves(reply.book);
      if !reply.ok { return; }
      var found := FindLive(book, id);
      if found.Some? {
        MarkOpen(id, found.value, rows[id].filled);
        if rows[id].audited {
          AddIfReserving(id);
        }
      } else {
        Update(id, Failed);
      }
    }

    method ExpireStaleOrders(now: int, a: ExpireReply) returns (cancelled: nat)
      modifies this, risk
      ensures TheWorld() == Expire(old(TheWorld()), now, a)
      ensures var w := Prepared(old(TheWorld()), a);
        cancelled == RetiredCount(w, WithStatus(w.rows, Open), now, a.each)
    {
      hide ExpireOne, VerifyRows, Sync, WithStatus;
      RetryPendingVerification(a.verify);
      SyncOrders(a.sync);
      ghost var start := TheWorld();
      var ids := WithStatus(rows, Open);
      cancelled := 0;
      for k := 0 to |ids|
        invariant |start.rows| <= |rows|
        invariant TheWorld() == ExpireRows(start, ids[..k], now, a.each)
        invariant cancelled == RetiredCount(start, ids[..k], now, a.each)
      {
        assert ids[..k + 1][..k] == ids[..k];
        var gone := ExpireIfStale(ids[k], now, StaleAt(a.each, k));
        if gone { cancelled := cancelled + 1; }
      }
      assert ids[..|ids|] == ids;
    }

    method ExpireIfStale(id: nat, now: int, a: StaleReply) returns (gone: bool)
      requires id < |rows|
      modifies this, risk
      ensures TheWorld() == ExpireOne(old(TheWorld()), id, now, a)
      ensures gone <==> Stale(old(rows)[id], now) && a.cancelOk
    {
      gone := false;
      if rows[id].created > now - ORDER_EXPIRY_SECONDS { return; }
      BrokerMoves(a.cancelBook);
      SyncOrders(a.resync);
      if !a.cancelOk { return; }
      gone := true;
      Update(id, Expired);
      var r := rows[id];
      ReleaseIfWasDeployed(id);
      if Retryable(r) {
        var _ := PlaceOrder(RetryRequest(r), now, Some(id), a.retry);
      }
    }

    method CancelOrder(id: nat, b: Book, ok: bool) returns (success: bool)
      modifies this, risk
      ensures TheWorld() == Cancel(old(TheWorld()), id, b, ok)
      ensures success <==> Cancellable(old(TheWorld()), id) && ok
    {
      if id >= |rows| || rows[id].brokerId.None? { return false; }
      if rows[id].status in {Completed, Cancelled, Rejected, Failed, Expired} { return false; }
      BrokerMoves(b);
      if ok {
        Update(id, Cancelled);
        ReleaseIfWasDeployed(id);
      }
      success := ok;
    }
  }
}
