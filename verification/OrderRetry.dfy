/** A retried order and its original together never buy more than was asked
    for: exactly when, over every run of serial operations. */
module OrderRetry {
  import opened Wrappers
  import opened OrderTypes
  import opened OrderLedger
  import opened OrderConservation

  /** The row carries the broker's last word on how much was filled. */
  predicate FinalRead(w: World, id: nat)
    requires id < |w.rows|
  {
    var r := w.rows[id];
    && r.brokerId.Some? && r.brokerId.value < |w.book|
    && w.book[r.brokerId.value].Final()
    && w.book[r.brokerId.value].filled == r.filled.GetOr(0)
  }

  /** Asking again for what the row shows unfilled is safe against everything the
      broker may still do exactly when the row holds the final filled quantity. */
  lemma RemainderSafeIffFinalRead(w: World, id: nat)
    requires Inv(w) && id < |w.rows| && w.rows[id].status.AfterOpen() && Unfilled(w.rows[id]) > 0
    ensures var r := w.rows[id];
      && RowOk(w, id)
      && ((forall b: Book :: BookEvolves(w.book, b) ==>
            b[r.brokerId.value].filled + Unfilled(r) <= r.qty) <==> FinalRead(w, id))
  {
    assert RowOk(w, id);
    var r := w.rows[id];
    var bid := r.brokerId.value;
    var o := w.book[bid];
    if FinalRead(w, id) {
      forall b: Book | BookEvolves(w.book, b) ensures b[bid].filled + Unfilled(r) <= r.qty {
        assert o.Becomes(b[bid]);
      }
    } else {
      var more := if o.Final() then o else o.(filled := o.filled + 1);
      var b := if o.filled > r.filled.GetOr(0) then w.book else w.book[bid := more];
      assert BookEvolves(w.book, b);
    }
  }

  /** The re-read after the cancel is the last word when it gets through to a
      broker that has finished with the order. */
  lemma ResyncReadsFinal(w: World, id: nat, a: StaleReply)
    requires Inv(w) && id < |w.rows| && w.rows[id].status == Open && a.resync.ok
    requires var r := w.rows[id]; var w' := Advance(Advance(w, a.cancelBook), a.resync.book);
      r.brokerId.Some? && r.brokerId.value < |w'.book| && w'.book[r.brokerId.value].Final()
    ensures id < |Resynced(w, a).rows| && FinalRead(Resynced(w, a), id)
  {
    hide Advance, Inv;
    var w1 := Advance(w, a.cancelBook);
    var w2 := Advance(w1, a.resync.book);
    AdvanceKeeps(w, a.cancelBook);
    AdvanceKeeps(w1, a.resync.book);
    SyncRowsRead(w2, WithStatus(w.rows, Open), id);
  }

  lemma {:induction false} SyncRowsRead(w: World, ids: seq<nat>, id: nat)
    requires forall k :: 0 <= k < |ids| ==> ids[k] < |w.rows|
    requires forall j, k :: 0 <= j < k < |ids| ==> ids[j] < ids[k]
    requires id in ids && w.rows[id].brokerId.Some? && w.rows[id].brokerId.value < |w.book|
    ensures var r := SyncRows(w, ids).rows[id];
      && r.brokerId == w.rows[id].brokerId
      && r.filled == Some(w.book[r.brokerId.value].filled)
  {
    var n := |ids| - 1;
    var w1 := SyncRows(w, ids[..n]);
    if ids[n] == id {
      SyncRowsLeave(w, ids[..n], id);
    } else {
      assert id in ids[..n];
      SyncRowsRead(w, ids[..n], id);
    }
  }

  lemma {:induction false} SyncRowsLeave(w: World, ids: seq<nat>, id: nat)
    requires forall k :: 0 <= k < |ids| ==> ids[k] < |w.rows|
    requires id < |w.rows| && id !in ids
    ensures SyncRows(w, ids).rows[id] == w.rows[id]
  {
    if ids != [] {
      SyncRowsLeave(w, ids[..|ids| - 1], id);
    }
  }

  // ---- families over runs --------------------------------------------------

  /** Every retry asks for exactly what its finished original left unfilled. */
  predicate FamilyOk(w: World, c: nat)
    requires c < |w.rows|
  {
    w.rows[c].parent.Some? ==>
      var p := w.rows[c].parent.value;
      && p < c
      && w.rows[p].brokerId.Some? && w.rows[p].brokerId.value < |w.book|
      && w.book[w.rows[p].brokerId.value].Final()
      && w.book[w.rows[p].brokerId.value].filled + w.rows[c].qty == w.rows[p].qty
  }

  predicate FamiliesOk(w: World) {
    forall c :: 0 <= c < |w.rows| ==> FamilyOk(w, c)
  }

  lemma AgeingKeepsFamilies(w: World, w': World)
    requires Inv(w) && Ages(w, w') && FamiliesOk(w)
    requires forall c :: |w.rows| <= c < |w'.rows| ==> FamilyOk(w', c)
    ensures FamiliesOk(w')
  {
    forall c | 0 <= c < |w.rows| ensures FamilyOk(w', c) {
      assert FamilyOk(w, c) && RowAges(w.rows[c], w'.rows[c]);
      if w.rows[c].parent.Some? {
        var p := w.rows[c].parent.value;
        assert RowOk(w, p) && RowAges(w.rows[p], w'.rows[p]);
        assert w.book[w.rows[p].brokerId.value].Becomes(w'.book[w.rows[p].brokerId.value]);
      }
    }
  }

  /** Where the expiry reads the final fill, so does every retry it places. */
  predicate ReadsFinalAt(w: World, id: nat, now: int, a: StaleReply)
    requires id < |w.rows|
  {
    Stale(w.rows[id], now) && a.cancelOk && Retryable(Resynced(w, a).rows[id]) ==> FinalRead(Resynced(w, a), id)
  }

  lemma PlaceParent(w: World, req: Request, now: int, parent: Option<nat>, a: PlaceReply)
    ensures var w' := Place(w, req, now, parent, a);
      forall c :: |w.rows| <= c < |w'.rows| ==> w'.rows[c].parent == parent && w'.rows[c].qty == req.qty
  {
  }

  lemma RetireKeepsFamilies(w: World, id: nat, now: int, a: PlaceReply)
    requires Inv(w) && FamiliesOk(w) && id < |w.rows| && w.rows[id].status.AfterOpen()
    requires Retryable(w.rows[id]) ==> FinalRead(w, id)
    ensures FamiliesOk(Retire(w, id, now, a))
  {
    hide Place;
    var w' := Retire(w, id, now, a);
    var w2 := ReleaseIfDeployed(SetStatus(w, id, Expired), id);
    RetireKeeps(w, id, now, a);
    assert RowOk(w, id) && RowAges(w.rows[id], w'.rows[id]);
    PlaceParent(w2, RetryRequest(w.rows[id]), now, Some(id), a);
    forall c | |w.rows| <= c < |w'.rows| ensures FamilyOk(w', c) {
      var bid := w.rows[id].brokerId.value;
      assert w.book[bid].Becomes(w'.book[bid]);
    }
    AgeingKeepsFamilies(w, w');
  }

  lemma ExpireOneKeepsFamilies(w: World, id: nat, now: int, a: StaleReply)
    requires Inv(w) && FamiliesOk(w) && id < |w.rows| && w.rows[id].status.AfterOpen()
    requires ReadsFinalAt(w, id, now, a)
    ensures FamiliesOk(ExpireOne(w, id, now, a))
  {
    var w1 := Advance(w, a.cancelBook);
    AdvanceKeeps(w, a.cancelBook);
    SyncKeeps(w1, a.resync);
    AgesTransitive(w, w1, Resynced(w, a));
    AgeingKeepsFamilies(w, Resynced(w, a));
    if Stale(w.rows[id], now) && a.cancelOk {
      RetireKeepsFamilies(Resynced(w, a), id, now, a.retry);
    }
  }

  predicate ReadsFinalMidway(w: World, now: int, a: ExpireReply, k: nat)
    requires k < StaleCount(w, a)
  {
    var id := WithStatus(Prepared(w, a).rows, Open)[k];
    var m := Midway(w, now, a, k);
    id < |m.rows| && ReadsFinalAt(m, id, now, StaleAt(a.each, k))
  }

  predicate ReadsFinal(w: World, op: Op) {
    op.Expiring? ==>
      forall k :: 0 <= k < StaleCount(w, op.replies) ==> ReadsFinalMidway(w, op.now, op.replies, k)
  }

  lemma MidwayGrows(w: World, now: int, a: ExpireReply, k: nat)
    requires Inv(w) && k <= StaleCount(w, a)
    ensures Inv(Midway(w, now, a, k)) && Ages(Prepared(w, a), Midway(w, now, a, k))
  {
    hide Inv, Ages, Prepared, ExpireRows;
    PreparedKeeps(w, a);
    ExpireRowsKeeps(Prepared(w, a), WithStatus(Prepared(w, a).rows, Open)[..k], now, a.each);
  }

  lemma MidwayNext(w: World, now: int, a: ExpireReply, k: nat)
    requires Inv(w) && k < StaleCount(w, a)
    ensures var id := WithStatus(Prepared(w, a).rows, Open)[k]; var m := Midway(w, now, a, k);
      && id < |m.rows| && m.rows[id].status.AfterOpen()
      && Midway(w, now, a, k + 1) == ExpireOne(m, id, now, StaleAt(a.each, k))
  {
    hide Inv, Prepared, ExpireOne;
    MidwayGrows(w, now, a, k);
    var ids := WithStatus(Prepared(w, a).rows, Open);
    assert ids[..k + 1][..k] == ids[..k];
    assert RowAges(Prepared(w, a).rows[ids[k]], Midway(w, now, a, k).rows[ids[k]]);
  }

  lemma {:induction false} MidwayFamilies(w: World, now: int, a: ExpireReply, k: nat)
    requires Inv(w) && FamiliesOk(w) && ReadsFinal(w, Expiring(now, a)) && k <= StaleCount(w, a)
    ensures FamiliesOk(Midway(w, now, a, k))
  {
    hide Inv, FamiliesOk, Prepared, ExpireOne, ReadsFinalAt;
    if k == 0 {
      PreparedKeeps(w, a);
      AgeingKeepsFamilies(w, Prepared(w, a));
    } else {
      MidwayFamilies(w, now, a, k - 1);
      MidwayGrows(w, now, a, k - 1);
      MidwayNext(w, now, a, k - 1);
      assert ReadsFinalMidway(w, now, a, k - 1);
      var id := WithStatus(Prepared(w, a).rows, Open)[k - 1];
      ExpireOneKeepsFamilies(Midway(w, now, a, k - 1), id, now, StaleAt(a.each, k - 1));
    }
  }

  lemma ApplyKeepsFamilies(w: World, op: Op)
    requires Inv(w) && FamiliesOk(w) && ReadsFinal(w, op)
    ensures FamiliesOk(Apply(w, op))
  {
    hide Inv, FamiliesOk, Place, Sync, Cancel;
    ApplyKeeps(w, op);
    match op
    case Placing(req, now, reply) =>
      PlaceParent(w, req, now, None, reply);
      AgeingKeepsFamilies(w, Apply(w, op));
    case Syncing(_) => AgeingKeepsFamilies(w, Apply(w, op));
    case Expiring(now, a) =>
      MidwayFamilies(w, now, a, StaleCount(w, a));
      var ids := WithStatus(Prepared(w, a).rows, Open);
      assert ids[..|ids|] == ids;
    case Cancelling(id, b, ok) =>
      CancelGrowsNothing(w, id, b, ok);
      AgeingKeepsFamilies(w, Apply(w, op));
    case BrokerMoving(_) => AgeingKeepsFamilies(w, Apply(w, op));
  }

  lemma CancelGrowsNothing(w: World, id: nat, b: Book, ok: bool)
    ensures |Cancel(w, id, b, ok).rows| == |w.rows|
  {
  }

  lemma {:induction false} FamiliesOverRuns(ops: seq<Op>)
    requires forall n :: 0 <= n < |ops| ==> ReadsFinal(Run(START, ops[..n]), ops[n])
    ensures FamiliesOk(Run(START, ops))
  {
    hide ReadsFinal, Apply, FamiliesOk;
    if ops == [] {
      assert FamiliesOk(START) by { NoFamilies(); }
    } else {
      var prior := ops[..|ops| - 1];
      forall n | 0 <= n < |prior| ensures ReadsFinal(Run(START, prior[..n]), prior[n]) {
        assert prior[..n] == ops[..n];
      }
      FamiliesOverRuns(prior);
      RunKeeps(prior);
      ApplyKeepsFamilies(Run(START, prior), ops[|ops| - 1]);
    }
  }

  lemma NoFamilies()
    ensures FamiliesOk(START)
  {
  }

  /** Over every serial run whose expiries read the final fill, an original and any
      broker order placed for its retry never fill more than was asked for. */
  lemma {:induction false} NeverOverBuys(ops: seq<Op>, c: nat, k: nat)
    requires forall n :: 0 <= n < |ops| ==> ReadsFinal(Run(START, ops[..n]), ops[n])
    requires var w := Run(START, ops);
      c < |w.rows| && w.rows[c].parent.Some? && k < |w.book| && w.book[k].tag == Some(c)
    ensures var w := Run(START, ops); var p := w.rows[c].parent.value;
      && p < c && w.rows[p].brokerId.Some? && w.rows[p].brokerId.value < |w.book|
      && w.book[w.rows[p].brokerId.value].filled + w.book[k].filled <= w.rows[p].qty
  {
    hide Run;
    FamiliesOverRuns(ops);
    RunKeeps(ops);
    assert FamilyOk(Run(START, ops), c);
  }

  // ---- all the orders of a family ------------------------------------------

  /** With one broker order per tag, as the tagged submission keeps it, everything
      filled for an order and for its retry together stays within what was first
      asked for. */
  lemma FamilyNeverOverBuys(ops: seq<Op>, c: nat)
    requires forall n :: 0 <= n < |ops| ==> ReadsFinal(Run(START, ops[..n]), ops[n])
    requires var w := Run(START, ops);
      && c < |w.rows| && w.rows[c].parent.Some?
      && OnePerTag(w.book, c) && OnePerTag(w.book, w.rows[c].parent.value)
    ensures var w := Run(START, ops); var p := w.rows[c].parent.value;
      p < c && FilledOf(w.book, p) + FilledOf(w.book, c) <= w.rows[p].qty
  {
    hide Run, ReadsFinal;
    var w := Run(START, ops);
    FamiliesOverRuns(ops);
    RunKeeps(ops);
    assert FamilyOk(w, c);
    var p := w.rows[c].parent.value;
    assert RowOk(w, p);
    FilledOfOne(w.book, p, w.rows[p].brokerId.value);
    if k: nat :| k < |w.book| && w.book[k].tag == Some(c) {
      FilledOfOne(w.book, c, k);
    } else {
      FilledOfNone(w.book, c);
    }
  }
}
