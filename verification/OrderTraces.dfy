/** Concrete runs from the empty system on which the ledger, or the quantity
    bought, goes wrong: the cases the general theorems exclude. */
module OrderTraces {
  import opened Wrappers
  import opened OrderTypes
  import opened OrderLedger
  import opened OrderConservation

  function Buy10(symbol: string): Request {
    Request(symbol, Buy, 10, ENTRY)
  }

  function Resting10(tag: nat, filled: nat): BrokerOrder {
    BrokerOrder(Some(tag), 10, filled, BOpen)
  }

  const SILENT := ListReply([], false)
  const ACK := PlaceReply(true, true, Accepted, SILENT, true)
  const REFUSED := PlaceReply(false, true, Accepted, SILENT, true)

  function Expiry(each: StaleReply): Op {
    Expiring(300, ExpireReply([], SILENT, [each]))
  }

  lemma RunSnoc(ops: seq<Op>, op: Op)
    ensures Run(START, ops + [op]) == Apply(Run(START, ops), op)
  {
    assert (ops + [op])[..|ops|] == ops;
  }

  /** Two resting buys of ten; only the first is stale at 300 seconds. */
  lemma TwoResting() returns (ops: seq<Op>)
    ensures ops == [Placing(Buy10("A"), 0, ACK), Placing(Buy10("B"), 200, ACK)]
    ensures var w := Run(START, ops);
      && w.rows == [RestingRow("A", 0, 0), RestingRow("B", 200, 1)]
      && w.book == [Resting10(0, 0), Resting10(1, 0)]
      && Deployed(w, EMA) == 20
  {
    var first := Placing(Buy10("A"), 0, ACK);
    var second := Placing(Buy10("B"), 200, ACK);
    ops := [first, second];
    assert Run(START, []) == START;
    RunSnoc([], first);
    assert [] + [first] == [first];
    var w1 := Run(START, [first]);
    assert w1.rows == [RestingRow("A", 0, 0)] && w1.book == [Resting10(0, 0)] && Deployed(w1, EMA) == 10;
    RunSnoc([first], second);
    assert [first] + [second] == ops;
  }

  function RestingRow(symbol: string, created: int, bid: nat): Row {
    Row(symbol, Buy, 10, Open, Some(bid), None, created, ENTRY, true, None)
  }

  lemma StatusOfTwo(rows: seq<Row>, st: Status)
    requires |rows| == 2
    ensures WithStatus(rows, st) ==
      (if rows[0].status == st then [0] else []) + (if rows[1].status == st then [1] else [])
  {
    var one := rows[..1];
    assert one[..0] == [];
    assert WithStatus(one, st) == if rows[0].status == st then [0] else [];
  }

  lemma BothOpen(rows: seq<Row>)
    requires |rows| == 2 && rows[0].status == Open && rows[1].status == Open
    ensures WithStatus(rows, Open) == [0, 1] && WithStatus(rows, PendingVerification) == []
  {
    hide WithStatus;
    StatusOfTwo(rows, Open);
    StatusOfTwo(rows, PendingVerification);
  }

  /** An expiry at 300 seconds of a world with two open rows, the second fresh. */
  lemma {:induction false} ExpiryOfFirst(w: World, each: StaleReply)
    requires |w.rows| == 2 && w.rows[0].status == Open && w.rows[1].status == Open
    requires w.rows[1].created == 200 && w.rows[0].created == 0
    requires var e := ExpireOne(w, 0, 300, each); |e.rows| >= 2 && e.rows[1].created == 200
    requires w.book != []
    ensures Expire(w, 300, ExpireReply([], SILENT, [each])) == ExpireOne(w, 0, 300, each)
  {
    hide Resynced, Retire;
    BothOpen(w.rows);
    var a := ExpireReply([], SILENT, [each]);
    assert Advance(w, []) == w;
    assert Prepared(w, a) == w;
    assert [0, 1][..1] == [0] && [0][..0] == [];
    assert ExpireRows(w, [0], 300, [each]) == ExpireOne(w, 0, 300, each);
    assert ExpireRows(w, [0, 1], 300, [each]) == ExpireOne(ExpireRows(w, [0], 300, [each]), 1, 300, StaleAt([each], 1));
  }

  /** The broker cancels the stale order and says so in the re-read: its
      remainder is released by that re-read and again on expiry, so that the
      ledger forgets ten the other order still holds. */
  lemma RemainderReleasedTwice() returns (ops: seq<Op>)
    ensures forall n :: 0 <= n < |ops| ==> Audited(ops[n])
    ensures var w := Run(START, ops);
      Deployed(w, EMA) == 0 && Committed(w.rows, EMA) == 10 && !Conserved(w)
  {
    hide Run, Expire, Resynced, Retire, Committed, Deployed;
    var resting := TwoResting();
    var w := Run(START, resting);
    var after := [BrokerOrder(Some(0), 10, 0, BCancelled), Resting10(1, 0)];
    var each := StaleReply(w.book, true, ListReply(after, true), REFUSED);
    ops := resting + [Expiry(each)];
    RunSnoc(resting, Expiry(each));
    SyncedTwice(w, after, each);
    var e := ExpireOne(w, 0, 300, each);
    assert e == Retire(Resynced(w, each), 0, 300, each.retry);
    RetiredAgain(Resynced(w, each), each.retry);
    ExpiryOfFirst(w, each);
    assert Run(START, ops) == e;
  }

  /** The second release, and a retry the risk check refuses. */
  lemma RetiredAgain(w: World, a: PlaceReply)
    requires w.rows == [RestingRow("A", 0, 0).(status := Cancelled, filled := Some(0)),
                        RestingRow("B", 200, 1).(filled := Some(0))]
    requires Deployed(w, EMA) == 10 && a == REFUSED
    ensures var e := Retire(w, 0, 300, a);
      |e.rows| == 3 && e.rows[1] == w.rows[1] && Deployed(e, EMA) == 0 && Committed(e.rows, EMA) == 10
  {
    var e := Retire(w, 0, 300, a);
    assert e.rows[..2][..1] == e.rows[..1] && e.rows[..1][..0] == [];
    assert Stake(e.rows[0], EMA) == 0 && Stake(e.rows[1], EMA) == 10 && Stake(e.rows[2], EMA) == 0;
    assert Committed(e.rows[..1], EMA) == 0;
    assert Committed(e.rows[..2], EMA) == 10;
  }

  lemma SyncedTwice(w: World, after: Book, each: StaleReply)
    requires w.rows == [RestingRow("A", 0, 0), RestingRow("B", 200, 1)]
    requires w.book == [Resting10(0, 0), Resting10(1, 0)] && Deployed(w, EMA) == 20
    requires after == [BrokerOrder(Some(0), 10, 0, BCancelled), Resting10(1, 0)]
    requires each == StaleReply(w.book, true, ListReply(after, true), REFUSED)
    ensures Resynced(w, each).rows == [RestingRow("A", 0, 0).(status := Cancelled, filled := Some(0)),
                                       RestingRow("B", 200, 1).(filled := Some(0))]
    ensures Deployed(Resynced(w, each), EMA) == 10
  {
    hide SyncRow, Advance, Resynced;
    var a := w.(book := after);
    BrokerCancels(w, after);
    ResyncOfTwo(w, after, each);
    FirstSynced(a);
    SecondSynced(SyncRow(a, 0));
  }

  lemma BrokerCancels(w: World, after: Book)
    requires w.rows == [RestingRow("A", 0, 0), RestingRow("B", 200, 1)]
    requires w.book == [Resting10(0, 0), Resting10(1, 0)]
    requires after == [BrokerOrder(Some(0), 10, 0, BCancelled), Resting10(1, 0)]
    ensures Advance(w, after) == w.(book := after)
  {
  }

  lemma FirstSynced(a: World)
    requires a.rows == [RestingRow("A", 0, 0), RestingRow("B", 200, 1)] && Deployed(a, EMA) == 20
    requires a.book == [BrokerOrder(Some(0), 10, 0, BCancelled), Resting10(1, 0)]
    ensures var s := SyncRow(a, 0);
      && s.rows == [RestingRow("A", 0, 0).(status := Cancelled, filled := Some(0)), RestingRow("B", 200, 1)]
      && s.book == a.book && Deployed(s, EMA) == 10
  {
  }

  lemma SecondSynced(s: World)
    requires |s.rows| == 2 && s.rows[1] == RestingRow("B", 200, 1) && |s.book| == 2 && s.book[1] == Resting10(1, 0)
    ensures SyncRow(s, 1) == s.(rows := s.rows[1 := RestingRow("B", 200, 1).(filled := Some(0))])
  {
  }

  lemma ResyncOfTwo(w: World, after: Book, each: StaleReply)
    requires |w.rows| == 2 && w.rows[0].status == Open && w.rows[1].status == Open
    requires each.cancelBook == w.book && each.resync == ListReply(after, true)
    requires Advance(w, after) == w.(book := after)
    ensures Resynced(w, each) == SyncRow(SyncRow(w.(book := after), 0), 1)
  {
    hide SyncRows, SyncRow, BookEvolves, BookFits;
    BothOpen(w.rows);
    SyncOfTwo(w.(book := after));
  }

  lemma {:induction false} SyncOfTwo(a: World)
    requires |a.rows| == 2
    ensures SyncRows(a, [0, 1]) == SyncRow(SyncRow(a, 0), 1)
  {
    hide SyncRow;
    assert [0, 1][..1] == [0] && [0][..0] == [];
    assert SyncRows(a, [0]) == SyncRow(a, 0);
  }

  /** Three of the ten fill just before the cancel and the re-read fails: the
      retry asks for all ten again and thirteen are bought. */
  lemma StaleReadOverBuys() returns (ops: seq<Op>)
    ensures forall n :: 0 <= n < |ops| ==> Audited(ops[n])
    ensures var w := Run(START, ops);
      && |w.rows| == 3 && w.rows[2].parent == Some(0)
      && w.rows[0].brokerId == Some(0) && w.rows[2].brokerId == Some(2) && |w.book| == 3
      && w.book[0].filled + w.book[2].filled == 13 > w.rows[0].qty
  {
    hide Run, Expire, Resynced, Retire, Advance, Deployed;
    var resting := TwoResting();
    var w := Run(START, resting);
    var cancelled := [BrokerOrder(Some(0), 10, 3, BCancelled), Resting10(1, 0)];
    var each := StaleReply(cancelled, true, SILENT, ACK);
    var done := cancelled + [BrokerOrder(Some(2), 10, 10, BComplete)];
    var soFar := resting + [Expiry(each)];
    RunSnoc(resting, Expiry(each));
    ops := soFar + [BrokerMoving(done)];
    RunSnoc(soFar, BrokerMoving(done));
    var moved := w.(book := cancelled);
    SilentResync(w, each);
    var e := ExpireOne(w, 0, 300, each);
    RetryAfterSilence(moved);
    ExpiryOfFirst(w, each);
    assert Run(START, soFar) == e;
    RetryFills(e, done);
  }

  /** The cancel is confirmed three fills late and the re-read fails. */
  lemma SilentResync(w: World, each: StaleReply)
    requires w.rows == [RestingRow("A", 0, 0), RestingRow("B", 200, 1)]
    requires w.book == [Resting10(0, 0), Resting10(1, 0)]
    requires each == StaleReply([BrokerOrder(Some(0), 10, 3, BCancelled), Resting10(1, 0)], true, SILENT, ACK)
    ensures Resynced(w, each) == w.(book := each.cancelBook)
  {
    BothOpen(w.rows);
    assert Advance(w, each.cancelBook) == w.(book := each.cancelBook);
  }

  lemma RetryFills(e: World, done: Book)
    requires e.book == [BrokerOrder(Some(0), 10, 3, BCancelled), Resting10(1, 0), Resting10(2, 0)]
    requires done == [e.book[0], e.book[1], BrokerOrder(Some(2), 10, 10, BComplete)]
    requires |e.rows| == 3 && forall i :: 0 <= i < 3 ==> e.rows[i].qty == 10
    ensures Advance(e, done) == e.(book := done)
  {
  }

  lemma RetryAfterSilence(moved: World)
    requires moved.rows == [RestingRow("A", 0, 0), RestingRow("B", 200, 1)]
    requires moved.book == [BrokerOrder(Some(0), 10, 3, BCancelled), Resting10(1, 0)]
    ensures var e := Retire(moved, 0, 300, ACK);
      && e.book == moved.book + [Resting10(2, 0)]
      && e.rows == [RestingRow("A", 0, 0).(status := Expired), RestingRow("B", 200, 1),
                    Row("A", Buy, 10, Open, Some(2), None, 300, Context(Some(EMA), false, false, true), true, Some(0))]
  {
  }
}
