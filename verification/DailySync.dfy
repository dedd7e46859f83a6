/** The daily reconciliation of the orders table with the broker's book: heal,
    insert or correct, one broker order at a time. */
module DailySync {
  import opened Wrappers
  import opened Reals
  import opened OrderTypes

  /** How the broker spells a status, as far as the mapping tells them apart. */
  datatype Reported = Filled | Cancelled | Rejected | Other

  function MapStatus(s: Reported): Status {
    match s
    case Filled => Completed
    case Cancelled => Status.Cancelled
    case Rejected => Status.Rejected
    case Other => Open
  }

  /** An order of today's book; a missing id or average price is `None`. */
  datatype Report = Report(
    id: Option<nat>, symbol: string, side: Side, qty: nat, price: Option<real>, average: Option<real>, status: Reported,
    dbFails: bool)

  datatype Record = Record(
    brokerId: Option<nat>, symbol: string, side: Side, qty: nat,
    price: Option<real>, fill: Option<real>, status: Status)

  type Table = seq<Record>

  datatype Counts = Counts(checked: nat, inserted: nat, corrected: nat, failed: nat)

  predicate SameFill(r: Record, average: Option<real>) {
    average.None? || (r.fill.Some? && Abs(r.fill.value - average.value) <= 0.01)
  }

  predicate Stuck(r: Record, b: Report) {
    r.status == Pending && r.brokerId.None? && r.symbol == b.symbol && r.side == b.side && r.qty == b.qty
  }

  /** The first row carrying the broker's id, if any. */
  function FirstMatch(rows: Table, id: nat): (i: nat)
    ensures i <= |rows| && (i < |rows| ==> rows[i].brokerId == Some(id))
    ensures forall k :: 0 <= k < i ==> rows[k].brokerId != Some(id)
  {
    if rows == [] then 0
    else
      var i := FirstMatch(rows[..|rows| - 1], id);
      if i < |rows| - 1 then i
      else if rows[|rows| - 1].brokerId == Some(id) then |rows| - 1
      else |rows|
  }

  function FirstStuck(rows: Table, b: Report): (i: nat)
    ensures i <= |rows| && (i < |rows| ==> Stuck(rows[i], b))
    ensures forall k :: 0 <= k < i ==> !Stuck(rows[k], b)
  {
    if rows == [] then 0
    else
      var i := FirstStuck(rows[..|rows| - 1], b);
      if i < |rows| - 1 then i
      else if Stuck(rows[|rows| - 1], b) then |rows| - 1
      else |rows|
  }

  /** The row for a broker order with no match: a stuck one healed, or a new one. */
  function Adopted(rows: Table, b: Report): Table
    requires b.id.Some?
  {
    var j := FirstStuck(rows, b);
    if j < |rows| then rows[j := rows[j].(brokerId := b.id, status := MapStatus(b.status), fill := b.average)]
    else
      var price := if b.price.Some? then b.price else b.average;
      rows + [Record(b.id, b.symbol, b.side, b.qty, price, b.average, MapStatus(b.status))]
  }

  function Corrected(r: Record, b: Report): Record {
    r.(fill := if SameFill(r, b.average) then r.fill else b.average, status := MapStatus(b.status))
  }

  /** One order reconciled, when the database holds. */
  function ReconcileOne(rows: Table, b: Report): Table {
    if b.id.None? || b.dbFails then rows
    else
      var i := FirstMatch(rows, b.id.value);
      if i == |rows| then Adopted(rows, b) else rows[i := Corrected(rows[i], b)]
  }

  function Reconcile(rows: Table, bs: seq<Report>): Table {
    if bs == [] then rows else ReconcileOne(Reconcile(rows, bs[..|bs| - 1]), bs[|bs| - 1])
  }

  /** How many reports carry an id, and for how many of those the database fails. */
  function Checked(bs: seq<Report>): nat {
    if bs == [] then 0 else Checked(bs[..|bs| - 1]) + if bs[|bs| - 1].id.Some? then 1 else 0
  }

  function Failures(bs: seq<Report>): nat {
    if bs == [] then 0
    else Failures(bs[..|bs| - 1]) + if bs[|bs| - 1].id.Some? && bs[|bs| - 1].dbFails then 1 else 0
  }

  /** How many reports change the table in their turn. */
  function Changes(rows: Table, bs: seq<Report>): nat {
    if bs == [] then 0
    else
      var before := Reconcile(rows, bs[..|bs| - 1]);
      Changes(rows, bs[..|bs| - 1]) + if ReconcileOne(before, bs[|bs| - 1]) != before then 1 else 0
  }

  /** The orders table as the repository holds it. */
  class OrderRepo {
    var rows: Table

    method SyncOrdersFromZerodha(bs: seq<Report>) returns (c: Counts)
      modifies this
      ensures rows == Reconcile(old(rows), bs)
      ensures |rows| == |old(rows)| + c.inserted
      ensures c.checked == Checked(bs) && c.failed == Failures(bs)
      ensures c.inserted + c.corrected == Changes(old(rows), bs)
    {
      c := Counts(0, 0, 0, 0);
      for n := 0 to |bs|
        invariant rows == Reconcile(old(rows), bs[..n])
        invariant |rows| == |old(rows)| + c.inserted
        invariant c.checked == Checked(bs[..n]) && c.failed == Failures(bs[..n])
        invariant c.inserted + c.corrected == Changes(old(rows), bs[..n])
      {
        var b := bs[n];
        assert bs[..n + 1][..n] == bs[..n];
        if b.id.Some? {
          c := c.(checked := c.checked + 1);
          if b.dbFails {
            c := c.(failed := c.failed + 1);
          } else {
            var i := FirstMatch(rows, b.id.value);
            if i == |rows| {
              var j := FirstStuck(rows, b);
              c := if j < |rows| then c.(corrected := c.corrected + 1) else c.(inserted := c.inserted + 1);
              rows := Adopted(rows, b);
            } else if !SameFill(rows[i], b.average) || rows[i].status != MapStatus(b.status) {
              c := c.(corrected := c.corrected + 1);
              rows := rows[i := Corrected(rows[i], b)];
            }
          }
        }
      }
      assert bs[..|bs|] == bs;
    }
  }

  // ---- convergence ---------------------------------------------------------

  /** The table already says of an order what the broker says. */
  predicate Settled(rows: Table, b: Report) {
    b.id.Some? ==>
      var i := FirstMatch(rows, b.id.value);
      && i < |rows| && SameFill(rows[i], b.average)
      && (rows[i].status == Completed <==> b.status == Filled)
      && (rows[i].status == Status.Cancelled <==> b.status == Reported.Cancelled)
      && (rows[i].status == Status.Rejected <==> b.status == Reported.Rejected)
      && (rows[i].status == Open <==> b.status == Other)
  }

  lemma MatchAt(rows: Table, id: nat, i: nat)
    requires i <= |rows| && (i < |rows| ==> rows[i].brokerId == Some(id))
    requires forall k :: 0 <= k < i ==> rows[k].brokerId != Some(id)
    ensures FirstMatch(rows, id) == i
  {
  }

  lemma ReconciledIsSettled(rows: Table, b: Report)
    requires !b.dbFails
    ensures Settled(ReconcileOne(rows, b), b)
    ensures Settled(rows, b) ==> ReconcileOne(rows, b) == rows
  {
    if b.id.Some? {
      var after := ReconcileOne(rows, b);
      var i := FirstMatch(rows, b.id.value);
      if i < |rows| {
        MatchAt(after, b.id.value, i);
      } else {
        MatchAt(after, b.id.value, FirstStuck(rows, b));
      }
    }
  }

  /** One order reconciled: its row keeps a fill within a paisa of the broker's and
      takes the broker's otherwise; without a row, the first one stuck in PENDING for
      the same order is attached to it; failing that, one row is added. Nothing else
      changes, and nothing at all when the database fails. */
  lemma ReconciledIs(rows: Table, b: Report)
    ensures var after, j := ReconcileOne(rows, b), FirstStuck(rows, b);
      var i := if b.id.Some? then FirstMatch(rows, b.id.value) else 0;
      && (b.id.None? || b.dbFails ==> after == rows)
      && (b.id.Some? && !b.dbFails && i < |rows| ==>
          && |after| == |rows| && (forall k :: 0 <= k < |rows| && k != i ==> after[k] == rows[k])
          && after[i].fill ==
             if b.average.None? || (rows[i].fill.Some? && Abs(rows[i].fill.value - b.average.value) <= 0.01)
             then rows[i].fill else b.average)
      && (b.id.Some? && !b.dbFails && i == |rows| && j < |rows| ==>
          && |after| == |rows| && (forall k :: 0 <= k < |rows| && k != j ==> after[k] == rows[k])
          && after[j].brokerId == b.id && after[j].fill == b.average
          && rows[j].status == Pending && rows[j].brokerId.None?
          && rows[j].symbol == b.symbol && rows[j].side == b.side && rows[j].qty == b.qty)
      && (b.id.Some? && !b.dbFails && i == |rows| && j == |rows| ==>
          && |after| == |rows| + 1 && after[..|rows|] == rows
          && (forall k :: 0 <= k < |rows| ==>
                || rows[k].status != Pending || rows[k].brokerId.Some?
                || rows[k].symbol != b.symbol || rows[k].side != b.side || rows[k].qty != b.qty)
          && after[|rows|].brokerId == b.id && after[|rows|].symbol == b.symbol && after[|rows|].side == b.side
          && after[|rows|].qty == b.qty && after[|rows|].fill == b.average
          && after[|rows|].price == if b.price.Some? then b.price else b.average)
  {
  }

  /** Reconciling one order leaves what is settled about another settled. */
  lemma SettledStays(rows: Table, b: Report, other: Report)
    requires other.id != b.id && Settled(rows, other)
    ensures Settled(ReconcileOne(rows, b), other)
  {
    if other.id.Some? {
      MatchAt(ReconcileOne(rows, b), other.id.value, FirstMatch(rows, other.id.value));
    }
  }

  predicate Clean(bs: seq<Report>) {
    && (forall i :: 0 <= i < |bs| ==> !bs[i].dbFails)
    && forall i, j :: 0 <= i < j < |bs| && bs[i].id.Some? ==> bs[i].id != bs[j].id
  }

  /** A failure-free run settles every order of the book. */
  lemma {:induction false} RunSettles(rows: Table, bs: seq<Report>)
    requires Clean(bs)
    ensures forall i :: 0 <= i < |bs| ==> Settled(Reconcile(rows, bs), bs[i])
  {
    if bs != [] {
      var n := |bs| - 1;
      var before := Reconcile(rows, bs[..n]);
      RunSettles(rows, bs[..n]);
      ReconciledIsSettled(before, bs[n]);
      forall i | 0 <= i < |bs| ensures Settled(Reconcile(rows, bs), bs[i]) {
        if i < n && bs[i].id.Some? {
          assert bs[..n][i] == bs[i];
          SettledStays(before, bs[n], bs[i]);
        }
      }
    }
  }

  lemma {:induction false} SettledIsFixed(rows: Table, bs: seq<Report>)
    requires Clean(bs) && forall i :: 0 <= i < |bs| ==> Settled(rows, bs[i])
    ensures Reconcile(rows, bs) == rows
  {
    if bs != [] {
      var n := |bs| - 1;
      forall i | 0 <= i < n ensures Settled(rows, bs[..n][i]) {
        assert bs[..n][i] == bs[i];
      }
      SettledIsFixed(rows, bs[..n]);
      ReconciledIsSettled(rows, bs[n]);
    }
  }

  /** So a second failure-free run over the same book changes nothing. */
  lemma SecondRunIsIdle(rows: Table, bs: seq<Report>)
    requires Clean(bs)
    ensures Reconcile(Reconcile(rows, bs), bs) == Reconcile(rows, bs)
  {
    RunSettles(rows, bs);
    SettledIsFixed(Reconcile(rows, bs), bs);
  }

  /** A row is only ever touched as the match or the stuck twin of a reported
      order, and never changes what was ordered. */
  lemma {:induction false} OthersUntouched(rows: Table, bs: seq<Report>, k: nat)
    requires k < |rows|
    ensures var after := Reconcile(rows, bs);
      && k < |after|
      && after[k].symbol == rows[k].symbol && after[k].side == rows[k].side && after[k].qty == rows[k].qty
      && (after[k] == rows[k]
          || exists i :: 0 <= i < |bs| && bs[i].id.Some? && after[k].brokerId == bs[i].id
               && (rows[k].brokerId == bs[i].id || Stuck(rows[k], bs[i])))
  {
    if bs != [] {
      var n := |bs| - 1;
      OthersUntouched(rows, bs[..n], k);
      var before := Reconcile(rows, bs[..n]);
      if before[k] != rows[k] {
        var i :| 0 <= i < n && bs[..n][i].id.Some? && before[k].brokerId == bs[..n][i].id
                 && (rows[k].brokerId == bs[..n][i].id || Stuck(rows[k], bs[..n][i]));
        assert bs[i] == bs[..n][i];
        assert Reconcile(rows, bs)[k].brokerId == before[k].brokerId;
      }
    }
  }
}
