/** Records shared by the two models of the order management system: the order
    rows, the placement context kept in the audit log, and the broker's book. */
module OrderTypes {

  import opened Wrappers

  datatype Side = Buy | Sell

  datatype Status =
    | Pending
    | RejectedByRisk
    | PendingVerification
    | Open
    | Failed
    | Completed
    | Cancelled
    | Rejected
    | Expired
  {
    /** The statuses a row can only have after the broker accepted its order. */
    predicate AfterOpen() {
      Open? || Completed? || Cancelled? || Rejected? || Expired?
    }
  }

  /** What the ORDER_RECEIVED audit entry remembers of a placement. */
  datatype Context = Context(strategy: Option<string>, isExit: bool, isSpreadLeg: bool, isRetry: bool)

  /** A row of the orders table; its id is its position in the table.
      `ctx` is the placement as requested, `audited` says whether the audit
      lookup finds it, and `parent` is the expired order a retry replaces. */
  datatype Row = Row(
    symbol: string, side: Side, qty: nat, status: Status,
    brokerId: Option<nat>, filled: Option<nat>, created: int,
    ctx: Context, audited: bool, parent: Option<nat>)

  /** Capital is reserved for single-leg buys made on behalf of a strategy. */
  predicate Reserves(side: Side, ctx: Context) {
    side == Buy && ctx.strategy.Some? && !ctx.isSpreadLeg
  }

  function Unfilled(r: Row): nat {
    if r.qty < r.filled.GetOr(0) then 0 else r.qty - r.filled.GetOr(0)
  }

  const EMA := "ema_crossover_v1"

  /** The placement of a single-leg entry on behalf of a strategy. */
  const ENTRY := Context(Some(EMA), false, false, false)

  const MULTI_LEG_STRATEGIES: set<string> := {"credit_spread_v1", "iron_condor_v1"}

  /** What the audit entry must say for an expired order to be retried. */
  predicate RetryEligible(r: Row) {
    && r.audited
    && !r.ctx.isSpreadLeg
    && !r.ctx.isRetry
    && (r.ctx.isExit || r.ctx.strategy.None? || r.ctx.strategy.value !in MULTI_LEG_STRATEGIES)
  }

  /** Whether an expired order is submitted once more. */
  predicate Retryable(r: Row) {
    Unfilled(r) > 0 && RetryEligible(r)
  }

  /** A retry is its original again, for what was left: the same symbol, side,
      strategy and exit flag, never a spread leg, and marked a retry. */
  predicate Heir(p: Row, c: Row) {
    && c.symbol == p.symbol && c.side == p.side
    && c.ctx.strategy == p.ctx.strategy && c.ctx.isExit == p.ctx.isExit
    && !c.ctx.isSpreadLeg && c.ctx.isRetry && 0 < c.qty <= p.qty
  }

  /** The ids of the rows in a given status, in table order. */
  function WithStatus(rows: seq<Row>, st: Status): (ids: seq<nat>)
    ensures forall k :: 0 <= k < |ids| ==> ids[k] < |rows| && rows[ids[k]].status == st
    ensures forall j, k :: 0 <= j < k < |ids| ==> ids[j] < ids[k]
    ensures forall i :: 0 <= i < |rows| && rows[i].status == st ==> i in ids
  {
    if rows == [] then []
    else
      var n := |rows| - 1;
      var rest := WithStatus(rows[..n], st);
      if rows[n].status == st then rest + [n] else rest
  }

  datatype BrokerStatus = BOpen | BComplete | BCancelled | BRejected

  /** An order at the broker; its id is its position in the book. */
  datatype BrokerOrder = BrokerOrder(tag: Option<nat>, qty: nat, filled: nat, status: BrokerStatus) {
    predicate Live() {
      !status.BRejected? && !status.BCancelled?
    }
    predicate Final() {
      !status.BOpen?
    }
    predicate Sound() {
      filled <= qty && (status.BComplete? ==> filled == qty)
    }
    /** A resting order only fills further; a finished one never changes. */
    predicate Becomes(next: BrokerOrder) {
      && next.tag == tag && next.qty == qty
      && filled <= next.filled && next.Sound()
      && (Final() ==> next == this)
    }
  }

  type Book = seq<BrokerOrder>

  function MapBrokerStatus(s: BrokerStatus): Status {
    match s
    case BOpen => Open
    case BComplete => Completed
    case BCancelled => Cancelled
    case BRejected => Rejected
  }

  /** The first live order of the book carrying `tag`. */
  function FindLive(book: Book, tag: nat): (r: Option<nat>)
    ensures r.Some? ==> r.value < |book| && book[r.value].tag == Some(tag) && book[r.value].Live()
    ensures r.None? ==> forall k :: 0 <= k < |book| && book[k].tag == Some(tag) ==> !book[k].Live()
  {
    FindLiveFrom(book, tag, 0)
  }

  function FindLiveFrom(book: Book, tag: nat, from: nat): (r: Option<nat>)
    requires from <= |book|
    ensures r.Some? ==> from <= r.value < |book| && book[r.value].tag == Some(tag) && book[r.value].Live()
    ensures r.None? ==> forall k :: from <= k < |book| && book[k].tag == Some(tag) ==> !book[k].Live()
    decreases |book| - from
  {
    if from == |book| then None
    else if book[from].tag == Some(tag) && book[from].Live() then Some(from)
    else FindLiveFrom(book, tag, from + 1)
  }

  /** What all the broker orders with a tag have filled together. */
  function FilledOf(book: Book, tag: nat): nat {
    if book == [] then 0
    else
      var o := book[|book| - 1];
      FilledOf(book[..|book| - 1], tag) + if o.tag == Some(tag) then o.filled else 0
  }

  predicate OnePerTag(book: Book, tag: nat) {
    forall j, k :: 0 <= j < k < |book| && book[j].tag == Some(tag) ==> book[k].tag != Some(tag)
  }

  lemma {:induction false} FilledOfNone(book: Book, tag: nat)
    requires forall k :: 0 <= k < |book| ==> book[k].tag != Some(tag)
    ensures FilledOf(book, tag) == 0
  {
    if book != [] { FilledOfNone(book[..|book| - 1], tag); }
  }

  lemma {:induction false} FilledOfOne(book: Book, tag: nat, k: nat)
    requires OnePerTag(book, tag) && k < |book| && book[k].tag == Some(tag)
    ensures FilledOf(book, tag) == book[k].filled
  {
    var n := |book| - 1;
    if k == n {
      FilledOfNone(book[..n], tag);
    } else {
      FilledOfOne(book[..n], tag, k);
    }
  }
}
