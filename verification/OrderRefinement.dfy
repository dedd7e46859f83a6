/** Every serial run is an interleaved run. The operations of OrderLedger, taken
    one after another, are schedules of the tasks of OrderInterleaving with the
    ledger calls of InterleavedLedger: the same rows, book and ledger come out, so
    what is proved of every schedule is proved of them too. The broker moves
    between the calls and stands still during one. */
module OrderRefinement {
  import opened Wrappers
  import opened OrderTypes
  import opened OrderLedger
  import Serial = OrderConservation
  import I = OrderInterleaving
  import L = InterleavedLedger

  // ---- schedules -----------------------------------------------------------

  function Then(b: L.Books, ms: seq<L.Move>): L.Books
    decreases |ms|
  {
    if ms == [] then b else Then(L.Next(b, ms[0]), ms[1..])
  }

  ghost predicate Reaches(b: L.Books, c: L.Books) {
    exists ms :: Then(b, ms) == c
  }

  lemma Stays(b: L.Books)
    ensures Reaches(b, b)
  {
    assert Then(b, []) == b;
  }

  lemma {:induction false} ThenConcat(b: L.Books, ms: seq<L.Move>, more: seq<L.Move>)
    ensures Then(b, ms + more) == Then(Then(b, ms), more)
    decreases |ms|
  {
    if ms == [] {
      assert ms + more == more;
    } else {
      assert (ms + more)[0] == ms[0] && (ms + more)[1..] == ms[1..] + more;
      ThenConcat(L.Next(b, ms[0]), ms[1..], more);
    }
  }

  lemma Onward(b: L.Books, c: L.Books, d: L.Books)
    requires Reaches(b, c) && Reaches(c, d)
    ensures Reaches(b, d)
  {
    var ms :| Then(b, ms) == c;
    var more :| Then(c, more) == d;
    ThenConcat(b, ms, more);
  }

  lemma Moves(b: L.Books, c: L.Books, m: L.Move)
    requires Reaches(b, c)
    ensures Reaches(b, L.Next(c, m))
  {
    hide L.Next;
    assert [m][0] == m && [m][1..] == [];
    assert Then(c, [m]) == Then(L.Next(c, m), []);
    assert Then(c, [m]) == L.Next(c, m);
    Onward(b, c, L.Next(c, m));
  }

  lemma Goes(b: L.Books, c: L.Books, m: L.Move, d: L.Books)
    requires Reaches(b, c) && L.Next(c, m) == d
    ensures Reaches(b, d)
  {
    hide Reaches, L.Next;
    Moves(b, c, m);
  }

  lemma {:induction false} RunIsThen(ms: seq<L.Move>)
    ensures L.Run(ms) == Then(L.EMPTY, ms)
  {
    hide L.Next;
    if ms != [] {
      var n := |ms| - 1;
      RunIsThen(ms[..n]);
      assert ms == ms[..n] + [ms[n]];
      ThenConcat(L.EMPTY, ms[..n], [ms[n]]);
      assert [ms[n]][1..] == [];
      assert Then(Then(L.EMPTY, ms[..n]), [ms[n]]) == L.Next(Then(L.EMPTY, ms[..n]), ms[n]);
    }
  }

  // ---- the states between operations ---------------------------------------

  /** The interleaved model keeps no creation times. */
  function Timeless(rows: seq<Row>): (r: seq<Row>)
    ensures |r| == |rows| && forall i :: 0 <= i < |rows| ==> r[i] == rows[i].(created := 0)
  {
    if rows == [] then [] else Timeless(rows[..|rows| - 1]) + [rows[|rows| - 1].(created := 0)]
  }

  /** No task but the expiry is under way, and no ledger call is due. */
  function Quiet(w: World, e: I.Expiring): L.Books {
    L.Books(I.State(Timeless(w.rows), w.book, {}, map[], map[], I.Unlocked, e), w.deployed, [])
  }

  /** One placement is under way as well. */
  function Busy(w: World, id: nat, p: I.Placing, flying: set<nat>, e: I.Expiring): L.Books {
    L.Books(I.State(Timeless(w.rows), w.book, flying, map[id := p], map[], I.Unlocked, e), w.deployed, [])
  }

  /** A sync is under way. */
  function Syncs(w: World, sync: I.Syncing, e: I.Expiring): L.Books {
    L.Books(I.State(Timeless(w.rows), w.book, {}, map[], map[], sync, e), w.deployed, [])
  }

  lemma SameRows(a: seq<Row>, b: seq<Row>)
    requires |a| == |b| && forall i :: 0 <= i < |a| ==> a[i] == b[i]
    ensures a == b
  {
  }

  lemma TimelessSet(rows: seq<Row>, i: nat, r: Row)
    requires i < |rows|
    ensures Timeless(rows[i := r]) == Timeless(rows)[i := r.(created := 0)]
  {
    SameRows(Timeless(rows[i := r]), Timeless(rows)[i := r.(created := 0)]);
  }

  lemma TimelessAdd(rows: seq<Row>, r: Row)
    ensures Timeless(rows + [r]) == Timeless(rows) + [r.(created := 0)]
  {
    SameRows(Timeless(rows + [r]), Timeless(rows) + [r.(created := 0)]);
  }

  lemma {:induction false} TimelessStatus(rows: seq<Row>, st: Status)
    ensures WithStatus(Timeless(rows), st) == WithStatus(rows, st)
  {
    if rows != [] {
      var n := |rows| - 1;
      TimelessStatus(rows[..n], st);
      assert Timeless(rows)[..n] == Timeless(rows[..n]);
    }
  }

  /** A call for row `id` that finds its audit entry, or dies without it. */
  lemma Call(b: L.Books, d: L.Due, made: bool)
    requires b.due == [d]
    ensures Reaches(b, b.(due := [], deployed := if made then L.Performed(b.deployed, d) else b.deployed))
  {
    Stays(b);
    assert L.Without(b.due, 0) == [];
    Moves(b, b, if made then L.Perform(0) else L.Drop(0));
  }

  // ---- place_order ---------------------------------------------------------

  /** A row as place_order finds it. */
  predicate Fresh(w: World, id: nat) {
    id < |w.rows| && w.rows[id].status == Pending && w.rows[id].brokerId.None? && w.rows[id].filled.None?
  }

  lemma RefusedRuns(w: World, id: nat, e: I.Expiring)
    requires Fresh(w, id)
    ensures Reaches(Busy(w, id, I.Routing, {}, e), Quiet(SetStatus(w, id, RejectedByRisk), e))
  {
    var b := Busy(w, id, I.Routing, {}, e);
    TimelessSet(w.rows, id, w.rows[id].(status := RejectedByRisk));
    assert map[id := I.Routing] - {id} == map[];
    Stays(b);
    Moves(b, b, L.Act(I.RiskReject(id)));
  }

  /** The submission, which may land. */
  lemma SubmitRuns(w: World, id: nat, landed: bool, e: I.Expiring)
    requires Fresh(w, id)
    ensures Reaches(Busy(w, id, I.Routing, {}, e), Busy(if landed then Land(w, id) else w, id, I.Submitting, {id}, e))
  {
    var b := Busy(w, id, I.Routing, {}, e);
    var c := Busy(w, id, I.Submitting, {id}, e);
    assert map[id := I.Routing][id := I.Submitting] == map[id := I.Submitting];
    assert {} + {id} == {id};
    Stays(b);
    Moves(b, b, L.Act(I.Submit(id)));
    if landed { Moves(b, c, L.Act(I.Lands(id, BrokerOrder(Some(id), w.rows[id].qty, 0, BOpen)))); }
  }

  /** The OPEN write and the reservation it leaves due. */
  lemma OpenRuns(w: World, id: nat, bid: nat, filled: Option<nat>, e: I.Expiring)
    requires Fresh(w, id)
    ensures Reaches(Busy(w, id, I.Writing(bid, filled), {}, e), Quiet(Credit(Opened(w, id, bid, filled), id), e))
  {
    var b := Busy(w, id, I.Writing(bid, filled), {}, e);
    var m := L.Act(I.WriteOpen(id, I.Written));
    TimelessSet(w.rows, id, Opened(w, id, bid, filled).rows[id]);
    assert map[id := I.Writing(bid, filled)] - {id} == map[];
    Stays(b);
    Moves(b, b, m);
    ReserveRuns(Opened(w, id, bid, filled), id, L.Next(b, m), e);
    Onward(b, L.Next(b, m), Quiet(Credit(Opened(w, id, bid, filled), id), e));
  }

  lemma ReserveRuns(w: World, id: nat, b: L.Books, e: I.Expiring)
    requires id < |w.rows| && b == Quiet(w, e).(due := L.ReserveDue(Timeless(w.rows)[id]))
    ensures Reaches(b, Quiet(Credit(w, id), e))
  {
    Stays(b);
    if b.due != [] { Call(b, b.due[0], true); }
  }

  lemma AcknowledgedRuns(w: World, id: nat, a: PlaceReply, e: I.Expiring)
    requires Fresh(w, id) && a.listing.book == []
    ensures Reaches(Busy(w, id, I.Routing, {}, e), Quiet(Acknowledged(w, id, a), e))
  {
    hide Reaches, L.Next, Busy, Quiet, Credit, Opened;
    var b, v, bid := Busy(w, id, I.Routing, {}, e), Land(w, id), |w.book|;
    var filled := if a.listing.ok then Some(v.book[bid].filled) else None;
    var c := Busy(v, id, I.Writing(bid, filled), {}, e);
    SubmitRuns(w, id, true, e);
    AckRuns(w, id, a.listing.ok, e);
    Onward(b, Busy(v, id, I.Submitting, {id}, e), c);
    if a.writeOk {
      OpenRuns(v, id, bid, filled, e);
      Onward(b, c, Quiet(Acknowledged(w, id, a), e));
    } else {
      AbandonStep(v, id, I.Writing(bid, filled), e);
      Goes(b, c, L.Act(I.Abandon(id)), Quiet(v, e));
    }
  }

  lemma AbandonStep(w: World, id: nat, p: I.Placing, e: I.Expiring)
    ensures L.Next(Busy(w, id, p, {}, e), L.Act(I.Abandon(id))) == Quiet(w, e)
  {
    assert map[id := p] - {id} == map[];
  }

  lemma AckRuns(w: World, id: nat, ok: bool, e: I.Expiring)
    requires Fresh(w, id)
    ensures var v, bid := Land(w, id), |w.book|;
      Reaches(Busy(v, id, I.Submitting, {id}, e),
              Busy(v, id, I.Writing(bid, if ok then Some(v.book[bid].filled) else None), {}, e))
  {
    hide Reaches, L.Next, Busy;
    var v, bid := Land(w, id), |w.book|;
    var filled := if ok then Some(v.book[bid].filled) else None;
    var b, c := Busy(v, id, I.Submitting, {id}, e), Busy(v, id, I.Acked(bid), {}, e);
    Stays(b);
    AckStep(w, id, e);
    Goes(b, b, L.Act(I.Ack(id, bid)), c);
    FillStep(v, id, bid, ok, e);
    Goes(b, c, L.Act(I.ReadFill(id, ok)), Busy(v, id, I.Writing(bid, filled), {}, e));
  }

  lemma AckStep(w: World, id: nat, e: I.Expiring)
    requires id < |w.rows|
    ensures L.Next(Busy(Land(w, id), id, I.Submitting, {id}, e), L.Act(I.Ack(id, |w.book|))) ==
      Busy(Land(w, id), id, I.Acked(|w.book|), {}, e)
  {
    assert {id} - {id} == {};
    assert map[id := I.Submitting][id := I.Acked(|w.book|)] == map[id := I.Acked(|w.book|)];
  }

  lemma FillStep(w: World, id: nat, bid: nat, ok: bool, e: I.Expiring)
    requires id < |w.rows| && bid < |w.book|
    ensures var p := I.Writing(bid, if ok then Some(w.book[bid].filled) else None);
      L.Next(Busy(w, id, I.Acked(bid), {}, e), L.Act(I.ReadFill(id, ok))) == Busy(w, id, p, {}, e)
  {
    var p := I.Writing(bid, if ok then Some(w.book[bid].filled) else None);
    assert map[id := I.Acked(bid)][id := p] == map[id := p];
  }

  /** The look at the broker's list after a timeout, and the verdict. */
  lemma VerdictRuns(w: World, id: nat, ok: bool, e: I.Expiring)
    requires Fresh(w, id)
    ensures Reaches(Busy(w, id, I.Verifying, {}, e), Quiet(Unanswered(w, id, false, ListReply([], ok)), e))
  {
    hide Reaches, L.Next, Busy, Credit, FindLive;
    var found := FindLive(w.book, id);
    var p := if ok then I.Decided(found) else I.Undecided;
    var b, c, m := Busy(w, id, I.Verifying, {}, e), Busy(w, id, p, {}, e), L.Act(I.VerifyWrite(id));
    Stays(b);
    ReadStep(w, id, ok, e);
    Goes(b, b, L.Act(I.VerifyRead(id, ok)), c);
    if !ok {
      UnknownStep(w, id, e);
      Goes(b, c, m, Quiet(SetStatus(w, id, PendingVerification), e));
    } else {
      DecidedStep(w, id, found, e);
      if found.None? {
        Goes(b, c, m, Quiet(SetStatus(w, id, Failed), e));
      } else {
        var v := Opened(w, id, found.value, None);
        Moves(b, c, m);
        ReserveRuns(v, id, L.Next(c, m), e);
        Onward(b, L.Next(c, m), Quiet(Credit(v, id), e));
      }
    }
  }

  lemma ReadStep(w: World, id: nat, ok: bool, e: I.Expiring)
    requires id < |w.rows|
    ensures var p := if ok then I.Decided(FindLive(w.book, id)) else I.Undecided;
      L.Next(Busy(w, id, I.Verifying, {}, e), L.Act(I.VerifyRead(id, ok))) == Busy(w, id, p, {}, e)
  {
    hide FindLive;
    var p := if ok then I.Decided(FindLive(w.book, id)) else I.Undecided;
    assert map[id := I.Verifying][id := p] == map[id := p];
  }

  lemma UnknownStep(w: World, id: nat, e: I.Expiring)
    requires id < |w.rows|
    ensures L.Next(Busy(w, id, I.Undecided, {}, e), L.Act(I.VerifyWrite(id))) ==
      Quiet(SetStatus(w, id, PendingVerification), e)
  {
    assert map[id := I.Undecided] - {id} == map[];
    TimelessSet(w.rows, id, w.rows[id].(status := PendingVerification));
  }

  lemma DecidedStep(w: World, id: nat, found: Option<nat>, e: I.Expiring)
    requires Fresh(w, id)
    ensures L.Next(Busy(w, id, I.Decided(found), {}, e), L.Act(I.VerifyWrite(id))) ==
      if found.None? then Quiet(SetStatus(w, id, Failed), e)
      else
        var v := Opened(w, id, found.value, None);
        Quiet(v, e).(due := L.ReserveDue(Timeless(v.rows)[id]))
  {
    hide Timeless;
    assert map[id := I.Decided(found)] - {id} == map[];
    if found.None? {
      TimelessSet(w.rows, id, w.rows[id].(status := Failed));
    } else {
      TimelessSet(w.rows, id, Opened(w, id, found.value, None).rows[id]);
    }
  }

  lemma UnansweredRuns(w: World, id: nat, landed: bool, verify: ListReply, e: I.Expiring)
    requires Fresh(w, id) && verify.book == []
    ensures Reaches(Busy(w, id, I.Routing, {}, e), Quiet(Unanswered(w, id, landed, verify), e))
  {
    hide Reaches, L.Next, Busy, FindLive, Credit;
    var v := if landed then Land(w, id) else w;
    var b, c := Busy(w, id, I.Routing, {}, e), Busy(v, id, I.Submitting, {id}, e);
    SubmitRuns(w, id, landed, e);
    TimeoutStep(v, id, e);
    Goes(b, c, L.Act(I.Timeout(id)), Busy(v, id, I.Verifying, {id}, e));
    ThreadStep(v, id, I.Verifying, e);
    Goes(b, Busy(v, id, I.Verifying, {id}, e), L.Act(I.ThreadEnds(id)), Busy(v, id, I.Verifying, {}, e));
    VerdictRuns(v, id, verify.ok, e);
    assert Unanswered(w, id, landed, verify) == Unanswered(v, id, false, ListReply([], verify.ok));
    Onward(b, Busy(v, id, I.Verifying, {}, e), Quiet(Unanswered(w, id, landed, verify), e));
  }

  lemma TimeoutStep(w: World, id: nat, e: I.Expiring)
    requires id < |w.rows|
    ensures L.Next(Busy(w, id, I.Submitting, {id}, e), L.Act(I.Timeout(id))) == Busy(w, id, I.Verifying, {id}, e)
  {
    assert map[id := I.Submitting][id := I.Verifying] == map[id := I.Verifying];
  }

  lemma ThreadStep(w: World, id: nat, p: I.Placing, e: I.Expiring)
    ensures L.Next(Busy(w, id, p, {id}, e), L.Act(I.ThreadEnds(id))) == Busy(w, id, p, {}, e)
  {
    assert {id} - {id} == {};
  }

  lemma RaisedRuns(w: World, id: nat, landed: bool, e: I.Expiring)
    requires Fresh(w, id)
    ensures Reaches(Busy(w, id, I.Routing, {}, e),
                    Quiet(SetStatus(if landed then Land(w, id) else w, id, Failed), e))
  {
    hide Reaches, L.Next, Busy, Quiet;
    var v := if landed then Land(w, id) else w;
    var b, c := Busy(w, id, I.Routing, {}, e), Busy(v, id, I.Submitting, {}, e);
    SubmitRuns(w, id, landed, e);
    ThreadStep(v, id, I.Submitting, e);
    Goes(b, Busy(v, id, I.Submitting, {id}, e), L.Act(I.ThreadEnds(id)), c);
    RaiseStep(v, id, e);
    Goes(b, c, L.Act(I.Raise(id)), Quiet(SetStatus(v, id, Failed), e));
  }

  lemma RaiseStep(w: World, id: nat, e: I.Expiring)
    requires id < |w.rows|
    ensures L.Next(Busy(w, id, I.Submitting, {}, e), L.Act(I.Raise(id))) == Quiet(SetStatus(w, id, Failed), e)
  {
    assert map[id := I.Submitting] - {id} == map[];
    TimelessSet(w.rows, id, w.rows[id].(status := Failed));
  }

  lemma PlacedRuns(w: World, id: nat, a: PlaceReply, e: I.Expiring)
    requires Fresh(w, id) && a.listing.book == []
    ensures Reaches(Busy(w, id, I.Routing, {}, e), Quiet(Placed(w, id, a), e))
  {
    hide Busy, Quiet, Reaches, Acknowledged, Unanswered;
    if !a.riskOk {
      RefusedRuns(w, id, e);
    } else {
      match a.submission
      case Accepted => AcknowledgedRuns(w, id, a, e);
      case TimedOut(landed) => UnansweredRuns(w, id, landed, a.listing, e);
      case Raised(landed) => RaisedRuns(w, id, landed, e);
    }
  }

  /** A placement is one task's schedule. */
  lemma PlaceRuns(w: World, req: Request, now: int, a: PlaceReply)
    requires a.listing.book == [] && !req.ctx.isRetry
    ensures Reaches(Quiet(w, I.Idle), Quiet(Place(w, req, now, None, a), I.Idle))
  {
    hide Placed;
    var b := Quiet(w, I.Idle);
    Stays(b);
    if req.ctx.isExit || !Resting(w.rows, req.symbol) {
      var r := NewRow(req, now, a.auditOk, None);
      var v, id := w.(rows := w.rows + [r]), |w.rows|;
      TimelessAdd(w.rows, r);
      assert map[][id := I.Routing] == map[id := I.Routing];
      Moves(b, b, L.Act(I.Create(req.symbol, req.side, req.qty, req.ctx, a.auditOk)));
      PlacedRuns(v, id, a, I.Idle);
      Onward(b, Busy(v, id, I.Routing, {}, I.Idle), Quiet(Placed(v, id, a), I.Idle));
    }
  }

  // ---- sync_orders ---------------------------------------------------------

  lemma ReleaseRuns(w: World, id: nat, b: L.Books)
    requires id < |w.rows| && b.deployed == w.deployed && b.due == L.ReleaseDue(w.rows[id], Unfilled(w.rows[id]))
    ensures Reaches(b, b.(deployed := ReleaseIfDeployed(w, id).deployed, due := []))
  {
    Stays(b);
    if b.due != [] { Call(b, b.due[0], w.rows[id].audited); }
  }

  /** One row of a sync, with the release it leaves due. */
  lemma SyncRowRuns(w: World, id: nat, todo: seq<I.Seen>, e: I.Expiring)
    requires id < |w.rows| && w.rows[id].brokerId.Some? && w.rows[id].brokerId.value < |w.book|
    requires todo != [] && todo[0] == I.Seen(id, w.rows[id].brokerId.value, w.book[w.rows[id].brokerId.value])
    ensures Reaches(Syncs(w, I.Applying(todo), e), Syncs(SyncRow(w, id), I.Applying(todo[1..]), e))
  {
    hide Reaches, L.Next, ReleaseIfDeployed;
    var b, m := Syncs(w, I.Applying(todo), e), L.Act(I.SyncStep);
    var r', o := I.Reconciled(w.rows[id], todo[0].order), todo[0].order;
    var v := w.(rows := w.rows[id := r']);
    Stays(b);
    SyncWriteStep(w, id, todo, e);
    if o.status == BCancelled || o.status == BRejected {
      Moves(b, b, m);
      ReleaseRuns(v, id, L.Next(b, m));
      ReleaseLeavesRows(v, id);
      Onward(b, L.Next(b, m), Syncs(SyncRow(w, id), I.Applying(todo[1..]), e));
    } else {
      Goes(b, b, m, Syncs(v, I.Applying(todo[1..]), e));
    }
  }

  lemma SyncWriteStep(w: World, id: nat, todo: seq<I.Seen>, e: I.Expiring)
    requires id < |w.rows| && todo != [] && todo[0].id == id
    ensures
      var r', o := I.Reconciled(w.rows[id], todo[0].order), todo[0].order;
      var due := if o.status == BCancelled || o.status == BRejected then L.ReleaseDue(r', Unfilled(r')) else [];
      L.Next(Syncs(w, I.Applying(todo), e), L.Act(I.SyncStep)) ==
        Syncs(w.(rows := w.rows[id := r']), I.Applying(todo[1..]), e).(due := due)
  {
    TimelessSet(w.rows, id, I.Reconciled(w.rows[id], todo[0].order));
  }

  lemma {:induction false} SyncRowsKeepIds(w: World, ids: seq<nat>)
    requires forall k :: 0 <= k < |ids| ==> ids[k] < |w.rows|
    ensures forall i :: 0 <= i < |w.rows| ==> SyncRows(w, ids).rows[i].brokerId == w.rows[i].brokerId
  {
    if ids != [] { SyncRowsKeepIds(w, ids[..|ids| - 1]); }
  }

  /** A sync written as far as its n-th listed row. */
  lemma {:induction false} SyncRowsRun(w: World, ids: seq<nat>, n: nat, e: I.Expiring)
    requires n <= |ids| && forall k :: 0 <= k < |ids| ==> ids[k] < |w.rows|
    ensures var rows := Timeless(w.rows);
      var all, done := I.Matched(rows, w.book, ids), I.Matched(rows, w.book, ids[..n]);
      && done <= all
      && Reaches(Syncs(w, I.Applying(all), e), Syncs(SyncRows(w, ids[..n]), I.Applying(all[|done|..]), e))
  {
    hide Reaches, Syncs, SyncRow, Timeless;
    var rows := Timeless(w.rows);
    var all := I.Matched(rows, w.book, ids);
    MatchedPrefix(rows, w.book, ids, n);
    var b := Syncs(w, I.Applying(all), e);
    if n == 0 {
      assert ids[..0] == [] && all[0..] == all;
      Stays(b);
    } else {
      SyncRowsRun(w, ids, n - 1, e);
      MatchedPrefix(rows, w.book, ids, n - 1);
      assert ids[..n][..n - 1] == ids[..n - 1];
      var id, v := ids[n - 1], SyncRows(w, ids[..n - 1]);
      var before := I.Matched(rows, w.book, ids[..n - 1]);
      SyncRowsKeepIds(w, ids[..n - 1]);
      if w.rows[id].brokerId.Some? && w.rows[id].brokerId.value < |w.book| {
        var done := I.Matched(rows, w.book, ids[..n]);
        assert done[|before|] == all[|before|];
        SyncRowRuns(v, id, all[|before|..], e);
        assert all[|before|..][1..] == all[|done|..];
        Onward(b, Syncs(v, I.Applying(all[|before|..]), e), Syncs(SyncRow(v, id), I.Applying(all[|done|..]), e));
      } else {
        assert SyncRow(v, id) == v by { Unmatched(v, id); }
      }
    }
  }

  lemma Unmatched(w: World, id: nat)
    requires id < |w.rows| && (w.rows[id].brokerId.None? || w.rows[id].brokerId.value >= |w.book|)
    ensures SyncRow(w, id) == w
  {
  }

  lemma {:induction false} MatchedPrefix(rows: seq<Row>, book: Book, ids: seq<nat>, n: nat)
    requires n <= |ids|
    ensures I.Matched(rows, book, ids[..n]) <= I.Matched(rows, book, ids)
  {
    if n == |ids| {
      assert ids[..n] == ids;
    } else {
      var m := |ids| - 1;
      assert ids[..m][..n] == ids[..n];
      MatchedPrefix(rows, book, ids[..m], n);
    }
  }

  /** A sync is one schedule of the sync body. */
  lemma SyncRuns(w: World, reply: ListReply, e: I.Expiring)
    requires reply.book == []
    ensures Reaches(Quiet(w, e), Quiet(Sync(w, reply), e))
  {
    hide SyncRows, WithStatus, Reaches, L.Next, Quiet, Syncs, Advance;
    var b, ids := Quiet(w, e), WithStatus(w.rows, Open);
    Stays(b);
    StandsStill(w);
    if ids != [] && reply.ok {
      var all := I.Matched(Timeless(w.rows), w.book, ids);
      var v := SyncRows(w, ids);
      SyncListStep(w, e);
      Goes(b, b, L.Act(I.SyncStart), Syncs(w, I.Reading(ids), e));
      SyncReadStep(w, ids, e);
      Goes(b, Syncs(w, I.Reading(ids), e), L.Act(I.SyncRead(true)), Syncs(w, I.Applying(all), e));
      SyncRowsRun(w, ids, |ids|, e);
      assert ids[..|ids|] == ids && all[|all|..] == [];
      Onward(b, Syncs(w, I.Applying(all), e), Syncs(v, I.Applying([]), e));
      SyncEndStep(v, I.Applying([]), e);
      Goes(b, Syncs(v, I.Applying([]), e), L.Act(I.SyncEnd), Quiet(v, e));
    }
  }

  lemma SyncListStep(w: World, e: I.Expiring)
    ensures L.Next(Quiet(w, e), L.Act(I.SyncStart)) == Syncs(w, I.Reading(WithStatus(w.rows, Open)), e)
  {
    hide WithStatus;
    TimelessStatus(w.rows, Open);
  }

  lemma SyncReadStep(w: World, ids: seq<nat>, e: I.Expiring)
    ensures L.Next(Syncs(w, I.Reading(ids), e), L.Act(I.SyncRead(true))) ==
      Syncs(w, I.Applying(I.Matched(Timeless(w.rows), w.book, ids)), e)
  {
    hide I.Matched;
  }

  lemma SyncEndStep(w: World, sync: I.Syncing, e: I.Expiring)
    ensures L.Next(Syncs(w, sync, e), L.Act(I.SyncEnd)) == Quiet(w, e)
  {
  }

  // ---- cancel_order --------------------------------------------------------

  /** A cancel is one task's schedule. */
  lemma CancelRuns(w: World, id: nat, ok: bool)
    ensures Reaches(Quiet(w, I.Idle), Quiet(Cancel(w, id, [], ok), I.Idle))
  {
    hide Reaches, L.Next, Quiet, ReleaseIfDeployed, Advance, Cancels;
    var b := Quiet(w, I.Idle);
    Stays(b);
    StandsStill(w);
    if Cancellable(w, id) {
      CancelSteps(w, id);
      Goes(b, b, L.Act(I.CancelStart(0, id)), Cancels(w, I.Asking(id)));
      if ok {
        Goes(b, Cancels(w, I.Asking(id)), L.Act(I.CancelAnswer(0, true)), Cancels(w, I.Confirmed(id)));
        ConfirmedRuns(w, id);
        Onward(b, Cancels(w, I.Confirmed(id)), Quiet(ReleaseIfDeployed(SetStatus(w, id, Cancelled), id), I.Idle));
      } else {
        Goes(b, Cancels(w, I.Asking(id)), L.Act(I.CancelAnswer(0, false)), b);
      }
    }
  }

  /** One cancel is under way. */
  function Cancels(w: World, c: I.Cancelling): L.Books {
    L.Books(I.State(Timeless(w.rows), w.book, {}, map[], map[0 := c], I.Unlocked, I.Idle), w.deployed, [])
  }

  lemma CancelSteps(w: World, id: nat)
    requires Cancellable(w, id)
    ensures L.Next(Quiet(w, I.Idle), L.Act(I.CancelStart(0, id))) == Cancels(w, I.Asking(id))
    ensures L.Next(Cancels(w, I.Asking(id)), L.Act(I.CancelAnswer(0, true))) == Cancels(w, I.Confirmed(id))
    ensures L.Next(Cancels(w, I.Asking(id)), L.Act(I.CancelAnswer(0, false))) == Quiet(w, I.Idle)
  {
    hide L.Next;
    AskStep(w, id);
    ConfirmStep(w, id);
    RefuseStep(w, id);
  }

  lemma AskStep(w: World, id: nat)
    requires Cancellable(w, id)
    ensures L.Next(Quiet(w, I.Idle), L.Act(I.CancelStart(0, id))) == Cancels(w, I.Asking(id))
  {
    hide Timeless;
    assert map[][0 := I.Asking(id)] == map[0 := I.Asking(id)];
  }

  lemma ConfirmStep(w: World, id: nat)
    ensures L.Next(Cancels(w, I.Asking(id)), L.Act(I.CancelAnswer(0, true))) == Cancels(w, I.Confirmed(id))
  {
    hide Timeless;
    assert map[0 := I.Asking(id)][0 := I.Confirmed(id)] == map[0 := I.Confirmed(id)];
  }

  lemma RefuseStep(w: World, id: nat)
    ensures L.Next(Cancels(w, I.Asking(id)), L.Act(I.CancelAnswer(0, false))) == Quiet(w, I.Idle)
  {
    hide Timeless;
    assert map[0 := I.Asking(id)] - {0} == map[];
  }

  lemma ConfirmedRuns(w: World, id: nat)
    requires id < |w.rows|
    ensures Reaches(Cancels(w, I.Confirmed(id)), Quiet(ReleaseIfDeployed(SetStatus(w, id, Cancelled), id), I.Idle))
  {
    hide Reaches, L.Next, ReleaseIfDeployed;
    var v, b, m := SetStatus(w, id, Cancelled), Cancels(w, I.Confirmed(id)), L.Act(I.CancelWrite(0));
    CancelWriteStep(w, id);
    Stays(b);
    Moves(b, b, m);
    ReleaseRuns(v, id, L.Next(b, m));
    ReleaseLeavesRows(v, id);
    Onward(b, L.Next(b, m), Quiet(ReleaseIfDeployed(v, id), I.Idle));
  }

  lemma CancelWriteStep(w: World, id: nat)
    requires id < |w.rows|
    ensures var v := SetStatus(w, id, Cancelled);
      L.Next(Cancels(w, I.Confirmed(id)), L.Act(I.CancelWrite(0))) ==
        Quiet(v, I.Idle).(due := L.ReleaseDue(v.rows[id], Unfilled(v.rows[id])))
  {
    hide Timeless;
    TimelessSet(w.rows, id, w.rows[id].(status := Cancelled));
    assert map[0 := I.Confirmed(id)] - {0} == map[];
    assert Timeless(w.rows)[id] == w.rows[id].(created := 0);
  }

  // ---- expire_stale_orders -------------------------------------------------

  lemma VerifyOneRuns(w: World, id: nat, ids: seq<nat>, reply: ListReply)
    requires id < |w.rows| && reply.book == [] && ids != [] && ids[0] == id
    ensures Reaches(Quiet(w, I.VerifyList(ids)), Quiet(VerifyOne(w, id, reply), I.VerifyList(ids[1..])))
  {
    hide Reaches, L.Next, FindLive, Advance, AddIfDeployed;
    var b, rest := Quiet(w, I.VerifyList(ids)), I.VerifyList(ids[1..]);
    var found, ask := FindLive(w.book, id), L.Act(I.ExpireVerifyRead(reply.ok));
    Stays(b);
    StandsStill(w);
    LookStep(w, ids, reply.ok);
    if !reply.ok {
      Goes(b, b, ask, Quiet(w, rest));
    } else {
      var c, m := Quiet(w, I.VerifyDecided(id, found, ids[1..])), L.Act(I.ExpireVerifyWrite);
      Goes(b, b, ask, c);
      LookedStep(w, id, found, ids[1..]);
      if found.None? {
        Goes(b, c, m, Quiet(SetStatus(w, id, Failed), rest));
      } else {
        var v := Opened(w, id, found.value, w.rows[id].filled);
        Moves(b, c, m);
        AddRuns(v, id, L.Next(c, m));
        AddLeavesRows(v, id);
        Onward(b, L.Next(c, m), Quiet(AddIfDeployed(v, id), rest));
      }
    }
  }

  lemma LookStep(w: World, ids: seq<nat>, ok: bool)
    requires ids != []
    ensures L.Next(Quiet(w, I.VerifyList(ids)), L.Act(I.ExpireVerifyRead(ok))) ==
      Quiet(w, if ok then I.VerifyDecided(ids[0], FindLive(w.book, ids[0]), ids[1..]) else I.VerifyList(ids[1..]))
  {
    hide FindLive;
  }

  lemma LookedStep(w: World, id: nat, found: Option<nat>, ids: seq<nat>)
    requires id < |w.rows|
    ensures L.Next(Quiet(w, I.VerifyDecided(id, found, ids)), L.Act(I.ExpireVerifyWrite)) ==
      if found.None? then Quiet(SetStatus(w, id, Failed), I.VerifyList(ids))
      else
        var v := Opened(w, id, found.value, w.rows[id].filled);
        Quiet(v, I.VerifyList(ids)).(due := L.ReserveDue(v.rows[id]))
  {
    hide Timeless, WithStatus, FindLive, L.DueOf, I.Step;
    var s := Quiet(w, I.VerifyDecided(id, found, ids)).s;
    VerifyWriteIs(s);
    if found.None? {
      TimelessSet(w.rows, id, w.rows[id].(status := Failed));
    } else {
      TimelessSet(w.rows, id, Opened(w, id, found.value, w.rows[id].filled).rows[id]);
    }
  }

  lemma VerifyWriteIs(s: I.State)
    requires s.expire.VerifyDecided? && s.expire.id < |s.rows|
    ensures I.Step(s, I.ExpireVerifyWrite) ==
      I.Settle(s, s.expire.id, s.expire.found, s.rows[s.expire.id].filled).(expire := I.VerifyList(s.expire.ids))
    ensures L.DueOf(s, I.ExpireVerifyWrite) == if s.expire.found.Some? then L.ReserveDue(s.rows[s.expire.id]) else []
  {
    hide I.Settle, L.ReserveDue;
  }

  lemma AddLeavesRows(w: World, id: nat)
    requires id < |w.rows|
    ensures AddIfDeployed(w, id).rows == w.rows && AddIfDeployed(w, id).book == w.book
  {
  }

  lemma AddRuns(w: World, id: nat, b: L.Books)
    requires id < |w.rows| && b.deployed == w.deployed && b.due == L.ReserveDue(w.rows[id])
    ensures Reaches(b, b.(deployed := AddIfDeployed(w, id).deployed, due := []))
  {
    Stays(b);
    if b.due != [] { Call(b, b.due[0], w.rows[id].audited); }
  }

  predicate StillLists(replies: seq<ListReply>) {
    forall k :: 0 <= k < |replies| ==> replies[k].book == []
  }

  lemma {:induction false} VerifyRowsRun(w: World, ids: seq<nat>, n: nat, replies: seq<ListReply>)
    requires n <= |ids| && StillLists(replies) && forall k :: 0 <= k < |ids| ==> ids[k] < |w.rows|
    ensures Reaches(Quiet(w, I.VerifyList(ids)), Quiet(VerifyRows(w, ids[..n], replies), I.VerifyList(ids[n..])))
  {
    hide Reaches, Quiet, VerifyOne;
    var b := Quiet(w, I.VerifyList(ids));
    if n == 0 {
      assert ids[..0] == [] && ids[0..] == ids;
      Stays(b);
    } else {
      VerifyRowsRun(w, ids, n - 1, replies);
      assert ids[..n][..n - 1] == ids[..n - 1];
      var v := VerifyRows(w, ids[..n - 1], replies);
      VerifyOneRuns(v, ids[n - 1], ids[n - 1..], ReplyAt(replies, n - 1));
      assert ids[n - 1..][1..] == ids[n..];
      Onward(b, Quiet(v, I.VerifyList(ids[n - 1..])),
             Quiet(VerifyOne(v, ids[n - 1], ReplyAt(replies, n - 1)), I.VerifyList(ids[n..])));
    }
  }

  /** The write of EXPIRED with its release, and the retry. */
  lemma RetireRuns(w: World, id: nat, ids: seq<nat>, now: int, a: PlaceReply)
    requires id < |w.rows| && a.listing.book == []
    ensures Reaches(Quiet(w, I.StaleConfirmed(id, ids)), Quiet(Retire(w, id, now, a), I.StaleList(ids)))
  {
    hide Reaches, L.Next, Place, ReleaseIfDeployed, Quiet, Retryable;
    var b, left := Quiet(w, I.StaleConfirmed(id, ids)), Unfilled(w.rows[id]);
    var c, w1 := Quiet(w, I.StaleRead(id, left, ids)), SetStatus(w, id, Expired);
    var w2 := ReleaseIfDeployed(w1, id);
    Stays(b);
    RefreshStep(w, id, ids);
    Goes(b, b, L.Act(I.ExpireRefresh), c);
    ExpiredRuns(w, id, ids);
    Onward(b, c, Quiet(w2, I.StaleWritten(id, left, ids)));
    ReleaseLeavesRows(w1, id);
    RetryRuns(w2, id, ids, now, a);
    Onward(b, Quiet(w2, I.StaleWritten(id, left, ids)), Quiet(Retire(w, id, now, a), I.StaleList(ids)));
  }

  lemma RefreshStep(w: World, id: nat, ids: seq<nat>)
    requires id < |w.rows|
    ensures L.Next(Quiet(w, I.StaleConfirmed(id, ids)), L.Act(I.ExpireRefresh)) ==
      Quiet(w, I.StaleRead(id, Unfilled(w.rows[id]), ids))
  {
  }

  lemma ExpiredRuns(w: World, id: nat, ids: seq<nat>)
    requires id < |w.rows|
    ensures var left := Unfilled(w.rows[id]);
      Reaches(Quiet(w, I.StaleRead(id, left, ids)),
              Quiet(ReleaseIfDeployed(SetStatus(w, id, Expired), id), I.StaleWritten(id, left, ids)))
  {
    hide Reaches, L.Next, ReleaseIfDeployed;
    var left, v := Unfilled(w.rows[id]), SetStatus(w, id, Expired);
    var b, m := Quiet(w, I.StaleRead(id, left, ids)), L.Act(I.ExpireWrite);
    Stays(b);
    ExpiredStep(w, id, ids);
    Moves(b, b, m);
    ReleaseRuns(v, id, L.Next(b, m));
    ReleaseLeavesRows(v, id);
    Onward(b, L.Next(b, m), Quiet(ReleaseIfDeployed(v, id), I.StaleWritten(id, left, ids)));
  }

  lemma ExpiredStep(w: World, id: nat, ids: seq<nat>)
    requires id < |w.rows|
    ensures var left, v := Unfilled(w.rows[id]), SetStatus(w, id, Expired);
      L.Next(Quiet(w, I.StaleRead(id, left, ids)), L.Act(I.ExpireWrite)) ==
        Quiet(v, I.StaleWritten(id, left, ids)).(due := L.ReleaseDue(v.rows[id], left))
  {
    TimelessSet(w.rows, id, w.rows[id].(status := Expired));
  }

  lemma ReleaseLeavesRows(w: World, id: nat)
    requires id < |w.rows|
    ensures ReleaseIfDeployed(w, id).rows == w.rows && ReleaseIfDeployed(w, id).book == w.book
  {
  }

  lemma RetryRuns(w: World, id: nat, ids: seq<nat>, now: int, a: PlaceReply)
    requires id < |w.rows| && a.listing.book == []
    ensures var r := w.rows[id];
      Reaches(Quiet(w, I.StaleWritten(id, Unfilled(r), ids)),
              Quiet(if Retryable(r) then Place(w, RetryRequest(r), now, Some(id), a) else w, I.StaleList(ids)))
  {
    hide Reaches, L.Next, Placed, Resting, Retryable, Quiet, Busy;
    var r, e := w.rows[id], I.StaleList(ids);
    var b, req := Quiet(w, I.StaleWritten(id, Unfilled(r), ids)), RetryRequest(r);
    var found := req.ctx.isExit || !Resting(w.rows, req.symbol);
    var m := L.Act(I.ExpireRetry(found, a.auditOk));
    Stays(b);
    if Retryable(r) && found {
      var v, n := w.(rows := w.rows + [NewRow(req, now, a.auditOk, Some(id))]), |w.rows|;
      RetryStep(w, id, ids, now, a.auditOk);
      Goes(b, b, m, Busy(v, n, I.Routing, {}, e));
      PlacedRuns(v, n, a, e);
      Onward(b, Busy(v, n, I.Routing, {}, e), Quiet(Placed(v, n, a), e));
    } else {
      NoRetryStep(w, id, ids, found, a.auditOk);
      Goes(b, b, m, Quiet(w, e));
    }
  }

  lemma RetryStep(w: World, id: nat, ids: seq<nat>, now: int, audited: bool)
    requires id < |w.rows| && Retryable(w.rows[id])
    ensures var r := w.rows[id]; var c := NewRow(RetryRequest(r), now, audited, Some(id));
      L.Next(Quiet(w, I.StaleWritten(id, Unfilled(r), ids)), L.Act(I.ExpireRetry(true, audited))) ==
        Busy(w.(rows := w.rows + [c]), |w.rows|, I.Routing, {}, I.StaleList(ids))
  {
    var n := |w.rows|;
    TimelessAdd(w.rows, NewRow(RetryRequest(w.rows[id]), now, audited, Some(id)));
    assert map[][n := I.Routing] == map[n := I.Routing];
  }

  lemma NoRetryStep(w: World, id: nat, ids: seq<nat>, found: bool, audited: bool)
    requires id < |w.rows| && !(Retryable(w.rows[id]) && found)
    ensures L.Next(Quiet(w, I.StaleWritten(id, Unfilled(w.rows[id]), ids)), L.Act(I.ExpireRetry(found, audited))) ==
      Quiet(w, I.StaleList(ids))
  {
  }

  predicate StillStale(a: StaleReply) {
    a.cancelBook == [] && a.resync.book == [] && a.retry.listing.book == []
  }

  lemma StandsStill(w: World)
    ensures Advance(w, []) == w
  {
  }

  lemma ExpireOneRuns(w: World, id: nat, ids: seq<nat>, now: int, a: StaleReply)
    requires id < |w.rows| && StillStale(a) && ids != [] && ids[0] == id
    ensures Reaches(Quiet(w, I.StaleList(ids)), Quiet(ExpireOne(w, id, now, a), I.StaleList(ids[1..])))
  {
    hide Reaches, L.Next, Quiet, Sync, Advance, Retire;
    var b, rest := Quiet(w, I.StaleList(ids)), ids[1..];
    Stays(b);
    TurnSteps(w, ids);
    if !Stale(w.rows[id], now) {
      Goes(b, b, L.Act(I.ExpireSkip), Quiet(w, I.StaleList(rest)));
    } else {
      StandsStill(w);
      var v := Sync(w, a.resync);
      Goes(b, b, L.Act(I.ExpireAsk), Quiet(w, I.StaleAsked(id, rest)));
      SyncRuns(w, a.resync, I.StaleAsked(id, rest));
      Onward(b, Quiet(w, I.StaleAsked(id, rest)), Quiet(v, I.StaleAsked(id, rest)));
      AnswerStep(v, id, rest, a.cancelOk);
      var next := if a.cancelOk then I.StaleConfirmed(id, rest) else I.StaleList(rest);
      Goes(b, Quiet(v, I.StaleAsked(id, rest)), L.Act(I.ExpireAnswer(a.cancelOk)), Quiet(v, next));
      if a.cancelOk {
        RetireRuns(v, id, rest, now, a.retry);
        Onward(b, Quiet(v, next), Quiet(Retire(v, id, now, a.retry), I.StaleList(rest)));
      }
    }
  }

  lemma TurnSteps(w: World, ids: seq<nat>)
    requires ids != []
    ensures L.Next(Quiet(w, I.StaleList(ids)), L.Act(I.ExpireSkip)) == Quiet(w, I.StaleList(ids[1..]))
    ensures L.Next(Quiet(w, I.StaleList(ids)), L.Act(I.ExpireAsk)) == Quiet(w, I.StaleAsked(ids[0], ids[1..]))
  {
  }

  lemma AnswerStep(w: World, id: nat, ids: seq<nat>, ok: bool)
    ensures L.Next(Quiet(w, I.StaleAsked(id, ids)), L.Act(I.ExpireAnswer(ok))) ==
      Quiet(w, if ok then I.StaleConfirmed(id, ids) else I.StaleList(ids))
  {
  }

  predicate StillStales(replies: seq<StaleReply>) {
    forall k :: 0 <= k < |replies| ==> StillStale(replies[k])
  }

  lemma {:induction false} ExpireRowsRun(w: World, ids: seq<nat>, n: nat, now: int, replies: seq<StaleReply>)
    requires n <= |ids| && StillStales(replies) && forall k :: 0 <= k < |ids| ==> ids[k] < |w.rows|
    ensures Reaches(Quiet(w, I.StaleList(ids)), Quiet(ExpireRows(w, ids[..n], now, replies), I.StaleList(ids[n..])))
  {
    hide Reaches, Quiet, ExpireOne;
    var b := Quiet(w, I.StaleList(ids));
    if n == 0 {
      assert ids[..0] == [] && ids[0..] == ids;
      Stays(b);
    } else {
      ExpireRowsRun(w, ids, n - 1, now, replies);
      assert ids[..n][..n - 1] == ids[..n - 1];
      var v := ExpireRows(w, ids[..n - 1], now, replies);
      ExpireOneRuns(v, ids[n - 1], ids[n - 1..], now, StaleAt(replies, n - 1));
      assert ids[n - 1..][1..] == ids[n..];
      Onward(b, Quiet(v, I.StaleList(ids[n - 1..])),
             Quiet(ExpireOne(v, ids[n - 1], now, StaleAt(replies, n - 1)), I.StaleList(ids[n..])));
    }
  }

  predicate StillExpire(a: ExpireReply) {
    StillLists(a.verify) && a.sync.book == [] && StillStales(a.each)
  }

  lemma PreparedRuns(w: World, a: ExpireReply)
    requires StillExpire(a)
    ensures Reaches(Quiet(w, I.Idle), Quiet(Prepared(w, a), I.VerifyList([])))
  {
    hide Reaches, L.Next, Quiet, Sync, VerifyRows, WithStatus;
    var b, ids := Quiet(w, I.Idle), WithStatus(w.rows, PendingVerification);
    Stays(b);
    ExpireStartStep(w);
    Goes(b, b, L.Act(I.ExpireStart), Quiet(w, I.VerifyList(ids)));
    VerifyRowsRun(w, ids, |ids|, a.verify);
    assert ids[..|ids|] == ids && ids[|ids|..] == [];
    var u := VerifyRows(w, ids, a.verify);
    Onward(b, Quiet(w, I.VerifyList(ids)), Quiet(u, I.VerifyList([])));
    SyncRuns(u, a.sync, I.VerifyList([]));
    Onward(b, Quiet(u, I.VerifyList([])), Quiet(Sync(u, a.sync), I.VerifyList([])));
  }

  lemma ExpireStartStep(w: World)
    ensures L.Next(Quiet(w, I.Idle), L.Act(I.ExpireStart)) ==
      Quiet(w, I.VerifyList(WithStatus(w.rows, PendingVerification)))
  {
    hide WithStatus;
    TimelessStatus(w.rows, PendingVerification);
  }

  /** An expiry is one schedule of the expiry, its syncs and its retries' tasks. */
  lemma ExpireRuns(w: World, now: int, a: ExpireReply)
    requires StillExpire(a)
    ensures Reaches(Quiet(w, I.Idle), Quiet(Expire(w, now, a), I.Idle))
  {
    hide Reaches, L.Next, Quiet, Prepared, ExpireRows, WithStatus;
    var b, v := Quiet(w, I.Idle), Prepared(w, a);
    var ids := WithStatus(v.rows, Open);
    PreparedRuns(w, a);
    ExpireListStep(v);
    Goes(b, Quiet(v, I.VerifyList([])), L.Act(I.ExpireList), Quiet(v, I.StaleList(ids)));
    ExpireRowsRun(v, ids, |ids|, now, a.each);
    assert ids[..|ids|] == ids && ids[|ids|..] == [];
    var x := ExpireRows(v, ids, now, a.each);
    Onward(b, Quiet(v, I.StaleList(ids)), Quiet(x, I.StaleList([])));
    ExpireEndStep(x);
    Goes(b, Quiet(x, I.StaleList([])), L.Act(I.ExpireEnd), Quiet(x, I.Idle));
  }

  lemma ExpireListStep(w: World)
    ensures L.Next(Quiet(w, I.VerifyList([])), L.Act(I.ExpireList)) == Quiet(w, I.StaleList(WithStatus(w.rows, Open)))
  {
    hide WithStatus;
    TimelessStatus(w.rows, Open);
  }

  lemma ExpireEndStep(w: World)
    ensures L.Next(Quiet(w, I.StaleList([])), L.Act(I.ExpireEnd)) == Quiet(w, I.Idle)
  {
  }

  // ---- whole runs ----------------------------------------------------------

  /** Between calls the broker may do anything but invent orders of ours. */
  lemma BrokerRuns(w: World, book: Book)
    requires forall k :: |w.book| <= k < |book| ==> book[k].tag.None?
    ensures Reaches(Quiet(w, I.Idle), Quiet(Advance(w, book), I.Idle))
  {
    var b := Quiet(w, I.Idle);
    Stays(b);
    if BookEvolves(w.book, book) && BookFits(w.rows, book) { Moves(b, b, L.Act(I.BrokerMove(book))); }
  }

  /** The broker stands still during the call; a move between calls brings no order
      of ours that was not submitted; and nobody but the expiry asks for a retry. */
  predicate Plain(w: World, op: Serial.Op) {
    match op
    case Placing(req, _, reply) => reply.listing.book == [] && !req.ctx.isRetry
    case Syncing(listing) => listing.book == []
    case Expiring(_, replies) => StillExpire(replies)
    case Cancelling(_, book, _) => book == []
    case BrokerMoving(book) => forall k :: |w.book| <= k < |book| ==> book[k].tag.None?
  }

  lemma ApplyRuns(w: World, op: Serial.Op)
    requires Plain(w, op)
    ensures Reaches(Quiet(w, I.Idle), Quiet(Serial.Apply(w, op), I.Idle))
  {
    hide Reaches, Quiet, Place, Sync, Expire, Cancel, Advance;
    match op
    case Placing(req, now, reply) => PlaceRuns(w, req, now, reply);
    case Syncing(listing) => SyncRuns(w, listing, I.Idle);
    case Expiring(now, a) => ExpireRuns(w, now, a);
    case Cancelling(id, _, ok) => CancelRuns(w, id, ok);
    case BrokerMoving(book) => BrokerRuns(w, book);
  }

  lemma {:induction false} RunReaches(ops: seq<Serial.Op>)
    requires forall n :: 0 <= n < |ops| ==> Plain(Serial.Run(Serial.START, ops[..n]), ops[n])
    ensures Reaches(L.EMPTY, Quiet(Serial.Run(Serial.START, ops), I.Idle))
  {
    hide Reaches, Serial.Apply, Plain;
    if ops == [] {
      Stays(L.EMPTY);
    } else {
      var prior, w := ops[..|ops| - 1], Serial.Run(Serial.START, ops[..|ops| - 1]);
      forall n | 0 <= n < |prior| ensures Plain(Serial.Run(Serial.START, prior[..n]), prior[n]) {
        assert prior[..n] == ops[..n];
      }
      RunReaches(prior);
      ApplyRuns(w, ops[|ops| - 1]);
      Onward(L.EMPTY, Quiet(w, I.Idle), Quiet(Serial.Run(Serial.START, ops), I.Idle));
    }
  }

  lemma QuietMirrors(w: World)
    ensures Mirrors(Quiet(w, I.Idle), w)
  {
  }

  /** Every such serial run is an interleaved run: a schedule of the tasks and their
      ledger calls ends with the same rows, the same book and the same ledger, with
      no task under way and no call due. */
  lemma SerialRunsAreInterleavedRuns(ops: seq<Serial.Op>)
    requires forall n :: 0 <= n < |ops| ==> Plain(Serial.Run(Serial.START, ops[..n]), ops[n])
    ensures exists ms :: Mirrors(L.Run(ms), Serial.Run(Serial.START, ops))
  {
    hide Serial.Run, L.Run, Then, Plain, Quiet;
    var w := Serial.Run(Serial.START, ops);
    RunReaches(ops);
    var ms :| Then(L.EMPTY, ms) == Quiet(w, I.Idle);
    RunIsThen(ms);
    QuietMirrors(w);
    assert Mirrors(L.Run(ms), w);
  }

  /** Both models agree on everything but creation times, and all is done. */
  predicate Mirrors(b: L.Books, w: World) {
    && |b.s.rows| == |w.rows| && (forall i :: 0 <= i < |w.rows| ==> b.s.rows[i] == w.rows[i].(created := 0))
    && b.s.book == w.book && b.deployed == w.deployed && b.due == []
    && b.s.placing == map[] && b.s.cancelling == map[] && b.s.sync.Unlocked? && b.s.expire.Idle?
  }
}
