/** A run in which a cancel and a sync both give back the same remainder, with no
    expiry involved: the ledger forgets what another order holds. */
module LedgerTraces {
  import opened Wrappers
  import opened OrderTypes
  import opened OrderInterleaving
  import opened InterleavedLedger

  function Then(w: Books, ms: seq<Move>): Books
    decreases |ms|
  {
    if ms == [] then w else Then(Next(w, ms[0]), ms[1..])
  }

  lemma {:induction false} RunThen(ms: seq<Move>, more: seq<Move>)
    ensures Run(ms + more) == Then(Run(ms), more)
    decreases |more|
  {
    hide Next;
    if more == [] {
      assert ms + more == ms;
    } else {
      assert (ms + [more[0]])[..|ms|] == ms;
      RunThen(ms + [more[0]], more[1..]);
      assert ms + more == ms + [more[0]] + more[1..];
    }
  }

  lemma OneMore(w: Books, m: Move, more: seq<Move>)
    ensures Then(w, [m] + more) == Then(Next(w, m), more)
  {
    hide Next;
    assert ([m] + more)[1..] == more;
  }

  function Buying(symbol: string, st: Status, bid: Option<nat>, filled: Option<nat>): Row {
    Row(symbol, Buy, 10, st, bid, filled, 0, ENTRY, true, None)
  }

  function Resting(tag: nat): BrokerOrder {
    BrokerOrder(Some(tag), 10, 0, BOpen)
  }

  /** The books between two operations. */
  function Quiet(rows: seq<Row>, book: Book, deployed: map<string, nat>): Books {
    Books(State(rows, book, {}, map[], map[], Unlocked, Idle), deployed, [])
  }

  function Opening(n: nat, symbol: string): seq<Move> {
    [Act(Create(symbol, Buy, 10, ENTRY, true)), Act(Submit(n)), Act(Lands(n, Resting(n))), Act(Ack(n, n)),
     Act(ReadFill(n, false)), Act(WriteOpen(n, Written)), Perform(0)]
  }

  /** The books while the placing of row `n` is under way. */
  function Underway(rows: seq<Row>, book: Book, inFlight: set<nat>, n: nat, p: Placing,
                    deployed: map<string, nat>): Books {
    Books(State(rows, book, inFlight, map[n := p], map[], Unlocked, Idle), deployed, [])
  }

  lemma Submits(rows: seq<Row>, book: Book, deployed: map<string, nat>, symbol: string)
    requires |rows| == |book|
    ensures var n := |rows|; var rs := rows + [Buying(symbol, Pending, None, None)];
      && Next(Quiet(rows, book, deployed), Act(Create(symbol, Buy, 10, ENTRY, true)))
         == Underway(rs, book, {}, n, Routing, deployed)
      && Next(Underway(rs, book, {}, n, Routing, deployed), Act(Submit(n)))
         == Underway(rs, book, {n}, n, Submitting, deployed)
      && Next(Underway(rs, book, {n}, n, Submitting, deployed), Act(Lands(n, Resting(n))))
         == Underway(rs, book + [Resting(n)], {n}, n, Submitting, deployed)
  {
    var n := |rows|;
    assert map[n := Routing][n := Submitting] == map[n := Submitting];
  }

  lemma Acknowledged(rs: seq<Row>, bs: Book, n: nat, deployed: map<string, nat>)
    requires |rs| == |bs| == n + 1 && bs[n] == Resting(n)
    ensures Next(Underway(rs, bs, {n}, n, Submitting, deployed), Act(Ack(n, n)))
      == Underway(rs, bs, {}, n, Acked(n), deployed)
    ensures Next(Underway(rs, bs, {}, n, Acked(n), deployed), Act(ReadFill(n, false)))
      == Underway(rs, bs, {}, n, Writing(n, None), deployed)
  {
    assert {n} - {n} == {};
    assert map[n := Submitting][n := Acked(n)] == map[n := Acked(n)];
    assert map[n := Acked(n)][n := Writing(n, None)] == map[n := Writing(n, None)];
  }

  lemma Opened(rows: seq<Row>, bs: Book, symbol: string, deployed: map<string, nat>)
    requires |bs| == |rows| + 1
    ensures var n := |rows|; var rs := rows + [Buying(symbol, Pending, None, None)];
      Next(Next(Underway(rs, bs, {}, n, Writing(n, None), deployed), Act(WriteOpen(n, Written))), Perform(0))
      == Quiet(rows + [Buying(symbol, Open, Some(n), None)], bs, deployed[EMA := DeployedOf(deployed, EMA) + 10])
  {
    var n, rs := |rows|, rows + [Buying(symbol, Pending, None, None)];
    OpenWritten(rows, bs, symbol);
    var before := Underway(rs, bs, {}, n, Writing(n, None), deployed);
    assert DueOf(before.s, WriteOpen(n, Written)) == [Reserve(EMA, 10)];
    assert [] + [Reserve(EMA, 10)] == [Reserve(EMA, 10)];
    hide Step, DueOf;
    assert Without([Reserve(EMA, 10)], 0) == [];
  }

  lemma OpenWritten(rows: seq<Row>, bs: Book, symbol: string)
    requires |bs| == |rows| + 1
    ensures var n := |rows|;
      Step(State(rows + [Buying(symbol, Pending, None, None)], bs, {}, map[n := Writing(n, None)], map[],
                 Unlocked, Idle),
           WriteOpen(n, Written))
      == State(rows + [Buying(symbol, Open, Some(n), None)], bs, {}, map[], map[], Unlocked, Idle)
  {
    hide StepCancel, StepSync, StepExpire, FindLive, WithStatus, Matched;
    var n, rs := |rows|, rows + [Buying(symbol, Pending, None, None)];
    assert rs[n := Buying(symbol, Open, Some(n), None)] == rows + [Buying(symbol, Open, Some(n), None)];
    assert map[n := Writing(n, None)] - {n} == map[];
  }

  /** Placing an order that is acknowledged and rests. */
  lemma OrderOpens(rows: seq<Row>, book: Book, deployed: map<string, nat>, symbol: string)
    requires |rows| == |book|
    ensures var n := |rows|;
      Then(Quiet(rows, book, deployed), Opening(n, symbol))
      == Quiet(rows + [Buying(symbol, Open, Some(n), None)], book + [Resting(n)],
               deployed[EMA := DeployedOf(deployed, EMA) + 10])
  {
    hide Next;
    var n, rs, bs := |rows|, rows + [Buying(symbol, Pending, None, None)], book + [Resting(|rows|)];
    Submits(rows, book, deployed, symbol);
    Acknowledged(rs, bs, n, deployed);
    Opened(rows, bs, symbol, deployed);
    SevenMoves(Quiet(rows, book, deployed), n, symbol);
  }

  lemma SevenMoves(w: Books, n: nat, symbol: string)
    ensures Then(w, Opening(n, symbol)) ==
      Next(Next(Next(Next(Next(Next(Next(w, Act(Create(symbol, Buy, 10, ENTRY, true))), Act(Submit(n))),
        Act(Lands(n, Resting(n)))), Act(Ack(n, n))), Act(ReadFill(n, false))), Act(WriteOpen(n, Written))), Perform(0))
  {
    hide Next, Then;
    UnfoldSeven(w, Act(Create(symbol, Buy, 10, ENTRY, true)), Act(Submit(n)), Act(Lands(n, Resting(n))), Act(Ack(n, n)),
                Act(ReadFill(n, false)), Act(WriteOpen(n, Written)), Perform(0));
  }

  lemma UnfoldSeven(w: Books, a: Move, b: Move, c: Move, d: Move, e: Move, f: Move, g: Move)
    ensures Then(w, [a, b, c, d, e, f, g]) == Next(Next(Next(Next(Next(Next(Next(w, a), b), c), d), e), f), g)
  {
    hide Next, Then;
    var w2 := Next(Next(Next(w, a), b), c);
    assert [a, b, c, d, e, f, g] == [a] + ([b] + ([c] + [d, e, f, g]));
    OneMore(w, a, [b] + ([c] + [d, e, f, g]));
    OneMore(Next(w, a), b, [c] + [d, e, f, g]);
    OneMore(Next(Next(w, a), b), c, [d, e, f, g]);
    assert [d, e, f, g] == [d] + ([e] + ([f] + ([g] + [])));
    OneMore(w2, d, [e] + ([f] + ([g] + [])));
    OneMore(Next(w2, d), e, [f] + ([g] + []));
    OneMore(Next(Next(w2, d), e), f, [g] + []);
    OneMore(Next(Next(Next(w2, d), e), f), g, []);
    ThenNothing(Next(Next(Next(Next(w2, d), e), f), g));
  }

  lemma ThenNothing(w: Books)
    ensures Then(w, []) == w
  {
  }

  // ---- the race ------------------------------------------------------------

  const GONE := BrokerOrder(Some(0), 10, 0, BCancelled)
  const BOOK: Book := [GONE, Resting(1)]
  const SEEN: seq<Seen> := [Seen(0, 0, GONE), Seen(1, 1, Resting(1))]

  function Racing(first: Row, cancelling: map<nat, Cancelling>, sync: Syncing, deployed: nat, due: seq<Due>): Books {
    Books(State([first, Buying("B", Open, Some(1), None)], BOOK, {}, map[], cancelling, sync, Idle),
          map[EMA := deployed], due)
  }

  const OPENED := Buying("A", Open, Some(0), None)
  const CANCELLED := Buying("A", Cancelled, Some(0), Some(0))

  lemma CancelBegins(w: Books)
    requires w == Quiet([OPENED, Buying("B", Open, Some(1), None)], [Resting(0), Resting(1)], map[EMA := 20])
    ensures Next(Next(w, Act(CancelStart(0, 0))), Act(BrokerMove(BOOK)))
      == Racing(OPENED, map[0 := Asking(0)], Unlocked, 20, [])
  {
  }

  lemma Snapshots(rows: seq<Row>)
    requires rows == [OPENED, Buying("B", Open, Some(1), None)]
    ensures WithStatus(rows, Open) == [0, 1] && Matched(rows, BOOK, [0, 1]) == SEEN
  {
    assert rows[..1][..0] == [] && WithStatus(rows[..1], Open) == [0];
    assert [0, 1][..1] == [0] && [0][..0] == [];
    assert Matched(rows, BOOK, [0]) == [Seen(0, 0, GONE)];
  }

  lemma SyncReleases()
    ensures var asking := map[0 := Asking(0)];
      && Next(Racing(OPENED, asking, Unlocked, 20, []), Act(SyncStart))
         == Racing(OPENED, asking, Reading([0, 1]), 20, [])
      && Next(Racing(OPENED, asking, Reading([0, 1]), 20, []), Act(SyncRead(true)))
         == Racing(OPENED, asking, Applying(SEEN), 20, [])
  {
    hide WithStatus, Matched;
    Snapshots([OPENED, Buying("B", Open, Some(1), None)]);
  }

  lemma SyncWrites()
    ensures var asking := map[0 := Asking(0)];
      && Next(Racing(OPENED, asking, Applying(SEEN), 20, []), Act(SyncStep))
         == Racing(CANCELLED, asking, Applying(SEEN[1..]), 20, [Release(EMA, 10)])
      && Next(Racing(CANCELLED, asking, Applying(SEEN[1..]), 20, [Release(EMA, 10)]), Perform(0))
         == Racing(CANCELLED, asking, Applying(SEEN[1..]), 10, [])
  {
    assert Without([Release(EMA, 10)], 0) == [];
    assert map[EMA := 20][EMA := 10] == map[EMA := 10];
  }

  lemma CancelReleasesAgain()
    ensures var rest := Applying(SEEN[1..]);
      && Next(Racing(CANCELLED, map[0 := Asking(0)], rest, 10, []), Act(CancelAnswer(0, true)))
         == Racing(CANCELLED, map[0 := Confirmed(0)], rest, 10, [])
      && Next(Racing(CANCELLED, map[0 := Confirmed(0)], rest, 10, []), Act(CancelWrite(0)))
         == Racing(CANCELLED, map[], rest, 10, [Release(EMA, 10)])
      && Next(Racing(CANCELLED, map[], rest, 10, [Release(EMA, 10)]), Perform(0))
         == Racing(CANCELLED, map[], rest, 0, [])
      && Spoils(Racing(CANCELLED, map[0 := Confirmed(0)], rest, 10, []), Act(CancelWrite(0)))
  {
    assert map[0 := Asking(0)][0 := Confirmed(0)] == map[0 := Confirmed(0)];
    assert map[0 := Confirmed(0)] - {0} == map[];
    assert Without([Release(EMA, 10)], 0) == [];
    assert map[EMA := 10][EMA := 0] == map[EMA := 0];
  }

  lemma RunSnoc(ms: seq<Move>, m: Move)
    ensures Run(ms + [m]) == Next(Run(ms), m)
  {
    hide Next;
    assert (ms + [m])[..|ms|] == ms;
  }

  const BOTH := Opening(0, "A") + Opening(1, "B")

  lemma BothOpen()
    ensures Run(BOTH) == Quiet([OPENED, Buying("B", Open, Some(1), None)], [Resting(0), Resting(1)], map[EMA := 20])
  {
    hide Run, Next, Then;
    assert Run([]) == EMPTY by { StartOk([]); }
    RunThen([], Opening(0, "A"));
    OrderOpens([], [], map[], "A");
    assert [] + Opening(0, "A") == Opening(0, "A");
    RunThen(Opening(0, "A"), Opening(1, "B"));
    OrderOpens([OPENED], [Resting(0)], map[EMA := 10], "B");
    assert [] + [OPENED] == [OPENED] && [] + [Resting(0)] == [Resting(0)];
    assert map[][EMA := 10] == map[EMA := 10] && map[EMA := 10][EMA := 20] == map[EMA := 20];
  }

  const RACE: seq<Move> :=
    [Act(CancelStart(0, 0)), Act(BrokerMove(BOOK)), Act(SyncStart), Act(SyncRead(true)), Act(SyncStep), Perform(0),
     Act(CancelAnswer(0, true)), Act(CancelWrite(0)), Perform(0)]

  lemma RaceRuns()
    ensures Run(BOTH + RACE) == Racing(CANCELLED, map[], Applying(SEEN[1..]), 0, [])
  {
    hide Run, Next, BOTH;
    BothOpen();
    CancelBegins(Run(BOTH));
    SyncReleases();
    SyncWrites();
    CancelReleasesAgain();
    var b := BOTH;
    RunSnoc(b, RACE[0]);
    RunSnoc(b + [RACE[0]], RACE[1]);
    RunSnoc(b + [RACE[0]] + [RACE[1]], RACE[2]);
    var c := b + [RACE[0]] + [RACE[1]] + [RACE[2]];
    RunSnoc(c, RACE[3]);
    RunSnoc(c + [RACE[3]], RACE[4]);
    RunSnoc(c + [RACE[3]] + [RACE[4]], RACE[5]);
    var d := c + [RACE[3]] + [RACE[4]] + [RACE[5]];
    RunSnoc(d, RACE[6]);
    RunSnoc(d + [RACE[6]], RACE[7]);
    RunSnoc(d + [RACE[6]] + [RACE[7]], RACE[8]);
    assert BOTH + RACE == d + [RACE[6]] + [RACE[7]] + [RACE[8]];
  }

  /** A sync sees the order cancelled while the cancel is still awaited; both give
      its ten back, and the ledger forgets the ten that rest in the other order. */
  lemma CancelAgainstSync()
    ensures var w := Run(BOTH + RACE);
      && w.due == [] && w.s.rows == [CANCELLED, Buying("B", Open, Some(1), None)]
      && DeployedOf(w.deployed, EMA) == 0 && Serial.Committed(w.s.rows, EMA) == 10
  {
    hide Run;
    RaceRuns();
    var rows := [CANCELLED, Buying("B", Open, Some(1), None)];
    assert rows[..1][..0] == [] && Serial.Committed(rows[..1], EMA) == 0;
  }
}
