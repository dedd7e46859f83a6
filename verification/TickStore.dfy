/** The shared tick keys and their three writers: the WebSocket, which builds the
    bars, the indicator poller, which overwrites the entry, and the REST refresh. */
module TickStore {
  import opened Wrappers
  import opened BarGroups
  import opened IntradayBar

  /** One symbol's entry. `wsStamp` is the time of the last WebSocket tick. */
  datatype Entry = Entry(close: real, fields: BarState, wsStamp: Option<Clock>)

  const FRESH_SECONDS := 15

  function Age(now: Clock, stamp: Clock): int {
    86400 * (now.day - stamp.day) + now.second - stamp.second
  }

  /** The WebSocket ticked recently enough for the REST refresh to stay away. */
  predicate Fresh(e: Entry, now: Clock) {
    e.wsStamp.Some? && Age(now, e.wsStamp.value) < FRESH_SECONDS
  }

  /** What the poller carries across its overwrite: today's bar fields. */
  predicate Carries(e: Option<Entry>, day: nat) {
    e.Some? && e.value.fields.date == Some(day) && e.value.fields.dayHigh.Some? && e.value.fields.dayLow.Some?
  }

  function FieldsOf(e: Option<Entry>): BarState {
    if e.Some? then e.value.fields else BLANK
  }

  /** One writer's turn at a key. A poll brings the historical close it falls back
      on, if it has enough history to score the symbol at all. */
  datatype Step =
    | WsTick(now: Clock, ltp: real, volume: Option<nat>)
    | Refresh(now: Clock, ltp: real)
    | Poll(now: Clock, history: Option<real>)

  predicate Accepted(step: Step) {
    step.WsTick? && InSession(step.now) && step.ltp > 0.0
  }

  /** The entry after a whole read-modify-write. */
  function Apply(e: Option<Entry>, step: Step): Option<Entry> {
    match step
    case WsTick(now, ltp, volume) =>
      if Accepted(step) then Some(Entry(ltp, Updated(FieldsOf(e), now, ltp, volume), Some(now))) else e
    case Refresh(now, ltp) =>
      if !InSession(now) || ltp <= 0.0 then e
      else if e.None? then Some(Entry(ltp, BLANK, None))
      else if Fresh(e.value, now) then e
      else Some(e.value.(close := ltp))
    case Poll(now, history) =>
      if history.None? then e
      else if Carries(e, now.day) then
        Some(Entry(if e.value.close != 0.0 then e.value.close else history.value, e.value.fields, None))
      else Some(Entry(history.value, BLANK, None))
  }

  function Run(e: Option<Entry>, steps: seq<Step>): Option<Entry> {
    if steps == [] then e else Apply(Run(e, steps[..|steps| - 1]), steps[|steps| - 1])
  }

  // ---- the writers in place ------------------------------------------------

  type Keys = map<string, Entry>

  function Lookup(keys: Keys, symbol: string): Option<Entry> {
    if symbol in keys then Some(keys[symbol]) else None
  }

  /** A quote of an instrument: a WebSocket tick or a REST price. */
  datatype Quote = Quote(token: nat, price: real, volume: Option<nat>)

  /** The steps a batch of quotes means for one symbol. */
  function StepsFor(quotes: seq<Quote>, names: map<nat, string>, symbol: string, now: Clock, rest: bool): seq<Step> {
    if quotes == [] then []
    else
      var q := quotes[|quotes| - 1];
      var before := StepsFor(quotes[..|quotes| - 1], names, symbol, now, rest);
      if q.token in names && names[q.token] == symbol then
        before + [if rest then Refresh(now, q.price) else WsTick(now, q.price, q.volume)]
      else before
  }

  /** The price of a symbol's last positive quote in a batch. */
  function LastPositive(quotes: seq<Quote>, names: map<nat, string>, symbol: string): Option<real> {
    if quotes == [] then None
    else
      var q := quotes[|quotes| - 1];
      if q.token in names && names[q.token] == symbol && q.price > 0.0 then Some(q.price)
      else LastPositive(quotes[..|quotes| - 1], names, symbol)
  }

  /** The WebSocket ticked less than fifteen seconds ago. */
  predicate Guarded(e: Option<Entry>, now: Clock) {
    && e.Some? && e.value.wsStamp.Some?
    && var t := e.value.wsStamp.value; 86400 * (now.day - t.day) + now.second - t.second < 15
  }

  /** How many quotes of a batch a refresh may write: the positive ones of symbols
      that are not guarded. */
  function Writable(quotes: seq<Quote>, names: map<nat, string>, keys: Keys, now: Clock): nat {
    if quotes == [] then 0
    else
      var q := quotes[|quotes| - 1];
      Writable(quotes[..|quotes| - 1], names, keys, now)
      + if q.token in names && q.price > 0.0 && !Guarded(Lookup(keys, names[q.token]), now) then 1 else 0
  }

  class Store {
    var keys: Keys

    method OnTicks(now: Clock, ticks: seq<Quote>, names: map<nat, string>)
      modifies this
      ensures forall s :: Lookup(keys, s) == Run(Lookup(old(keys), s), StepsFor(ticks, names, s, now, false))
      ensures forall s ::
        if InSession(now) && LastPositive(ticks, names, s).Some?
        then s in keys && keys[s].close == LastPositive(ticks, names, s).value && keys[s].wsStamp == Some(now)
        else Lookup(keys, s) == Lookup(old(keys), s)
    {
      if !InSession(now) {
        forall s ensures Lookup(keys, s) == Run(Lookup(keys, s), StepsFor(ticks, names, s, now, false)) {
          ClosedMarket(Lookup(keys, s), ticks, names, s, now, false);
        }
        return;
      }
      for i := 0 to |ticks|
        invariant forall s :: Lookup(keys, s) == Run(Lookup(old(keys), s), StepsFor(ticks[..i], names, s, now, false))
        invariant forall s ::
          if LastPositive(ticks[..i], names, s).Some?
          then s in keys && keys[s].close == LastPositive(ticks[..i], names, s).value && keys[s].wsStamp == Some(now)
          else Lookup(keys, s) == Lookup(old(keys), s)
      {
        var t := ticks[i];
        assert ticks[..i + 1][..i] == ticks[..i];
        ghost var was := keys;
        if t.token in names && t.price > 0.0 {
          var symbol := names[t.token];
          var fields := if symbol in keys then keys[symbol].fields else BLANK;
          keys := keys[symbol := Entry(t.price, Updated(fields, now, t.price, t.volume), Some(now))];
        }
        forall s ensures Lookup(keys, s) == Run(Lookup(old(keys), s), StepsFor(ticks[..i + 1], names, s, now, false)) {
          NextQuote(ticks, i, names, s, now, false, Lookup(old(keys), s));
        }
      }
      assert ticks[..|ticks|] == ticks;
    }

    method RefreshLtp(now: Clock, quotes: seq<Quote>, names: map<nat, string>) returns (updated: nat)
      modifies this
      ensures forall s :: Lookup(keys, s) == Run(Lookup(old(keys), s), StepsFor(quotes, names, s, now, true))
      ensures updated == if InSession(now) then Writable(quotes, names, old(keys), now) else 0
      ensures forall s :: var p, e := LastPositive(quotes, names, s), Lookup(old(keys), s);
        if InSession(now) && p.Some? && !Guarded(e, now)
        then s in keys && keys[s] == Entry(p.value, FieldsOf(e), if e.Some? then e.value.wsStamp else None)
        else Lookup(keys, s) == e
    {
      hide Run, StepsFor;
      updated := 0;
      if !InSession(now) {
        forall s ensures Lookup(keys, s) == Run(Lookup(keys, s), StepsFor(quotes, names, s, now, true)) {
          ClosedMarket(Lookup(keys, s), quotes, names, s, now, true);
        }
        return;
      }
      forall s ensures Run(Lookup(keys, s), StepsFor(quotes[..0], names, s, now, true)) == Lookup(keys, s) {
        NoQuotes(Lookup(keys, s), names, s, now, true);
      }
      for i := 0 to |quotes|
        invariant forall s :: Lookup(keys, s) == Run(Lookup(old(keys), s), StepsFor(quotes[..i], names, s, now, true))
        invariant updated == Writable(quotes[..i], names, old(keys), now)
        invariant forall s :: var p, e := LastPositive(quotes[..i], names, s), Lookup(old(keys), s);
          if p.Some? && !Guarded(e, now)
          then s in keys && keys[s] == Entry(p.value, FieldsOf(e), if e.Some? then e.value.wsStamp else None)
          else Lookup(keys, s) == e
      {
        var q := quotes[i];
        assert quotes[..i + 1][..i] == quotes[..i];
        if q.token in names && q.price > 0.0 {
          var symbol := names[q.token];
          if symbol !in keys {
            keys := keys[symbol := Entry(q.price, BLANK, None)];
            updated := updated + 1;
          } else if !Fresh(keys[symbol], now) {
            keys := keys[symbol := keys[symbol].(close := q.price)];
            updated := updated + 1;
          }
        }
        forall s ensures Lookup(keys, s) == Run(Lookup(old(keys), s), StepsFor(quotes[..i + 1], names, s, now, true)) {
          NextQuote(quotes, i, names, s, now, true, Lookup(old(keys), s));
        }
      }
      assert quotes[..|quotes|] == quotes;
    }

    method PollSymbol(now: Clock, symbol: string, history: Option<real>)
      modifies this
      ensures Lookup(keys, symbol) == Apply(Lookup(old(keys), symbol), Poll(now, history))
      ensures forall s :: s != symbol ==> Lookup(keys, s) == Lookup(old(keys), s)
      ensures history.None? ==> keys == old(keys)
      ensures history.Some? ==> symbol in keys && keys[symbol].wsStamp.None?
      ensures var e := Lookup(old(keys), symbol);
        history.Some? ==>
          if e.Some? && e.value.fields.date == Some(now.day)
             && e.value.fields.dayHigh.Some? && e.value.fields.dayLow.Some?
          then keys[symbol].fields == e.value.fields
               && keys[symbol].close == (if e.value.close != 0.0 then e.value.close else history.value)
          else keys[symbol].fields == BLANK && keys[symbol].close == history.value
    {
      if history.None? { return; }
      var range := if symbol in keys && Carries(Some(keys[symbol]), now.day) then Some(keys[symbol]) else None;
      var ltp := history.value;
      if range.Some? && range.value.close != 0.0 { ltp := range.value.close; }
      keys := keys[symbol := Entry(ltp, FieldsOf(range), None)];
    }
  }

  lemma NoQuotes(e: Option<Entry>, names: map<nat, string>, s: string, now: Clock, rest: bool)
    ensures Run(e, StepsFor([], names, s, now, rest)) == e
  {
  }

  lemma NextQuote(quotes: seq<Quote>, i: nat, names: map<nat, string>, s: string, now: Clock, rest: bool,
                  e: Option<Entry>)
    requires i < |quotes|
    ensures var q := quotes[i];
      var was := Run(e, StepsFor(quotes[..i], names, s, now, rest));
      Run(e, StepsFor(quotes[..i + 1], names, s, now, rest))
      == if q.token in names && names[q.token] == s
         then Apply(was, if rest then Refresh(now, q.price) else WsTick(now, q.price, q.volume)) else was
  {
    assert quotes[..i + 1][..i] == quotes[..i];
    var before, steps := StepsFor(quotes[..i], names, s, now, rest), StepsFor(quotes[..i + 1], names, s, now, rest);
    if steps != before {
      assert steps[..|steps| - 1] == before;
    }
  }

  lemma {:induction false} ClosedMarket(e: Option<Entry>, quotes: seq<Quote>, names: map<nat, string>, s: string,
                                        now: Clock, rest: bool)
    requires !InSession(now)
    ensures Run(e, StepsFor(quotes, names, s, now, rest)) == e
  {
    if quotes != [] {
      ClosedMarket(e, quotes[..|quotes| - 1], names, s, now, rest);
      NextQuote(quotes, |quotes| - 1, names, s, now, rest, e);
      assert quotes[..|quotes| - 1 + 1] == quotes;
    }
  }

  // ---- the bars belong to the WebSocket ------------------------------------

  /** The ticks among the steps that the WebSocket writer accepts. */
  function TicksOf(steps: seq<Step>): seq<Tick> {
    if steps == [] then []
    else
      var rest, s := TicksOf(steps[..|steps| - 1]), steps[|steps| - 1];
      if Accepted(s) then rest + [Tick(s.now, s.ltp, s.volume)] else rest
  }

  /** The bar fields just before the first accepted tick. */
  function Prior(e: Option<Entry>, steps: seq<Step>): BarState {
    if TicksOf(steps) == [] then FieldsOf(Run(e, steps)) else Prior(e, steps[..|steps| - 1])
  }

  predicate OneDay(steps: seq<Step>, day: nat) {
    && (forall i :: 0 <= i < |steps| ==> steps[i].now.day == day)
    && forall i, j :: 0 <= i < j < |steps| ==> steps[i].now.second <= steps[j].now.second
  }

  /** With every read-modify-write whole, the bar fields are the fold of today's
      WebSocket ticks, however the other writers' turns fall between them; all
      those can do is drop yesterday's volume baseline before the first tick. */
  lemma {:induction false} BarsAreTheTicks(e: Option<Entry>, steps: seq<Step>, day: nat)
    requires OneDay(steps, day) && FieldsOf(e).date != Some(day)
    ensures FieldsOf(Run(e, steps)) == Fold(Prior(e, steps), TicksOf(steps))
    ensures var prior := Prior(e, steps);
      prior.date != Some(day) && (prior.lastCum == FieldsOf(e).lastCum || prior.lastCum == None)
    ensures Session(TicksOf(steps), day)
    ensures TicksOf(steps) != [] ==> Carries(Run(e, steps), day)
  {
    hide Updated, Apply, InSession, Fold, Session, Accepted;
    if steps == [] {
      FoldNothing(FieldsOf(e));
      SessionOf(steps, day);
    } else {
      var rest, s := steps[..|steps| - 1], steps[|steps| - 1];
      BarsAreTheTicks(e, rest, day);
      SessionOf(steps, day);
      var was, ts := Run(e, rest), TicksOf(rest);
      FoldNothing(FieldsOf(was));
      if Accepted(s) {
        TickFolds(was, s, Prior(e, rest), ts);
      } else {
        StutterOrBlank(was, s, day);
        FoldNothing(FieldsOf(Run(e, steps)));
      }
    }
  }

  lemma FoldNothing(s: BarState)
    ensures Fold(s, []) == s
  {
  }

  lemma TickFolds(e: Option<Entry>, s: Step, prior: BarState, ts: seq<Tick>)
    requires Accepted(s) && FieldsOf(e) == Fold(prior, ts)
    ensures FieldsOf(Apply(e, s)) == Fold(prior, ts + [Tick(s.now, s.ltp, s.volume)])
    ensures Carries(Apply(e, s), s.now.day)
  {
    var t := Tick(s.now, s.ltp, s.volume);
    assert (ts + [t])[..|ts|] == ts;
  }

  lemma {:induction false} SessionOf(steps: seq<Step>, day: nat)
    requires OneDay(steps, day)
    ensures Session(TicksOf(steps), day)
    ensures forall k :: 0 <= k < |TicksOf(steps)| ==>
      steps != [] && TicksOf(steps)[k].now.second <= steps[|steps| - 1].now.second
  {
    hide InSession;
    if steps != [] {
      var rest := steps[..|steps| - 1];
      SessionOf(rest, day);
      assert rest != [] ==> rest[|rest| - 1] == steps[|rest| - 1];
    }
  }

  /** A refused tick, a refresh or a poll leaves today's bar fields alone, and
      without any it at most blanks them. */
  lemma StutterOrBlank(e: Option<Entry>, s: Step, day: nat)
    requires !Accepted(s) && s.now.day == day
    ensures Carries(e, day) ==> Carries(Apply(e, s), day) && FieldsOf(Apply(e, s)) == FieldsOf(e)
    ensures FieldsOf(Apply(e, s)) == FieldsOf(e) || FieldsOf(Apply(e, s)) == BLANK
  {
  }

  /** So what readers find under the key is today's WebSocket ticks grouped by
      slot. */
  lemma {:induction false} StoredBarsAreGrouped(e: Option<Entry>, steps: seq<Step>, day: nat)
    requires OneDay(steps, day) && FieldsOf(e).date != Some(day) && TicksOf(steps) != []
    ensures var s, ticks := FieldsOf(Run(e, steps)), TicksOf(steps);
      && s.bars.Some? && s.key.Some?
      && AllBars(s) == Grouped(Prints(Prior(e, steps).lastCum, ticks), 1, SLOTS_PER_DAY * day + 186)
      && s.dayHigh == Some(High(AllBars(s))) && s.dayLow == Some(Low(AllBars(s)))
  {
    hide Fold, AllBars, High, Low;
    BarsAreTheTicks(e, steps, day);
    StreamIsGrouping(Prior(e, steps), TicksOf(steps), day);
  }

  /** The poller's overwrite takes the refresh's guard away until the next tick: it
      does not carry the stamp. */
  lemma PollDefeatsGuard(e: Option<Entry>, at: Clock, history: real, now: Clock)
    ensures var after := Apply(e, Poll(at, Some(history))); after.Some? && !Fresh(after.value, now)
  {
  }

  // ---- the last price and the stamp over runs ------------------------------

  /** Step `k` of a run sets the stored price: a WebSocket tick in session, a refresh
      in session that is not guarded, or a poll that finds no price of today. */
  predicate SetsClose(e: Option<Entry>, steps: seq<Step>, k: nat)
    requires k < |steps|
  {
    var was := Run(e, steps[..k]);
    match steps[k]
    case WsTick(now, ltp, _) => InSession(now) && ltp > 0.0
    case Refresh(now, ltp) => InSession(now) && ltp > 0.0 && !Guarded(was, now)
    case Poll(now, history) =>
      && history.Some?
      && !(was.Some? && was.value.close != 0.0 && was.value.fields.date == Some(now.day)
           && was.value.fields.dayHigh.Some? && was.value.fields.dayLow.Some?)
  }

  function PriceOf(s: Step): real {
    match s
    case WsTick(_, ltp, _) => ltp
    case Refresh(_, ltp) => ltp
    case Poll(_, history) => history.GetOr(0.0)
  }

  lemma SetsCloseBefore(e: Option<Entry>, steps: seq<Step>, k: nat)
    requires k + 1 < |steps|
    ensures SetsClose(e, steps[..|steps| - 1], k) == SetsClose(e, steps, k)
  {
    hide Run;
    assert steps[..|steps| - 1][..k] == steps[..k];
  }

  /** The stored price is that of the last step that set one. */
  lemma {:induction false} CloseIs(e: Option<Entry>, steps: seq<Step>, k: nat)
    requires k < |steps| && SetsClose(e, steps, k) && forall j :: k < j < |steps| ==> !SetsClose(e, steps, j)
    ensures Run(e, steps).Some? && Run(e, steps).value.close == PriceOf(steps[k])
  {
    var n := |steps| - 1;
    if k < n {
      hide SetsClose;
      forall j | k <= j < n ensures SetsClose(e, steps[..n], j) == SetsClose(e, steps, j) {
        SetsCloseBefore(e, steps, j);
      }
      CloseIs(e, steps[..n], k);
      assert !SetsClose(e, steps, n);
      CloseStays(e, steps);
    } else {
      CloseSet(e, steps);
    }
  }

  lemma CloseSet(e: Option<Entry>, steps: seq<Step>)
    requires steps != [] && SetsClose(e, steps, |steps| - 1)
    ensures Run(e, steps).Some? && Run(e, steps).value.close == PriceOf(steps[|steps| - 1])
  {
    hide Updated, InSession;
  }

  lemma CloseStays(e: Option<Entry>, steps: seq<Step>)
    requires steps != [] && !SetsClose(e, steps, |steps| - 1)
    ensures var was := Run(e, steps[..|steps| - 1]);
      if was.Some? then Run(e, steps).Some? && Run(e, steps).value.close == was.value.close else Run(e, steps).None?
  {
    hide Updated, InSession;
  }

  /** And without one, the price that was there. */
  lemma {:induction false} CloseKept(e: Option<Entry>, steps: seq<Step>)
    requires forall j :: 0 <= j < |steps| ==> !SetsClose(e, steps, j)
    ensures if e.Some? then Run(e, steps).Some? && Run(e, steps).value.close == e.value.close else Run(e, steps).None?
  {
    if steps != [] {
      var n := |steps| - 1;
      hide SetsClose;
      forall j | 0 <= j < n ensures SetsClose(e, steps[..n], j) == SetsClose(e, steps, j) {
        SetsCloseBefore(e, steps, j);
      }
      CloseKept(e, steps[..n]);
      CloseStays(e, steps);
    }
  }

  /** The stamp is the time of the last WebSocket tick, unless a poll has written
      since; nothing else touches it. */
  lemma {:induction false} StampIs(e: Option<Entry>, steps: seq<Step>, k: nat)
    requires k < |steps| && (Accepted(steps[k]) || (steps[k].Poll? && steps[k].history.Some?))
    requires forall j :: k < j < |steps| ==> !Accepted(steps[j]) && (steps[j].Poll? ==> steps[j].history.None?)
    ensures Run(e, steps).Some?
    ensures Run(e, steps).value.wsStamp == if steps[k].WsTick? then Some(steps[k].now) else None
  {
    hide Updated, InSession;
    var n := |steps| - 1;
    if k < n {
      StampIs(e, steps[..n], k);
    }
  }
}
