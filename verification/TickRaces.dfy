/** The shared tick key when reads and writes come apart.

    The WebSocket thread, any number of REST refreshes and any number of polls each
    read the entry, hold their copy for a while and write it back changed. A
    refresh or a poll writes the bar fields of its copy, however old. */
module TickRaces {
  import opened Wrappers
  import opened BarGroups
  import opened IntradayBar
  import opened TickStore

  datatype Kind = Refreshing(ltp: real) | Polling(history: real)

  /** What a refresh or a poll has read; `seen` ticks had been written by then. */
  datatype Copy = Copy(kind: Kind, entry: Option<Entry>, now: Clock, seen: nat)

  datatype Ticking = Ticking(fields: BarState, tick: Tick)

  /** The key and its writers' copies. `ticks` are the day's ticks as written, and
      `base` the fields the first of them was built on. */
  datatype Shared = Shared(
    entry: Option<Entry>, ws: Option<Ticking>, copies: map<nat, Copy>,
    base: BarState, ticks: seq<Tick>)

  datatype Move =
    | WsRead(tick: Tick)
    | WsWrite
    | RefreshRead(task: nat, now: Clock, ltp: real)
    | PollRead(task: nat, now: Clock, history: Option<real>)
    | CopyWrite(task: nat)

  /** What a refresh or a poll writes. */
  function Written(c: Copy): Entry {
    match c.kind
    case Refreshing(ltp) => if c.entry.Some? then c.entry.value.(close := ltp) else Entry(ltp, BLANK, None)
    case Polling(history) =>
      if Carries(c.entry, c.now.day) then
        Entry(if c.entry.value.close != 0.0 then c.entry.value.close else history, c.entry.value.fields, None)
      else Entry(history, BLANK, None)
  }

  /** A refresh that reads `e` goes on to write. */
  predicate Refreshes(e: Option<Entry>, now: Clock, ltp: real) {
    InSession(now) && ltp > 0.0 && (e.None? || !Fresh(e.value, now))
  }

  function Next(w: Shared, m: Move): Shared {
    match m
    case WsRead(t) =>
      if w.ws.None? && InSession(t.now) && t.ltp > 0.0 then w.(ws := Some(Ticking(FieldsOf(w.entry), t))) else w
    case WsWrite =>
      if w.ws.None? then w
      else
        var (f, t) := (w.ws.value.fields, w.ws.value.tick);
        w.(entry := Some(Entry(t.ltp, Updated(f, t.now, t.ltp, t.volume), Some(t.now))), ws := None,
           base := if w.ticks == [] then f else w.base, ticks := w.ticks + [t])
    case RefreshRead(task, now, ltp) =>
      if task in w.copies || !Refreshes(w.entry, now, ltp) then w
      else w.(copies := w.copies[task := Copy(Refreshing(ltp), w.entry, now, |w.ticks|)])
    case PollRead(task, now, history) =>
      if task in w.copies || history.None? then w
      else w.(copies := w.copies[task := Copy(Polling(history.value), w.entry, now, |w.ticks|)])
    case CopyWrite(task) =>
      if task in w.copies then w.(entry := Some(Written(w.copies[task])), copies := w.copies - {task}) else w
  }

  /** A writer nothing comes between does one whole step of the store. */
  lemma AtOnceIsAStep(w: Shared, task: nat, t: Tick, now: Clock, ltp: real, history: Option<real>)
    requires w.ws.None? && task !in w.copies
    ensures Next(Next(w, WsRead(t)), WsWrite).entry == Apply(w.entry, WsTick(t.now, t.ltp, t.volume))
    ensures Next(Next(w, RefreshRead(task, now, ltp)), CopyWrite(task)).entry == Apply(w.entry, Refresh(now, ltp))
    ensures Next(Next(w, PollRead(task, now, history)), CopyWrite(task)).entry == Apply(w.entry, Poll(now, history))
  {
    hide Updated, InSession;
  }

  function Run(e: Option<Entry>, ms: seq<Move>): Shared {
    if ms == [] then Shared(e, None, map[], BLANK, []) else Next(Run(e, ms[..|ms| - 1]), ms[|ms| - 1])
  }

  // ---- the question --------------------------------------------------------

  /** The bar fields are the fold of the ticks written today. */
  predicate HoldsTicks(w: Shared, day: nat) {
    if w.ticks == [] then FieldsOf(w.entry).date != Some(day) else FieldsOf(w.entry) == Fold(w.base, w.ticks)
  }

  /** Ticks that leave bar fields as they are: all in the forming slot and inside
      its range, the last at its close, without a new reading of the volume. */
  predicate Redundant(s: BarState, ts: seq<Tick>) {
    && s.key.Some? && s.high.Some? && s.low.Some?
    && (forall k :: 0 <= k < |ts| ==>
          && ts[k].now.Slot() == s.key.value && s.low.value <= ts[k].ltp <= s.high.value
          && (ts[k].volume.None? || ts[k].volume == s.lastCum))
    && (ts != [] ==> s.close == Some(ts[|ts| - 1].ltp))
  }

  /** A refresh or a poll writes back a copy from before a tick that mattered. */
  predicate Wipes(w: Shared, m: Move) {
    && m.CopyWrite? && m.task in w.copies
    && (var c := w.copies[m.task];
        c.seen < |w.ticks| && (c.seen == 0 || !Redundant(FieldsOf(c.entry), w.ticks[c.seen..])))
  }

  // ---- a fold that stands still --------------------------------------------

  /** The fields as the day's ticks leave them. */
  predicate Formed(s: BarState, day: nat) {
    && s.date == Some(day) && s.dayOpen.Some? && s.dayHigh.Some? && s.dayLow.Some?
    && s.bars.Some? && s.key.Some? && s.open.Some? && s.high.Some? && s.low.Some? && s.close.Some? && s.volume.Some?
    && s.dayLow.value <= s.low.value <= s.high.value <= s.dayHigh.value
  }

  lemma UpdatedForms(s: BarState, t: Tick)
    requires s.date == Some(t.now.day) ==> Formed(s, t.now.day)
    ensures var r := Updated(s, t.now, t.ltp, t.volume); Formed(r, t.now.day) && r.key == Some(t.now.Slot())
  {
    hide Clock.Slot;
  }

  lemma {:induction false} FoldForms(s: BarState, ts: seq<Tick>, day: nat)
    requires Session(ts, day) && ts != [] && (s.date == Some(day) ==> Formed(s, day))
    ensures Formed(Fold(s, ts), day) && Fold(s, ts).key == Some(ts[|ts| - 1].now.Slot())
  {
    var rest := ts[..|ts| - 1];
    if rest != [] { FoldForms(s, rest, day); }
    UpdatedForms(Fold(s, rest), ts[|ts| - 1]);
  }

  lemma {:induction false} FoldConcat(s: BarState, a: seq<Tick>, b: seq<Tick>)
    ensures Fold(s, a + b) == Fold(Fold(s, a), b)
  {
    hide Updated;
    if b == [] {
      assert a + b == a;
    } else {
      assert (a + b)[..|a + b| - 1] == a + b[..|b| - 1];
      FoldConcat(s, a, b[..|b| - 1]);
    }
  }

  /** The readings so far are not above the one they started from, and equal to it
      only if all of them are. */
  predicate ReadingsFell(from: Option<nat>, ts: seq<Tick>, now: Option<nat>) {
    && (from.Some? ==> now.Some? && now.value <= from.value)
    && (now == from ==> forall k :: 0 <= k < |ts| ==> ts[k].volume.None? || ts[k].volume == from)
  }

  /** What ticks inside the forming slot do. */
  predicate Grown(s: BarState, ts: seq<Tick>, r: BarState) {
    && r == s.(high := r.high, low := r.low, close := r.close, volume := r.volume, lastCum := r.lastCum,
               dayHigh := r.dayHigh, dayLow := r.dayLow)
    && s.high.Some? && s.low.Some? && s.volume.Some? && r.high.Some? && r.low.Some? && r.volume.Some?
    && r.low.value <= s.low.value && s.high.value <= r.high.value && s.volume.value <= r.volume.value
    && (forall k :: 0 <= k < |ts| ==> r.low.value <= ts[k].ltp <= r.high.value)
    && (ts != [] ==> r.close == Some(ts[|ts| - 1].ltp))
    && (r.volume == s.volume ==> ReadingsFell(s.lastCum, ts, r.lastCum))
  }

  lemma GrownOnce(s: BarState, ts: seq<Tick>, r: BarState, t: Tick)
    requires Grown(s, ts, r) && s.key == Some(t.now.Slot()) && s.date == Some(t.now.day)
    requires r.dayHigh.Some? && r.dayLow.Some?
    ensures Grown(s, ts + [t], Updated(r, t.now, t.ltp, t.volume))
  {
    hide Clock.Slot;
  }

  lemma {:induction false} InSlotGrows(s: BarState, ts: seq<Tick>, day: nat)
    requires Formed(s, day) && forall k :: 0 <= k < |ts| ==> ts[k].now.day == day && ts[k].now.Slot() == s.key.value
    ensures Grown(s, ts, Fold(s, ts)) && Fold(s, ts).dayHigh.Some? && Fold(s, ts).dayLow.Some?
  {
    hide Updated, Grown;
    if ts == [] {
      GrownNot(s);
    } else {
      var rest, t := ts[..|ts| - 1], ts[|ts| - 1];
      InSlotGrows(s, rest, day);
      GrownOnce(s, rest, Fold(s, rest), t);
      assert rest + [t] == ts;
    }
  }

  lemma GrownNot(s: BarState)
    requires s.high.Some? && s.low.Some? && s.volume.Some?
    ensures Grown(s, [], s)
  {
  }

  /** One redundant tick only moves the close. */
  lemma RedundantOnce(s: BarState, close: Option<real>, t: Tick)
    requires Formed(s, t.now.day) && s.key == Some(t.now.Slot())
    requires s.low.value <= t.ltp <= s.high.value && (t.volume.None? || t.volume == s.lastCum)
    ensures Updated(s.(close := close), t.now, t.ltp, t.volume) == s.(close := Some(t.ltp))
  {
    hide Clock.Slot;
  }

  lemma {:induction false} RedundantStands(s: BarState, ts: seq<Tick>, day: nat)
    requires Formed(s, day) && forall k :: 0 <= k < |ts| ==>
      && ts[k].now.day == day && ts[k].now.Slot() == s.key.value && s.low.value <= ts[k].ltp <= s.high.value
      && (ts[k].volume.None? || ts[k].volume == s.lastCum)
    ensures Fold(s, ts) == s.(close := if ts == [] then s.close else Some(ts[|ts| - 1].ltp))
  {
    hide Updated;
    if ts != [] {
      var rest, t := ts[..|ts| - 1], ts[|ts| - 1];
      RedundantStands(s, rest, day);
      RedundantOnce(s, Fold(s, rest).close, t);
    }
  }

  /** Later ticks leave the fields as they are if and only if they are redundant. */
  lemma {:induction false} FoldStandsIff(s: BarState, ts: seq<Tick>, day: nat)
    requires Formed(s, day) && Session(ts, day) && ts != []
    requires forall k :: 0 <= k < |ts| ==> s.key.value <= ts[k].now.Slot()
    ensures Fold(s, ts) == s <==> Redundant(s, ts)
  {
    hide Updated, Clock.Slot;
    if Redundant(s, ts) {
      RedundantStands(s, ts, day);
    } else if Fold(s, ts) == s {
      FoldForms(s, ts, day);
      forall k | 0 <= k < |ts| ensures ts[k].now.Slot() == s.key.value {
        SlotOrder(ts[k].now, ts[|ts| - 1].now);
      }
      InSlotGrows(s, ts, day);
    }
  }

  // ---- what every move keeps -----------------------------------------------

  predicate CopyOk(w: Shared, day: nat, c: Copy) {
    && c.now.day == day && c.seen <= |w.ticks|
    && if c.seen == 0 then FieldsOf(c.entry).date != Some(day) else FieldsOf(c.entry) == Fold(w.base, w.ticks[..c.seen])
  }

  /** `last` is the time of the latest tick read. */
  predicate Sound(w: Shared, day: nat, last: nat) {
    && Session(w.ticks, day) && (w.ticks != [] ==> w.ticks[|w.ticks| - 1].now.second <= last)
    && (w.ticks != [] ==> w.base.date != Some(day))
    && (forall t :: t in w.copies ==> CopyOk(w, day, w.copies[t]))
    && (w.ws.Some? ==>
          && w.ws.value.tick.now.day == day && InSession(w.ws.value.tick.now)
          && w.ws.value.tick.now.second <= last
          && (w.ticks != [] ==> w.ticks[|w.ticks| - 1].now.second <= w.ws.value.tick.now.second)
          && if w.ticks == [] then w.ws.value.fields.date != Some(day) else w.ws.value.fields == Fold(w.base, w.ticks))
  }

  predicate OnDay(m: Move, day: nat, last: nat) {
    match m
    case WsRead(t) => t.now.day == day && last <= t.now.second
    case RefreshRead(_, now, _) => now.day == day
    case PollRead(_, now, _) => now.day == day
    case _ => true
  }

  function Latest(m: Move, last: nat): nat {
    if m.WsRead? && last < m.tick.now.second then m.tick.now.second else last
  }

  lemma FoldNext(base: BarState, ticks: seq<Tick>, t: Tick)
    ensures Fold(base, ticks + [t]) == Updated(Fold(base, ticks), t.now, t.ltp, t.volume)
    ensures Fold(base, []) == base
  {
    hide Updated;
    assert (ticks + [t])[..|ticks|] == ticks;
  }

  lemma WsWriteHolds(w: Shared, day: nat, last: nat)
    requires Sound(w, day, last) && HoldsTicks(w, day)
    ensures HoldsTicks(Next(w, WsWrite), day)
  {
    hide Updated, InSession, Fold, CopyOk, Session;
    if w.ws.Some? {
      FoldNext(Next(w, WsWrite).base, w.ticks, w.ws.value.tick);
    }
  }

  lemma WsWriteKeeps(w: Shared, day: nat, last: nat)
    requires Sound(w, day, last) && HoldsTicks(w, day)
    ensures Sound(Next(w, WsWrite), day, last) && HoldsTicks(Next(w, WsWrite), day)
  {
    hide Updated, InSession, Fold, HoldsTicks;
    WsWriteHolds(w, day, last);
    if w.ws.Some? {
      var w' := Next(w, WsWrite);
      forall k | k in w'.copies ensures CopyOk(w', day, w'.copies[k]) {
        var c := w.copies[k];
        assert CopyOk(w, day, c);
        assert w'.ticks[..c.seen] == w.ticks[..c.seen];
      }
    }
  }

  lemma ReadKeeps(w: Shared, m: Move, day: nat, last: nat)
    requires Sound(w, day, last) && HoldsTicks(w, day) && OnDay(m, day, last)
    requires m.RefreshRead? || m.PollRead? || m.WsRead?
    ensures Sound(Next(w, m), day, Latest(m, last)) && HoldsTicks(Next(w, m), day)
  {
    hide Fold, InSession;
    var w' := Next(w, m);
    assert w.ticks[..|w.ticks|] == w.ticks;
    forall k | k in w'.copies ensures CopyOk(w', day, w'.copies[k]) {
      if k in w.copies { assert CopyOk(w, day, w.copies[k]); }
    }
  }

  /** What a copy puts back: its fields, or none of today's. */
  lemma WrittenFields(w: Shared, day: nat, c: Copy)
    requires CopyOk(w, day, c) && Session(w.ticks, day)
    requires w.ticks != [] ==> w.base.date != Some(day)
    ensures c.seen == 0 ==> Written(c).fields.date != Some(day)
    ensures c.seen > 0 ==> Written(c).fields == FieldsOf(c.entry)
  {
    hide Fold;
    if c.seen > 0 { FoldForms(w.base, w.ticks[..c.seen], day); }
  }

  /** Putting the fold of the first ticks back in place of the fold of all. */
  lemma OlderFoldIff(w: Shared, day: nat, c: Copy)
    requires CopyOk(w, day, c) && Session(w.ticks, day) && w.base.date != Some(day) && 0 < c.seen < |w.ticks|
    ensures FieldsOf(c.entry) == Fold(w.base, w.ticks) <==> Redundant(FieldsOf(c.entry), w.ticks[c.seen..])
  {
    hide Fold, Redundant, InSession, Clock.Slot, Formed;
    var before, since := w.ticks[..c.seen], w.ticks[c.seen..];
    assert w.ticks == before + since;
    FoldForms(w.base, before, day);
    FoldConcat(w.base, before, since);
    forall k | 0 <= k < |since| ensures before[|before| - 1].now.Slot() <= since[k].now.Slot() {
      SlotOrder(before[|before| - 1].now, since[k].now);
    }
    FoldStandsIff(Fold(w.base, before), since, day);
  }

  lemma CopyWriteKeeps(w: Shared, task: nat, day: nat, last: nat)
    requires Sound(w, day, last) && HoldsTicks(w, day) && task in w.copies
    ensures Sound(Next(w, CopyWrite(task)), day, last)
    ensures HoldsTicks(Next(w, CopyWrite(task)), day) <==> !Wipes(w, CopyWrite(task))
  {
    hide Redundant, InSession, Fold, Written;
    var c, w' := w.copies[task], Next(w, CopyWrite(task));
    assert CopyOk(w, day, c);
    forall k | k in w'.copies ensures CopyOk(w', day, w'.copies[k]) {
      assert CopyOk(w, day, w.copies[k]);
    }
    WrittenFields(w, day, c);
    if w.ticks != [] { FoldForms(w.base, w.ticks, day); }
    if c.seen == |w.ticks| {
      assert w.ticks[..c.seen] == w.ticks;
    } else if c.seen > 0 {
      OlderFoldIff(w, day, c);
    }
  }

  lemma NextHolds(w: Shared, m: Move, day: nat, last: nat)
    requires Sound(w, day, last) && HoldsTicks(w, day) && OnDay(m, day, last)
    ensures Sound(Next(w, m), day, Latest(m, last))
    ensures HoldsTicks(Next(w, m), day) <==> !Wipes(w, m)
  {
    hide Sound, HoldsTicks, Redundant, Fold;
    match m
    case WsWrite => WsWriteKeeps(w, day, last);
    case CopyWrite(task) => if task in w.copies { CopyWriteKeeps(w, task, day, last); }
    case _ => ReadKeeps(w, m, day, last);
  }

  // ---- over runs -----------------------------------------------------------

  function LastRead(ms: seq<Move>): nat {
    if ms == [] then 0 else Latest(ms[|ms| - 1], LastRead(ms[..|ms| - 1]))
  }

  /** All on one day, the WebSocket's ticks in the order of time. */
  predicate OneDayOf(ms: seq<Move>, day: nat) {
    forall n :: 0 <= n < |ms| ==> OnDay(ms[n], day, LastRead(ms[..n]))
  }

  function Before(e: Option<Entry>, ms: seq<Move>, n: nat): Shared
    requires n <= |ms|
  {
    Run(e, ms[..n])
  }

  predicate HoldsAt(e: Option<Entry>, ms: seq<Move>, n: nat, day: nat)
    requires n <= |ms|
  {
    HoldsTicks(Before(e, ms, n), day)
  }

  predicate WipesAt(e: Option<Entry>, ms: seq<Move>, n: nat)
    requires n < |ms|
  {
    Wipes(Before(e, ms, n), ms[n])
  }

  lemma BeforeNext(e: Option<Entry>, ms: seq<Move>, n: nat)
    requires n < |ms|
    ensures Before(e, ms, n + 1) == Next(Before(e, ms, n), ms[n])
    ensures LastRead(ms[..n + 1]) == Latest(ms[n], LastRead(ms[..n]))
  {
    hide Next, Latest;
    assert ms[..n + 1][..n] == ms[..n];
  }

  lemma StartHolds(e: Option<Entry>, ms: seq<Move>, day: nat)
    requires FieldsOf(e).date != Some(day)
    ensures Sound(Before(e, ms, 0), day, LastRead(ms[..0])) && HoldsAt(e, ms, 0, day)
  {
  }

  /** However reads and writes interleave over a day: the bar fields are the fold of
      the ticks written, at every point, if and only if no refresh and no poll
      writes back a copy from before a tick that mattered. */
  lemma {:induction false} TicksKeptIff(e: Option<Entry>, ms: seq<Move>, day: nat, n: nat)
    requires OneDayOf(ms, day) && FieldsOf(e).date != Some(day) && n <= |ms|
    ensures (forall k :: 0 <= k <= n ==> HoldsAt(e, ms, k, day)) <==> (forall k :: 0 <= k < n ==> !WipesAt(e, ms, k))
    ensures (forall k :: 0 <= k < n ==> !WipesAt(e, ms, k)) ==> Sound(Before(e, ms, n), day, LastRead(ms[..n]))
  {
    hide Before, HoldsTicks, Sound, Wipes, Next, OnDay, LastRead, Latest;
    if n == 0 {
      StartHolds(e, ms, day);
    } else {
      TicksKeptIff(e, ms, day, n - 1);
      BeforeNext(e, ms, n - 1);
      var holds, wiped := HoldsAt(e, ms, n, day), WipesAt(e, ms, n - 1);
      if forall k :: 0 <= k < n - 1 ==> !WipesAt(e, ms, k) {
        assert HoldsAt(e, ms, n - 1, day);
        NextHolds(Before(e, ms, n - 1), ms[n - 1], day, LastRead(ms[..n - 1]));
      }
    }
  }

  // ---- two lost ticks ------------------------------------------------------

  function At(second: nat, ltp: real): Tick {
    Tick(Clock(1, MARKET_OPEN + second), ltp, None)
  }

  lemma RunSnoc(e: Option<Entry>, ms: seq<Move>, m: Move)
    ensures Run(e, ms + [m]) == Next(Run(e, ms), m)
  {
    hide Next;
    assert (ms + [m])[..|ms|] == ms;
  }

  function After(t: Tick, s: BarState): BarState {
    Updated(s, t.now, t.ltp, t.volume)
  }

  /** A tick, a read by `reader` a second later, and a tick at 107 two seconds in. */
  function Race(reader: seq<Move>): seq<Move> {
    [WsRead(At(0, 100.0)), WsWrite] + reader + [WsRead(At(2, 107.0)), WsWrite]
  }

  lemma FirstTick()
    ensures var t := At(0, 100.0); var f := After(t, BLANK);
      && Run(None, [WsRead(t), WsWrite]) == Shared(Some(Entry(100.0, f, Some(t.now))), None, map[], BLANK, [t])
      && f.date == Some(1) && f.dayHigh == Some(100.0) && f.dayLow == Some(100.0)
  {
    var t := At(0, 100.0);
    assert Run(None, []) == Shared(None, None, map[], BLANK, []);
    RunSnoc(None, [], WsRead(t));
    RunSnoc(None, [] + [WsRead(t)], WsWrite);
    assert [] + [WsRead(t)] + [WsWrite] == [WsRead(t), WsWrite] && [] + [t] == [t];
  }

  /** The second tick lifts the day's high, and a copy read before it wipes that. */
  lemma SecondTickWiped(w: Shared, c: Copy)
    requires w.ws.None? && w.entry.Some? && w.entry.value.fields == After(At(0, 100.0), BLANK)
    requires w.ticks == [At(0, 100.0)] && 0 in w.copies && w.copies[0] == c
    requires c.seen == 1 && c.now.day == 1 && c.entry.Some? && c.entry.value.fields == w.entry.value.fields
    ensures var v := Next(Next(w, WsRead(At(2, 107.0))), WsWrite);
      && FieldsOf(v.entry).dayHigh == Some(107.0)
      && Wipes(v, CopyWrite(0)) && FieldsOf(Next(v, CopyWrite(0)).entry).dayHigh == Some(100.0)
  {
    var v := Next(Next(w, WsRead(At(2, 107.0))), WsWrite);
    assert v.ticks[1..] == [At(2, 107.0)];
    assert !Redundant(FieldsOf(c.entry), [At(2, 107.0)]) by { assert [At(2, 107.0)][0].ltp == 107.0; }
  }

  /** A poll has no guard: the tick between its read and its write is lost. */
  lemma PollLosesTick()
    ensures var ms := Race([PollRead(0, At(1, 0.0).now, Some(99.0))]);
      && FieldsOf(Run(None, ms).entry).dayHigh == Some(107.0)
      && FieldsOf(Run(None, ms + [CopyWrite(0)]).entry).dayHigh == Some(100.0)
  {
    hide Run, After, Wipes;
    var read := PollRead(0, At(1, 0.0).now, Some(99.0));
    var first := [WsRead(At(0, 100.0)), WsWrite];
    FirstTick();
    RunSnoc(None, first, read);
    RaceEnds([read]);
    var w := Run(None, first + [read]);
    SecondTickWiped(w, w.copies[0]);
  }

  lemma RaceEnds(reader: seq<Move>)
    ensures var w := Run(None, [WsRead(At(0, 100.0)), WsWrite] + reader);
      var v := Next(Next(w, WsRead(At(2, 107.0))), WsWrite);
      Run(None, Race(reader)) == v && Run(None, Race(reader) + [CopyWrite(0)]) == Next(v, CopyWrite(0))
  {
    hide Run, Next;
    var start := [WsRead(At(0, 100.0)), WsWrite] + reader;
    RunSnoc(None, start, WsRead(At(2, 107.0)));
    RunSnoc(None, start + [WsRead(At(2, 107.0))], WsWrite);
    assert start + [WsRead(At(2, 107.0))] + [WsWrite] == Race(reader);
    RunSnoc(None, Race(reader), CopyWrite(0));
  }

  /** A refresh stays away from a symbol that ticked a second ago, unless a poll has
      overwritten the entry since: that drops the stamp, and the refresh then loses
      the next tick too. */
  lemma RefreshLosesTickAfterPoll()
    ensures var read := RefreshRead(0, At(1, 0.0).now, 100.5);
      var polled := [PollRead(1, At(1, 0.0).now, Some(99.0)), CopyWrite(1), read];
      && FieldsOf(Run(None, Race([read]) + [CopyWrite(0)]).entry).dayHigh == Some(107.0)
      && FieldsOf(Run(None, Race(polled) + [CopyWrite(0)]).entry).dayHigh == Some(100.0)
  {
    hide Run, After, Wipes;
    var read := RefreshRead(0, At(1, 0.0).now, 100.5);
    var poll := PollRead(1, At(1, 0.0).now, Some(99.0));
    var first := [WsRead(At(0, 100.0)), WsWrite];
    FirstTick();
    RunSnoc(None, first, read);
    RaceEnds([read]);
    GuardHolds(Run(None, first));
    RunSnoc(None, first, poll);
    RunSnoc(None, first + [poll], CopyWrite(1));
    RunSnoc(None, first + [poll] + [CopyWrite(1)], read);
    assert first + [poll] + [CopyWrite(1)] + [read] == first + [poll, CopyWrite(1), read];
    RaceEnds([poll, CopyWrite(1), read]);
    var w := Run(None, first + [poll, CopyWrite(1), read]);
    SecondTickWiped(w, w.copies[0]);
  }

  lemma GuardHolds(w: Shared)
    requires w.ws.None? && w.copies == map[] && w.entry.Some? && w.entry.value.wsStamp == Some(At(0, 0.0).now)
    requires w.entry.value.fields == After(At(0, 100.0), BLANK)
    ensures Next(w, RefreshRead(0, At(1, 0.0).now, 100.5)) == w
    ensures var v := Next(Next(w, WsRead(At(2, 107.0))), WsWrite);
      FieldsOf(v.entry).dayHigh == Some(107.0) && Next(v, CopyWrite(0)) == v
  {
  }
}
