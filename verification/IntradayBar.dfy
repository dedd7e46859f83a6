/** The streaming builder of today's five-minute bars: one tick at a time on a
    tick dictionary, and what a day of ticks leaves there. */
module IntradayBar {
  import opened Wrappers
  import opened Reals
  import opened BarGroups

  const BAR_SECONDS := 300
  const SLOTS_PER_DAY := 288
  const MAX_BARS := 100

  /** A wall-clock reading: a day number and the second of that day. */
  datatype Clock = Clock(day: nat, second: nat) {
    /** The five-minute window, numbered through the days. */
    function Slot(): nat {
      SLOTS_PER_DAY * day + second / BAR_SECONDS
    }
  }

  const MARKET_OPEN := 33300
  const MARKET_CLOSE := 55800

  predicate InSession(now: Clock) {
    MARKET_OPEN <= now.second < MARKET_CLOSE
  }

  /** The bar fields of a tick dictionary; `None` is a missing key. */
  datatype BarState = BarState(
    date: Option<nat>, dayOpen: Option<real>, dayHigh: Option<real>, dayLow: Option<real>,
    bars: Option<seq<Bar>>, key: Option<nat>,
    open: Option<real>, high: Option<real>, low: Option<real>, close: Option<real>,
    volume: Option<int>, lastCum: Option<nat>)

  const BLANK := BarState(None, None, None, None, None, None, None, None, None, None, None, None)

  /** The rise of the cumulative volume since the last reading. */
  function Delta(lastCum: Option<nat>, volume: Option<nat>): (r: nat)
    ensures volume.None? || lastCum.None? ==> r == 0
  {
    if volume.Some? && lastCum.Some? && volume.value > lastCum.value then volume.value - lastCum.value else 0
  }

  function Reading(lastCum: Option<nat>, volume: Option<nat>): Option<nat> {
    if volume.Some? then volume else lastCum
  }

  function LastOf(bars: seq<Bar>, n: nat): (r: seq<Bar>)
    ensures |r| == if |bars| < n then |bars| else n
    ensures forall i :: 0 <= i < |r| ==> r[i] == bars[|bars| - |r| + i]
  {
    if |bars| <= n then bars else bars[|bars| - n..]
  }

  /** The bar a rollover finalizes. */
  function Closing(s: BarState, ltp: real): Bar
    requires s.key.Some?
  {
    Bar(s.key.value, s.open.GetOr(ltp), s.high.GetOr(ltp), s.low.GetOr(ltp), s.close.GetOr(ltp), s.volume.GetOr(0))
  }

  /** The fields after one tick. */
  function Updated(s: BarState, now: Clock, ltp: real, volume: Option<nat>): (r: BarState)
    ensures r.date == Some(now.day) && r.dayHigh.Some? && r.dayLow.Some?
    ensures r.lastCum == Reading(s.lastCum, volume)
  {
    var delta := Delta(s.lastCum, volume);
    var cum := Reading(s.lastCum, volume);
    var p := Some(ltp);
    if s.date != Some(now.day) then
      BarState(Some(now.day), p, p, p, Some([]), Some(now.Slot()), p, p, p, p, Some(0), cum)
    else
      var t := s.(dayHigh := Some(Max(s.dayHigh.GetOr(ltp), ltp)),
                  dayLow := Some(Min(s.dayLow.GetOr(ltp), ltp)), lastCum := cum);
      if s.key == Some(now.Slot()) then
        t.(high := Some(Max(s.high.GetOr(ltp), ltp)), low := Some(Min(s.low.GetOr(ltp), ltp)), close := p,
           volume := Some(s.volume.GetOr(0) + delta))
      else
        var bars := if s.key.Some? then Some(LastOf(s.bars.GetOr([]) + [Closing(s, ltp)], MAX_BARS)) else s.bars;
        t.(bars := bars, key := Some(now.Slot()), open := p, high := p, low := p, close := p, volume := Some(delta))
  }

  /** The tick dictionary itself, updated in place. */
  class TickEntry {
    var date: Option<nat>
    var dayOpen: Option<real>
    var dayHigh: Option<real>
    var dayLow: Option<real>
    var bars: Option<seq<Bar>>
    var key: Option<nat>
    var open: Option<real>
    var high: Option<real>
    var low: Option<real>
    var close: Option<real>
    var volume: Option<int>
    var lastCum: Option<nat>

    function State(): BarState
      reads this
    {
      BarState(date, dayOpen, dayHigh, dayLow, bars, key, open, high, low, close, volume, lastCum)
    }

    method UpdateIntradayBar(now: Clock, ltp: real, volumeTraded: Option<nat>)
      modifies this
      ensures State() == Updated(old(State()), now, ltp, volumeTraded)
    {
      hide Clock.Slot, Max, Min, LastOf;
      var delta := 0;
      if volumeTraded.Some? {
        if lastCum.Some? {
          delta := if volumeTraded.value < lastCum.value then 0 else volumeTraded.value - lastCum.value;
        }
        lastCum := volumeTraded;
      }
      if date != Some(now.day) {
        StartDay(now, ltp);
        return;
      }
      dayHigh := Some(Max(dayHigh.GetOr(ltp), ltp));
      dayLow := Some(Min(dayLow.GetOr(ltp), ltp));
      if key == Some(now.Slot()) {
        Extend(ltp, delta);
      } else {
        RollOver(now, ltp, delta);
      }
    }

    /** The first tick of a day forgets everything but the volume baseline. */
    method StartDay(now: Clock, ltp: real)
      modifies this
      ensures var p := Some(ltp);
        State() == BarState(Some(now.day), p, p, p, Some([]), Some(now.Slot()), p, p, p, p, Some(0), old(lastCum))
    {
      var p := Some(ltp);
      dayOpen, dayHigh, dayLow, date := p, p, p, Some(now.day);
      bars, key := Some([]), Some(now.Slot());
      open, high, low, close, volume := p, p, p, p, Some(0);
    }

    /** A tick inside the forming bar. */
    method Extend(ltp: real, delta: nat)
      modifies this
      ensures var s := old(State());
        State() == s.(high := Some(Max(s.high.GetOr(ltp), ltp)), low := Some(Min(s.low.GetOr(ltp), ltp)),
                      close := Some(ltp), volume := Some(s.volume.GetOr(0) + delta))
    {
      high := Some(Max(high.GetOr(ltp), ltp));
      low := Some(Min(low.GetOr(ltp), ltp));
      close := Some(ltp);
      volume := Some(volume.GetOr(0) + delta);
    }

    /** A tick in a later window: the forming bar is finished, a new one starts. */
    method RollOver(now: Clock, ltp: real, delta: nat)
      modifies this
      ensures var s, p := old(State()), Some(ltp);
        var done := if s.key.Some? then Some(LastOf(s.bars.GetOr([]) + [Closing(s, ltp)], MAX_BARS)) else s.bars;
        State() == s.(bars := done, key := Some(now.Slot()), open := p, high := p, low := p, close := p,
                      volume := Some(delta))
    {
      if key.Some? {
        var finished := Bar(key.value, open.GetOr(ltp), high.GetOr(ltp), low.GetOr(ltp), close.GetOr(ltp),
                            volume.GetOr(0));
        bars := Some(LastOf(bars.GetOr([]) + [finished], MAX_BARS));
      }
      var p := Some(ltp);
      key := Some(now.Slot());
      open, high, low, close, volume := p, p, p, p, Some(delta);
    }
  }

  /** What a tick on the day of the dictionary does whatever keys are missing: a
      missing price counts as the tick's, a missing volume as none, missing bars as no
      bars; and a rollover keeps the latest hundred bars. */
  lemma MissingKeys(s: BarState, now: Clock, ltp: real, volume: Option<nat>)
    requires s.date == Some(now.day)
    ensures var r := Updated(s, now, ltp, volume);
      var rise := if volume.Some? && s.lastCum.Some? && volume.value > s.lastCum.value
                  then volume.value - s.lastCum.value else 0;
      && r.lastCum == (if volume.Some? then volume else s.lastCum)
      && r.date == s.date && r.dayOpen == s.dayOpen && r.key == Some(now.Slot()) && r.close == Some(ltp)
      && r.dayHigh == Some(if s.dayHigh.Some? then Max(s.dayHigh.value, ltp) else ltp)
      && r.dayLow == Some(if s.dayLow.Some? then Min(s.dayLow.value, ltp) else ltp)
      && (s.key == Some(now.Slot()) ==>
          && r.bars == s.bars && r.open == s.open
          && r.high == Some(if s.high.Some? then Max(s.high.value, ltp) else ltp)
          && r.low == Some(if s.low.Some? then Min(s.low.value, ltp) else ltp)
          && r.volume == Some((if s.volume.Some? then s.volume.value else 0) + rise))
      && (s.key != Some(now.Slot()) ==>
          r.open == r.high == r.low == Some(ltp) && r.volume == Some(rise))
      && (s.key.None? ==> r.bars == s.bars)
      && (s.key.Some? && s.key != Some(now.Slot()) ==>
          && r.bars.Some? && 0 < |r.bars.value| <= 100
          && |r.bars.value| == (if s.bars.None? then 1 else if |s.bars.value| < 100 then |s.bars.value| + 1 else 100)
          && r.bars.value[|r.bars.value| - 1].key == s.key.value
          && r.bars.value[|r.bars.value| - 1].close == (if s.close.Some? then s.close.value else ltp)
          && r.bars.value[|r.bars.value| - 1].open == (if s.open.Some? then s.open.value else ltp)
          && r.bars.value[|r.bars.value| - 1].high == (if s.high.Some? then s.high.value else ltp)
          && r.bars.value[|r.bars.value| - 1].low == (if s.low.Some? then s.low.value else ltp)
          && r.bars.value[|r.bars.value| - 1].volume == (if s.volume.Some? then s.volume.value else 0))
  {
    hide Clock.Slot;
  }

  // ---- a day of ticks ------------------------------------------------------

  datatype Tick = Tick(now: Clock, ltp: real, volume: Option<nat>)

  function Fold(s: BarState, ticks: seq<Tick>): BarState {
    if ticks == [] then s
    else
      var t := ticks[|ticks| - 1];
      Updated(Fold(s, ticks[..|ticks| - 1]), t.now, t.ltp, t.volume)
  }

  /** Ticks of one day, in time order, inside market hours. */
  predicate Session(ticks: seq<Tick>, day: nat) {
    && (forall i :: 0 <= i < |ticks| ==> ticks[i].now.day == day && InSession(ticks[i].now))
    && forall i, j :: 0 <= i < j < |ticks| ==> ticks[i].now.second <= ticks[j].now.second
  }

  function LastReading(base: Option<nat>, ticks: seq<Tick>): Option<nat> {
    if ticks == [] then base else Reading(LastReading(base, ticks[..|ticks| - 1]), ticks[|ticks| - 1].volume)
  }

  /** Each tick as a flat candle; the day's first one carries no volume, the
      others the rise of the cumulative feed. */
  function Prints(base: Option<nat>, ticks: seq<Tick>): (ps: seq<Bar>)
    ensures |ps| == |ticks|
    ensures forall i :: 0 <= i < |ps| ==>
      var p := ticks[i].ltp; ps[i] == Bar(ticks[i].now.Slot(), p, p, p, p, ps[i].volume)
  {
    if ticks == [] then []
    else
      var rest, t := ticks[..|ticks| - 1], ticks[|ticks| - 1];
      var v := if rest == [] then 0 else Delta(LastReading(base, rest), t.volume);
      Prints(base, rest) + [Bar(t.now.Slot(), t.ltp, t.ltp, t.ltp, t.ltp, v)]
  }

  /** All the bars of a state, the forming one last. */
  function AllBars(s: BarState): seq<Bar>
    requires s.bars.Some? && s.key.Some?
  {
    s.bars.value + [Closing(s, 0.0)]
  }

  /** The state holds the bars of the prints `ps` grouped by slot, and the day's
      opening price and extremes. */
  predicate Holds(s: BarState, ps: seq<Bar>)
    requires ps != []
  {
    var c := ps[|ps| - 1].key;
    && s.open.Some? && s.high.Some? && s.low.Some? && s.close.Some? && s.volume.Some?
    && s.bars == Some(Grouped(ps, 1, c))
    && s.key == Some(c) && Select(ps, 1, c) != [] && Closing(s, 0.0) == Merge(Select(ps, 1, c), c)
    && s.dayOpen == Some(ps[0].open) && s.dayHigh == Some(High(ps)) && s.dayLow == Some(Low(ps))
  }

  lemma SlotOrder(a: Clock, b: Clock)
    requires a.day == b.day && a.second <= b.second
    ensures a.Slot() <= b.Slot()
  {
  }

  /** A session spans 75 slots. */
  lemma SessionSlots(now: Clock)
    requires now.second < 86400
    ensures InSession(now) <==> 288 * now.day + 111 <= now.Slot() < 288 * now.day + 186
    ensures now.Slot() - 288 * now.day == now.second / 300
  {
  }

  lemma PrintsSorted(base: Option<nat>, ticks: seq<Tick>, day: nat)
    requires Session(ticks, day)
    ensures Sorted(Prints(base, ticks))
    ensures forall i :: 0 <= i < |ticks| ==>
      SLOTS_PER_DAY * day + 111 <= Prints(base, ticks)[i].key < SLOTS_PER_DAY * day + 186
  {
    forall i | 0 <= i < |ticks|
      ensures SLOTS_PER_DAY * day + 111 <= Prints(base, ticks)[i].key < SLOTS_PER_DAY * day + 186
    {
      SessionSlots(ticks[i].now);
    }
    forall i, j | 0 <= i < j < |ticks| ensures Prints(base, ticks)[i].key <= Prints(base, ticks)[j].key {
      SlotOrder(ticks[i].now, ticks[j].now);
    }
  }

  /** One more print, in the slot of the forming bar. */
  lemma SameSlot(s: BarState, ps: seq<Bar>, b: Bar)
    requires ps != [] && Holds(s, ps) && b.key == ps[|ps| - 1].key
    requires b.open == b.high == b.low == b.close
    ensures Holds(s.(high := Some(Max(s.high.value, b.close)), low := Some(Min(s.low.value, b.close)),
                     close := Some(b.close), volume := Some(s.volume.value + b.volume),
                     dayHigh := Some(Max(s.dayHigh.value, b.close)), dayLow := Some(Min(s.dayLow.value, b.close))),
                  ps + [b])
  {
    hide Select, Grouped;
    var c := b.key;
    GroupedBefore(ps, b, c);
    SelectLast(ps, b, 1, c);
    Concat(ps, [b]);
    Concat(Select(ps, 1, c), [b]);
    assert Volume([b]) == Volume([]) + b.volume;
  }

  /** One more print, in a later slot. */
  lemma NextSlot(s: BarState, ps: seq<Bar>, b: Bar)
    requires ps != [] && Holds(s, ps) && Sorted(ps) && b.key > ps[|ps| - 1].key
    requires b.open == b.high == b.low == b.close
    ensures var p := Some(b.close);
      Holds(s.(bars := Some(s.bars.value + [Closing(s, b.close)]), key := Some(b.key), open := p, high := p, low := p,
               close := p, volume := Some(b.volume),
               dayHigh := Some(Max(s.dayHigh.value, b.close)), dayLow := Some(Min(s.dayLow.value, b.close))),
            ps + [b])
  {
    hide Select, Grouped;
    var c := ps[|ps| - 1].key;
    GroupedBefore(ps, b, b.key);
    GroupedBeyond(ps, c, b.key);
    SelectLast(ps, b, 1, b.key);
    SelectNone(ps, b.key);
    Concat(ps, [b]);
    assert [] + [b] == [b];
    assert Volume([b]) == Volume([]) + b.volume;
  }

  /** The streaming builder refines grouping by slot: whatever the dictionary held
      before the day's first tick, after any session's ticks it holds their
      five-minute bars, the last one still forming. */
  lemma {:induction false} BuildsBars(prior: BarState, ticks: seq<Tick>, day: nat)
    requires Session(ticks, day) && ticks != [] && prior.date != Some(day)
    ensures var s := Fold(prior, ticks);
      s.date == Some(day) && s.lastCum == LastReading(prior.lastCum, ticks) && Holds(s, Prints(prior.lastCum, ticks))
  {
    hide Holds, Updated, High, Low, Grouped, Select;
    var rest, t := ticks[..|ticks| - 1], ticks[|ticks| - 1];
    var ps := Prints(prior.lastCum, rest);
    if rest == [] {
      FirstTick(prior, t);
      assert ticks == [t];
    } else {
      BuildsBars(prior, rest, day);
      PrintsSorted(prior.lastCum, ticks, day);
      var s := Fold(prior, rest);
      var v := Delta(s.lastCum, t.volume);
      var b := Bar(t.now.Slot(), t.ltp, t.ltp, t.ltp, t.ltp, v);
      assert Prints(prior.lastCum, ticks) == ps + [b];
      assert ps[|ps| - 1] == Prints(prior.lastCum, ticks)[|ps| - 1];
      BuildsOne(s, ps, t, b, day);
    }
  }

  lemma FirstTick(prior: BarState, t: Tick)
    requires prior.date != Some(t.now.day)
    ensures Prints(prior.lastCum, [t]) == [Bar(t.now.Slot(), t.ltp, t.ltp, t.ltp, t.ltp, 0)]
    ensures Fold(prior, [t]) == Updated(prior, t.now, t.ltp, t.volume)
    ensures LastReading(prior.lastCum, [t]) == Reading(prior.lastCum, t.volume)
    ensures Holds(Fold(prior, [t]), Prints(prior.lastCum, [t]))
  {
    assert [t][..0] == [];
    var b := Bar(t.now.Slot(), t.ltp, t.ltp, t.ltp, t.ltp, 0);
    GroupedBefore([], b, b.key);
    SelectLast([], b, 1, b.key);
    assert [] + [b] == [b];
    GroupedNothing(b.key);
    assert Volume([b]) == Volume([]) + b.volume;
  }

  lemma {:induction false} GroupedNothing(n: nat)
    ensures Grouped([], 1, n) == []
  {
    if n > 0 { GroupedNothing(n - 1); }
  }

  lemma BuildsOne(s: BarState, ps: seq<Bar>, t: Tick, b: Bar, day: nat)
    requires ps != [] && Holds(s, ps) && Sorted(ps + [b]) && s.date == Some(day) == Some(t.now.day)
    requires b == Bar(t.now.Slot(), t.ltp, t.ltp, t.ltp, t.ltp, Delta(s.lastCum, t.volume))
    requires forall i :: 0 <= i < |ps| ==> SLOTS_PER_DAY * day + 111 <= ps[i].key < SLOTS_PER_DAY * day + 186
    ensures Holds(Updated(s, t.now, t.ltp, t.volume), ps + [b])
  {
    hide Grouped, Select, High, Low, Volume;
    var c := ps[|ps| - 1].key;
    assert ps[|ps| - 1] == (ps + [b])[|ps| - 1] && (ps + [b])[|ps|] == b;
    if c == b.key {
      SameSlot(s, ps, b);
    } else {
      assert Sorted(ps) by {
        forall i, j | 0 <= i < j < |ps| ensures ps[i].key <= ps[j].key {
          assert ps[i] == (ps + [b])[i] && ps[j] == (ps + [b])[j];
        }
      }
      NextSlot(s, ps, b);
      GroupedSize(ps, SLOTS_PER_DAY * day + 111, c);
    }
  }

  // ---- the series a session leaves -----------------------------------------

  /** Finished and forming bars together are the session's ticks grouped by slot:
      one bar for every slot that ticked, in time order and never more than 75, so
      the cap of a hundred drops none; and the day's range is the bars' range. */
  lemma {:induction false} StreamIsGrouping(prior: BarState, ticks: seq<Tick>, day: nat)
    requires Session(ticks, day) && ticks != [] && prior.date != Some(day)
    ensures var s, ps := Fold(prior, ticks), Prints(prior.lastCum, ticks);
      && s.bars.Some? && s.key.Some?
      && AllBars(s) == Grouped(ps, 1, SLOTS_PER_DAY * day + 186)
      && 0 < |AllBars(s)| <= 75
      && (forall i, j :: 0 <= i < j < |AllBars(s)| ==> AllBars(s)[i].key < AllBars(s)[j].key)
      && (forall i :: 0 <= i < |ticks| ==> HasKey(AllBars(s), ticks[i].now.Slot()))
      && s.dayOpen == Some(ticks[0].ltp) && s.dayHigh == Some(High(AllBars(s))) && s.dayLow == Some(Low(AllBars(s)))
  {
    hide Grouped, Select, High, Low, Volume, HasKey, Clock.Slot;
    var ps, end := Prints(prior.lastCum, ticks), SLOTS_PER_DAY * day + 186;
    var c := ps[|ps| - 1].key;
    BuildsBars(prior, ticks, day);
    PrintsSorted(prior.lastCum, ticks, day);
    GroupedBeyond(ps, c, end);
    GroupedSize(ps, SLOTS_PER_DAY * day + 111, end);
    GroupedAscends(ps, 1, end);
    GroupedKeeps(ps, end);
    BelowAll(ps, end);
    forall i | 0 <= i < |ticks| ensures HasKey(Grouped(ps, 1, end), ticks[i].now.Slot()) {
      SelectMembers(ps, 1, ps[i].key);
      assert GroupOf(ps[i].key, 1) == ps[i].key;
    }
  }

  // ---- volume --------------------------------------------------------------

  /** The cumulative readings of the session, in order. */
  function Readings(ticks: seq<Tick>): seq<nat> {
    if ticks == [] then []
    else
      var rest, t := Readings(ticks[..|ticks| - 1]), ticks[|ticks| - 1];
      if t.volume.Some? then rest + [t.volume.value] else rest
  }

  /** The sum of the positive increments of a feed. */
  function Rises(vs: seq<nat>): nat {
    if |vs| < 2 then 0
    else
      var a, b := vs[|vs| - 2], vs[|vs| - 1];
      Rises(vs[..|vs| - 1]) + if a < b then b - a else 0
  }

  lemma {:induction false} RisesTelescope(vs: seq<nat>)
    requires vs != [] && forall i, j :: 0 <= i < j < |vs| ==> vs[i] <= vs[j]
    ensures Rises(vs) == vs[|vs| - 1] - vs[0]
  {
    if |vs| > 1 { RisesTelescope(vs[..|vs| - 1]); }
  }

  /** What an old baseline adds: the rise to the day's first reading, when it is
      not the first tick that brings it. */
  function Carried(base: Option<nat>, ticks: seq<Tick>): nat
    requires ticks != []
  {
    var vs := Readings(ticks);
    if ticks[0].volume.None? && base.Some? && vs != [] && base.value < vs[0] then vs[0] - base.value else 0
  }

  lemma {:induction false} VolumeOfPrints(base: Option<nat>, ticks: seq<Tick>)
    requires ticks != []
    ensures Volume(Prints(base, ticks)) == Rises(Readings(ticks)) + Carried(base, ticks)
    ensures LastReading(base, ticks) ==
      if Readings(ticks) == [] then base else Some(Readings(ticks)[|Readings(ticks)| - 1])
    ensures ticks[0].volume.Some? ==> Readings(ticks) != []
  {
    hide Rises, Clock.Slot;
    var rest, t := ticks[..|ticks| - 1], ticks[|ticks| - 1];
    var ps, qs, vs := Prints(base, rest), Prints(base, ticks), Readings(rest);
    assert qs[..|qs| - 1] == ps;
    assert Volume(qs) == Volume(ps) + qs[|qs| - 1].volume;
    RisesNothing();
    if rest != [] {
      VolumeOfPrints(base, rest);
    }
    if t.volume.Some? {
      RisesNext(vs, t.volume.value);
      assert Readings(ticks) == vs + [t.volume.value];
    }
  }

  lemma RisesNothing()
    ensures Rises([]) == 0
  {
  }

  lemma RisesNext(vs: seq<nat>, v: nat)
    ensures Rises(vs + [v]) == Rises(vs) + if vs != [] && vs[|vs| - 1] < v then v - vs[|vs| - 1] else 0
  {
    assert (vs + [v])[..|vs|] == vs;
  }

  /** Volume is conserved: all the bars together hold the positive increments of
      the cumulative feed, plus what an old baseline carried in; so they hold
      exactly the increments if and only if the first tick has a reading, or there
      was no baseline, or no reading, or none above the baseline. */
  lemma {:induction false} VolumeConserved(prior: BarState, ticks: seq<Tick>, day: nat)
    requires Session(ticks, day) && ticks != [] && prior.date != Some(day)
    ensures var s, vs := Fold(prior, ticks), Readings(ticks);
      && s.bars.Some? && s.key.Some?
      && Volume(AllBars(s)) == Rises(vs) + Carried(prior.lastCum, ticks)
      && (Volume(AllBars(s)) == Rises(vs) <==>
          ticks[0].volume.Some? || prior.lastCum.None? || vs == [] || vs[0] <= prior.lastCum.value)
  {
    hide Grouped, Volume, AllBars, Rises, LastReading, Prints, Fold;
    var ps, end := Prints(prior.lastCum, ticks), SLOTS_PER_DAY * day + 186;
    StreamIsGrouping(prior, ticks, day);
    PrintsSorted(prior.lastCum, ticks, day);
    GroupedKeeps(ps, end);
    BelowAll(ps, end);
    VolumeOfPrints(prior.lastCum, ticks);
  }

  // ---- the fifteen-minute resample -----------------------------------------

  const WIDE := 3

  /** Three slots are a quarter of an hour, counted from midnight. */
  lemma WideSlots(now: Clock)
    requires now.second < 86400
    ensures GroupOf(now.Slot(), WIDE) == 96 * now.day + now.second / 900
  {
  }

  /** Resampling the finished five-minute bars of a session into fifteen-minute
      ones gives what grouping the session's ticks before the forming bar by fifteen
      minutes gives directly. */
  lemma ResampleIsDirect(prior: BarState, ticks: seq<Tick>, day: nat, groups: nat)
    requires Session(ticks, day) && ticks != [] && prior.date != Some(day)
    ensures var s, ps := Fold(prior, ticks), Prints(prior.lastCum, ticks);
      && s.bars.Some? && s.key.Some?
      && Grouped(s.bars.value, WIDE, groups) == Grouped(Below(ps, s.key.value), WIDE, groups)
  {
    hide Grouped, Select, High, Low, Volume;
    var ps := Prints(prior.lastCum, ticks);
    BuildsBars(prior, ticks, day);
    PrintsSorted(prior.lastCum, ticks, day);
    RegroupedIsGrouped(ps, WIDE, ps[|ps| - 1].key, groups);
  }
}
