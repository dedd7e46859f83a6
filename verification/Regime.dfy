/** The market regime with its hysteresis, and the switching of strategies that
    follows it without undoing anyone else's pause. */
module Regime {
  import opened Wrappers

  const VIX_LOW := 12.0
  const VIX_HIGH := 20.0
  const ATR_TREND := 1.5
  const ATR_TREND_EXIT := 1.3

  datatype MarketRegime = Trending | RangeBound | Volatile | LowVol | Unknown

  /** What one detection sees: the indicators, whether both are real, and whether
      the cached regime could be read. */
  datatype Reading = Reading(vix: real, atr: real, known: bool, readable: bool)

  function Classify(vix: real, atr: real, prev: Option<MarketRegime>): MarketRegime {
    if vix > VIX_HIGH then Volatile
    else if atr >= (if prev == Some(Trending) then ATR_TREND_EXIT else ATR_TREND) then Trending
    else if vix < VIX_LOW then LowVol
    else RangeBound
  }

  function Detected(cache: Option<MarketRegime>, r: Reading): MarketRegime {
    if r.known then Classify(r.vix, r.atr, if r.readable then cache else None) else Unknown
  }

  /** The cached regime after a run of detections. */
  function Detections(cache: Option<MarketRegime>, rs: seq<Reading>): Option<MarketRegime> {
    if rs == [] then cache else Some(Detected(Detections(cache, rs[..|rs| - 1]), rs[|rs| - 1]))
  }

  // ---- hysteresis over a run -----------------------------------------------

  /** Enough to enter the trend from any regime. */
  predicate Enters(r: Reading) {
    r.known && r.vix <= 20.0 && r.atr >= 1.5
  }

  /** Enough to stay in it. */
  predicate Sustains(r: Reading) {
    r.known && r.vix <= 20.0 && (r.atr >= 1.5 || (r.readable && r.atr >= 1.3))
  }

  /** The trend began before step `k`, by an entry or because the run started in
      it, and every later step sustained it. */
  predicate TrendSince(cache: Option<MarketRegime>, rs: seq<Reading>, k: nat)
    requires k <= |rs|
  {
    && (if k == 0 then cache == Some(Trending) else Enters(rs[k - 1]))
    && forall j :: k <= j < |rs| ==> Sustains(rs[j])
  }

  /** The regime is TRENDING after a run if and only if some entry, or a trending
      start, has been sustained by every reading since. */
  lemma {:induction false} TrendingIff(cache: Option<MarketRegime>, rs: seq<Reading>)
    ensures Detections(cache, rs) == Some(Trending) <==> exists k: nat :: k <= |rs| && TrendSince(cache, rs, k)
  {
    if rs == [] {
      assert cache == Some(Trending) ==> TrendSince(cache, rs, 0);
    } else {
      var n := |rs| - 1;
      var before, r := rs[..n], rs[n];
      TrendingIff(cache, before);
      if Enters(r) {
        assert TrendSince(cache, rs, n + 1);
      } else if Sustains(r) && Detections(cache, before) == Some(Trending) {
        var k: nat :| k <= n && TrendSince(cache, before, k);
        assert TrendSince(cache, rs, k) by {
          forall j | k <= j < |rs| ensures Sustains(rs[j]) {
            if j < n { assert rs[j] == before[j]; }
          }
        }
      }
      forall k: nat | k <= |rs| && TrendSince(cache, rs, k) ensures Detections(cache, rs) == Some(Trending) {
        if k <= n {
          assert forall j :: 0 <= j < n ==> before[j] == rs[j];
          assert TrendSince(cache, before, k);
        }
      }
    }
  }

  /** The regime after a run, in full: unknown without real data, volatile above a
      VIX of 20, trending while a trend is sustained, and otherwise told apart by a VIX
      of 12. */
  lemma RegimeIff(cache: Option<MarketRegime>, rs: seq<Reading>)
    requires rs != []
    ensures var r, now := rs[|rs| - 1], Detections(cache, rs);
      var trend := exists k: nat :: k <= |rs| && TrendSince(cache, rs, k);
      && (now == Some(Unknown) <==> !r.known)
      && (now == Some(Volatile) <==> r.known && r.vix > 20.0)
      && (now == Some(Trending) <==> trend)
      && (now == Some(LowVol) <==> r.known && !trend && r.vix < 12.0)
      && (now == Some(RangeBound) <==> r.known && !trend && 12.0 <= r.vix <= 20.0)
  {
    TrendingIff(cache, rs);
  }

  predicate EntryAt(cache: Option<MarketRegime>, rs: seq<Reading>, i: nat)
    requires i < |rs|
  {
    Detections(cache, rs[..i]) != Some(Trending) && Detections(cache, rs[..i + 1]) == Some(Trending)
  }

  /** Between two entries the band is crossed: something failed to sustain the
      trend after the first, and the second reached the upper line again. */
  lemma EntriesCrossTheBand(cache: Option<MarketRegime>, rs: seq<Reading>, i: nat, j: nat)
    requires i < j < |rs| && EntryAt(cache, rs, i) && EntryAt(cache, rs, j)
    ensures Enters(rs[i]) && Enters(rs[j])
    ensures exists m :: i < m < j && !Sustains(rs[m])
  {
    EntryEnters(cache, rs, i);
    EntryEnters(cache, rs, j);
    if forall m :: i < m < j ==> Sustains(rs[m]) {
      Sustained(cache, rs, i + 1, j);
    }
  }

  lemma EntryEnters(cache: Option<MarketRegime>, rs: seq<Reading>, i: nat)
    requires i < |rs| && EntryAt(cache, rs, i)
    ensures Enters(rs[i])
  {
    assert rs[..i + 1][..i] == rs[..i];
  }

  lemma {:induction false} Sustained(cache: Option<MarketRegime>, rs: seq<Reading>, i: nat, j: nat)
    requires i <= j <= |rs| && Detections(cache, rs[..i]) == Some(Trending)
    requires forall m :: i <= m < j ==> Sustains(rs[m])
    ensures Detections(cache, rs[..j]) == Some(Trending)
  {
    if i < j {
      Sustained(cache, rs, i, j - 1);
      assert rs[..j][..j - 1] == rs[..j - 1];
    }
  }

  // ---- strategies and their pauses -----------------------------------------

  datatype Source = ByRegime | ByMonitor | Manually

  /** A loaded strategy: whether it may enter, and who paused it. */
  datatype Standing = Standing(active: bool, pausedBy: Option<Source>)

  function Allowed(r: MarketRegime): set<string> {
    match r
    case Trending => {"ema_crossover_v1", "credit_spread_v1", "momentum_v1"}
    case RangeBound => {"iron_condor_v1", "credit_spread_v1", "ema_crossover_v1"}
    case Volatile => {"credit_spread_v1", "ema_crossover_v1"}
    case LowVol => {"ema_crossover_v1"}
    case Unknown => {}
  }

  function EnforcedOne(s: Standing, mayRun: bool): Standing {
    if s.active && !mayRun then Standing(false, Some(ByRegime))
    else if !s.active && mayRun && s.pausedBy == Some(ByRegime) then Standing(true, None)
    else s
  }

  type Standings = map<string, Standing>

  function Enforced(v: Standings, regime: Option<MarketRegime>): Standings {
    if regime.None? then v else map sid | sid in v :: EnforcedOne(v[sid], sid in Allowed(regime.value))
  }

  /** A strategy instance in the registry. */
  class Strategy {
    var active: bool
    var pausedBy: Option<Source>

    function Now(): Standing
      reads this
    {
      Standing(active, pausedBy)
    }

    method Pause(source: Source)
      modifies this
      ensures Now() == Standing(false, Some(source))
    {
      active, pausedBy := false, Some(source);
    }

    method Resume()
      modifies this
      ensures Now() == Standing(true, None)
    {
      active, pausedBy := true, None;
    }
  }

  class MarketRegimeDetector {
    var cache: Option<MarketRegime>
    var registry: map<string, Strategy>

    /** Each instance is registered under one id. */
    predicate Valid()
      reads this
    {
      forall a, b :: a in registry && b in registry && registry[a] == registry[b] ==> a == b
    }

    function View(): Standings
      reads this, registry.Values
    {
      map sid | sid in registry :: registry[sid].Now()
    }

    method Detect(r: Reading) returns (regime: MarketRegime)
      modifies this
      ensures cache == Some(regime) && regime == Detected(old(cache), r)
      ensures registry == old(registry)
    {
      var prev := if r.readable then cache else None;
      regime := if r.known then Classify(r.vix, r.atr, prev) else Unknown;
      cache := Some(regime);
    }

    method EnforceRegimeSwitching(readable: bool)
      requires Valid()
      modifies registry.Values
      ensures View() == Enforced(old(View()), if readable then cache else None)
    {
      if !readable || cache.None? { return; }
      var shouldRun := Allowed(cache.value);
      var left := registry.Keys;
      while left != {}
        invariant left <= registry.Keys
        invariant forall sid :: sid in registry ==>
          registry[sid].Now() ==
            if sid in left then old(registry[sid].Now()) else EnforcedOne(old(registry[sid].Now()), sid in shouldRun)
      {
        var sid :| sid in left;
        left := left - {sid};
        var instance := registry[sid];
        if instance.active && sid !in shouldRun {
          instance.Pause(ByRegime);
        } else if !instance.active && sid in shouldRun && instance.pausedBy == Some(ByRegime) {
          instance.Resume();
        }
      }
    }
  }

  // ---- pause ownership over runs -------------------------------------------

  datatype Event =
    | Detect(reading: Reading)
    | Enforce(readable: bool)
    | Pause(sid: string, source: Source)
    | Resume(sid: string)
    | Load(sid: string)
    | Unload(sid: string)

  datatype World = World(cache: Option<MarketRegime>, strategies: Standings)

  function Step(w: World, e: Event): World {
    match e
    case Detect(r) => w.(cache := Some(Detected(w.cache, r)))
    case Enforce(readable) => w.(strategies := Enforced(w.strategies, if readable then w.cache else None))
    case Pause(sid, source) =>
      if sid in w.strategies then w.(strategies := w.strategies[sid := Standing(false, Some(source))]) else w
    case Resume(sid) => if sid in w.strategies then w.(strategies := w.strategies[sid := Standing(true, None)]) else w
    case Load(sid) => w.(strategies := w.strategies[sid := Standing(true, None)])
    case Unload(sid) => w.(strategies := w.strategies - {sid})
  }

  function Run(w: World, events: seq<Event>): World {
    if events == [] then w else Step(Run(w, events[..|events| - 1]), events[|events| - 1])
  }

  /** A strategy is active exactly when nobody has paused it. */
  predicate Owned(v: Standings) {
    forall sid :: sid in v ==> (v[sid].active <==> v[sid].pausedBy.None?)
  }

  predicate PausedByOther(v: Standings, sid: string) {
    sid in v && !v[sid].active && v[sid].pausedBy.Some? && v[sid].pausedBy.value != ByRegime
  }

  /** Nobody but the regime switching pauses in its name. */
  predicate Outside(e: Event) {
    e.Pause? ==> e.source != ByRegime
  }

  predicate Reinstates(e: Event, sid: string) {
    (e.Resume? || e.Load? || e.Unload?) && e.sid == sid
  }

  /** Over every run, a strategy another source paused stays paused until someone
      resumes, reloads or unloads it, whatever the regime does; and a strategy is
      active exactly when no one has it paused. */
  lemma {:induction false} OthersPausesStand(w: World, events: seq<Event>, sid: string)
    requires Owned(w.strategies) && forall i :: 0 <= i < |events| ==> Outside(events[i])
    ensures Owned(Run(w, events).strategies)
    ensures PausedByOther(w.strategies, sid) && (forall i :: 0 <= i < |events| ==> !Reinstates(events[i], sid))
      ==> PausedByOther(Run(w, events).strategies, sid)
  {
    if events != [] {
      OthersPausesStand(w, events[..|events| - 1], sid);
    }
  }

  /** What an enforcement with a readable regime leaves active: exactly the
      strategies the regime allows among those active before or paused by it. */
  lemma EnforcementLeaves(w: World, sid: string)
    requires w.cache.Some? && sid in w.strategies && Owned(w.strategies)
    ensures var v := Step(w, Enforce(true)).strategies;
      sid in v && (v[sid].active <==>
        sid in Allowed(w.cache.value) && (w.strategies[sid].active || w.strategies[sid].pausedBy == Some(ByRegime)))
    ensures Step(Step(w, Enforce(true)), Enforce(true)) == Step(w, Enforce(true))
  {
    var v := Step(w, Enforce(true)).strategies;
    assert Enforced(v, w.cache) == v;
  }

  /** The strategies each regime lets enter. */
  predicate MayEnter(sid: string, r: MarketRegime) {
    || (sid == "ema_crossover_v1" && r != Unknown)
    || (sid == "credit_spread_v1" && (r == Trending || r == RangeBound || r == Volatile))
    || (sid == "iron_condor_v1" && r == RangeBound)
    || (sid == "momentum_v1" && r == Trending)
  }

  /** One enforcement, strategy by strategy: active afterwards are exactly those that
      may enter and that nobody else holds paused; without a readable regime nothing
      changes. */
  lemma EnforcementIs(w: World, sid: string)
    requires w.cache.Some? && Owned(w.strategies) && sid in w.strategies
    ensures var v, s := Step(w, Enforce(true)).strategies, w.strategies[sid];
      && v.Keys == w.strategies.Keys
      && (v[sid].active <==> MayEnter(sid, w.cache.value) && !PausedByOther(w.strategies, sid))
      && (PausedByOther(w.strategies, sid) ==> v[sid] == s)
    ensures Step(w, Enforce(false)) == w
  {
  }

  /** A load, a resume and an unload act on their strategy whatever state it is in, a
      pause on one that is loaded, and none of them on another or on the regime. */
  lemma OneStrategyAtATime(w: World, e: Event, sid: string)
    requires !e.Detect? && !e.Enforce?
    ensures var v := Step(w, e);
      && v.cache == w.cache
      && (e.sid != sid ==>
          (sid in v.strategies <==> sid in w.strategies)
          && (sid in v.strategies ==> v.strategies[sid] == w.strategies[sid]))
      && (e.sid == sid ==>
          && (sid in v.strategies <==> e.Load? || (sid in w.strategies && !e.Unload?))
          && (sid in v.strategies ==> v.strategies[sid].active == !e.Pause?)
          && (sid in v.strategies && e.Pause? ==> v.strategies[sid].pausedBy == Some(e.source))
          && (sid in v.strategies && !e.Pause? ==> v.strategies[sid].pausedBy.None?))
  {
  }

  /** What an enforcement paused comes back with the first one whose regime lets it
      enter, if nothing else happened to it. */
  lemma PausedComesBack(w: World, sid: string, next: MarketRegime)
    requires w.cache.Some? && Owned(w.strategies) && sid in w.strategies && w.strategies[sid].active
    ensures var v := Step(w, Enforce(true)).(cache := Some(next));
      Step(v, Enforce(true)).strategies[sid].active <==> MayEnter(sid, next)
  {
  }

  function ReadingsOf(events: seq<Event>): seq<Reading> {
    if events == [] then []
    else
      var rest, e := ReadingsOf(events[..|events| - 1]), events[|events| - 1];
      if e.Detect? then rest + [e.reading] else rest
  }

  lemma {:induction false} CacheFollowsReadings(w: World, events: seq<Event>)
    ensures Run(w, events).cache == Detections(w.cache, ReadingsOf(events))
  {
    if events != [] {
      CacheFollowsReadings(w, events[..|events| - 1]);
      var rest, e := ReadingsOf(events[..|events| - 1]), events[|events| - 1];
      if e.Detect? { assert (rest + [e.reading])[..|rest|] == rest; }
    }
  }

  /** After any run that ends in an enforcement with a readable regime, the
      momentum strategy is active only while a trend holds: one that was entered
      at the upper line and never since fell out of the band. */
  lemma MomentumNeedsTrend(w: World, events: seq<Event>)
    requires Run(w, events).cache.Some?
    ensures var after := Step(Run(w, events), Enforce(true)).strategies;
      "momentum_v1" in after && after["momentum_v1"].active ==>
        exists k: nat :: k <= |ReadingsOf(events)| && TrendSince(w.cache, ReadingsOf(events), k)
  {
    CacheFollowsReadings(w, events);
    TrendingIff(w.cache, ReadingsOf(events));
  }
}
