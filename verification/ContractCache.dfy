/** The daily index of real option contracts, built from the exchange's instrument
    dump, and the lookup that snaps a computed expiry and strike to listed ones. */
module ContractCache {
  import opened Wrappers

  const INDEX_NAMES: set<string> := {"NIFTY", "BANKNIFTY", "FINNIFTY", "MIDCPNIFTY", "NIFTYNXT50", "SENSEX", "BANKEX"}
  const KEPT_EXPIRIES := 3
  const SNAP_TOLERANCE_DAYS := 5

  /** A line of the instrument dump. Expiries are day numbers, strikes whole paise. */
  datatype Instrument = Instrument(
    name: string, kind: string, expiry: Option<int>, strike: Option<int>, symbol: string)

  /** Only stock options with all their fields are indexed. */
  predicate Eligible(x: Instrument) {
    && x.name != "" && x.name !in INDEX_NAMES && x.kind in {"CE", "PE"}
    && x.expiry.Some? && x.strike.Some? && x.strike.value != 0 && x.symbol != ""
  }

  /** Which contract an instrument is. */
  datatype Key = Key(name: string, expiry: int, strike: int, kind: string)

  predicate Matches(x: Instrument, key: Key) {
    && Eligible(x) && x.name == key.name && x.kind == key.kind
    && x.expiry.value == key.expiry && x.strike.value == key.strike
  }

  /** Line `j` of the dump is for the contract, and no later one is. */
  predicate LastAt(dump: seq<Instrument>, key: Key, j: nat)
    requires j < |dump|
  {
    Matches(dump[j], key) && forall k :: j < k < |dump| ==> !Matches(dump[k], key)
  }

  /** The symbol of the last line of the dump for a contract. */
  function LastListed(dump: seq<Instrument>, key: Key): (r: Option<string>)
    ensures r.Some? <==> exists j :: 0 <= j < |dump| && Matches(dump[j], key)
    ensures r.Some? ==> exists j :: 0 <= j < |dump| && LastAt(dump, key, j) && dump[j].symbol == r.value
  {
    if dump == [] then None
    else
      var n := |dump| - 1;
      if Matches(dump[n], key) then
        assert LastAt(dump, key, n);
        Some(dump[n].symbol)
      else
        var r := LastListed(dump[..n], key);
        assert r.Some? ==> exists j :: 0 <= j < n && LastAt(dump[..n], key, j) && dump[j].symbol == r.value;
        assert forall j :: 0 <= j < n && LastAt(dump[..n], key, j) ==> LastAt(dump, key, j);
        r
  }

  ghost predicate Listed(dump: seq<Instrument>, name: string, expiry: int) {
    exists j :: 0 <= j < |dump| && Eligible(dump[j]) && dump[j].name == name && dump[j].expiry.value == expiry
  }

  // ---- the nested index ----------------------------------------------------

  type Strikes = map<int, map<string, string>>
  type Index = map<string, map<int, Strikes>>

  function Entry(strikes: Strikes, strike: int, kind: string): Option<string> {
    if strike in strikes && kind in strikes[strike] then Some(strikes[strike][kind]) else None
  }

  function Cell(index: Index, key: Key): Option<string> {
    if key.name in index && key.expiry in index[key.name]
    then Entry(index[key.name][key.expiry], key.strike, key.kind) else None
  }

  predicate FullStrikes(strikes: Strikes) {
    strikes != map[] && forall k :: k in strikes ==> strikes[k] != map[] && "" !in strikes[k].Values
  }

  predicate Full(index: Index) {
    forall n :: n in index ==> index[n] != map[] && forall e :: e in index[n] ==> FullStrikes(index[n][e])
  }

  function Record(index: Index, x: Instrument): (r: Index)
    requires Eligible(x)
  {
    var expiries := if x.name in index then index[x.name] else map[];
    var strikes := if x.expiry.value in expiries then expiries[x.expiry.value] else map[];
    var kinds := if x.strike.value in strikes then strikes[x.strike.value] else map[];
    index[x.name := expiries[x.expiry.value := strikes[x.strike.value := kinds[x.kind := x.symbol]]]]
  }

  lemma RecordCell(index: Index, x: Instrument, key: Key)
    requires Eligible(x)
    ensures Cell(Record(index, x), key) == if Matches(x, key) then Some(x.symbol) else Cell(index, key)
  {
  }

  lemma RecordFull(index: Index, x: Instrument)
    requires Eligible(x) && Full(index)
    ensures Full(Record(index, x))
  {
    var r := Record(index, x);
    forall n | n in r ensures r[n] != map[] {
      assert n == x.name ==> x.expiry.value in r[n];
    }
    forall n, e | n in r && e in r[n] ensures FullStrikes(r[n][e]) {
      if n == x.name && e == x.expiry.value {
        var s: Strikes := r[n][e];
        assert x.strike.value in s;
        forall k: int | k in s ensures s[k] != map[] && "" !in s[k].Values {
          if k == x.strike.value { assert x.kind in s[k]; }
        }
      }
    }
  }

  // ---- publishing the nearest expiries -------------------------------------

  datatype Listing = Listing(expiry: int, strikes: Strikes)
  type Cache = map<string, seq<Listing>>

  predicate Ascending(s: seq<int>) {
    forall i, j :: 0 <= i < j < |s| ==> s[i] < s[j]
  }

  lemma SomeElement<T>(s: set<T>) returns (x: T)
    requires s != {}
    ensures x in s
  {
    x :| x in s;
  }

  lemma SomeKey<K, V>(m: map<K, V>) returns (k: K)
    requires m != map[]
    ensures k in m
  {
    assert m.Keys == {} ==> m == map[];
    k :| k in m.Keys;
  }

  function Insert(s: seq<int>, x: int): (r: seq<int>)
    requires Ascending(s) && x !in s
    ensures Ascending(r) && |r| == |s| + 1
    ensures forall y :: y in r <==> y in s || y == x
  {
    if s == [] || s[|s| - 1] < x then s + [x]
    else
      var n := |s| - 1;
      var q := Insert(s[..n], x);
      assert forall i :: 0 <= i < |q| ==> q[i] in q;
      assert s == s[..n] + [s[n]];
      q + [s[n]]
  }

  method Sorted(keys: set<int>) returns (s: seq<int>)
    ensures Ascending(s) && |s| == |keys|
    ensures forall x :: x in s <==> x in keys
  {
    s := [];
    var left := keys;
    while left != {}
      invariant left <= keys && Ascending(s) && |s| + |left| == |keys|
      invariant forall x :: x in s <==> x in keys && x !in left
    {
      ghost var some := SomeElement(left);
      var x :| x in left;
      left := left - {x};
      s := Insert(s, x);
    }
  }

  ghost predicate Keeps(data: seq<Listing>, expiry: int) {
    exists i :: 0 <= i < |data| && data[i].expiry == expiry
  }

  /** The listings ascend by expiry, and everything listed is there unless three
      earlier expiries are. */
  ghost predicate NearestOf(data: seq<Listing>, m: map<int, Strikes>) {
    && |data| <= KEPT_EXPIRIES
    && (forall i, j :: 0 <= i < j < |data| ==> data[i].expiry < data[j].expiry)
    && (forall i :: 0 <= i < |data| ==> data[i].expiry in m && data[i].strikes == m[data[i].expiry])
    && forall e :: e in m ==>
         Keeps(data, e) || (|data| == KEPT_EXPIRIES && forall i :: 0 <= i < |data| ==> data[i].expiry < e)
  }

  method Nearest(m: map<int, Strikes>) returns (data: seq<Listing>)
    ensures NearestOf(data, m)
  {
    var order := Sorted(m.Keys);
    data := [];
    while |data| < |order| && |data| < KEPT_EXPIRIES
      invariant |data| <= |order| && |data| <= KEPT_EXPIRIES
      invariant forall i :: 0 <= i < |data| ==> order[i] in m && data[i] == Listing(order[i], m[order[i]])
    {
      assert order[|data|] in order;
      data := data + [Listing(order[|data|], m[order[|data|]])];
    }
    TakenNearest(order, data, m);
  }

  lemma TakenNearest(order: seq<int>, data: seq<Listing>, m: map<int, Strikes>)
    requires Ascending(order) && (forall x :: x in order <==> x in m)
    requires |data| <= |order| && (|data| == KEPT_EXPIRIES || |data| == |order| < KEPT_EXPIRIES)
    requires forall i :: 0 <= i < |data| ==> order[i] in m && data[i] == Listing(order[i], m[order[i]])
    ensures NearestOf(data, m)
  {
    forall e | e in m
      ensures Keeps(data, e)
        || (|data| == KEPT_EXPIRIES && forall i :: 0 <= i < |data| ==> data[i].expiry < e)
    {
      assert e in order;
      var i :| 0 <= i < |order| && order[i] == e;
      if i < |data| { assert data[i].expiry == e; }
    }
  }

  // ---- what the published cache says of the dump ---------------------------

  predicate WellFormed(data: seq<Listing>) {
    && (forall i, j :: 0 <= i < j < |data| ==> data[i].expiry < data[j].expiry)
    && forall i :: 0 <= i < |data| ==> FullStrikes(data[i].strikes)
  }

  /** The listings are the symbol's three nearest expiries in the dump, and hold
      exactly the contracts the dump lists for them. */
  ghost predicate Agrees(data: seq<Listing>, dump: seq<Instrument>, name: string) {
    && WellFormed(data) && 0 < |data| <= KEPT_EXPIRIES
    && (forall i :: 0 <= i < |data| ==> Listed(dump, name, data[i].expiry))
    && (forall i, k: int, r: string :: 0 <= i < |data| ==>
          Entry(data[i].strikes, k, r) == LastListed(dump, Key(name, data[i].expiry, k, r)))
    && forall e :: Listed(dump, name, e) ==>
         Keeps(data, e) || (|data| == KEPT_EXPIRIES && forall i :: 0 <= i < |data| ==> data[i].expiry < e)
  }

  ghost predicate Published(cache: Cache, dump: seq<Instrument>) {
    && (forall n :: n in cache <==> exists e :: Listed(dump, n, e))
    && forall n :: n in cache ==> Agrees(cache[n], dump, n)
  }

  ghost predicate Indexes(index: Index, dump: seq<Instrument>) {
    Full(index) && forall key :: Cell(index, key) == LastListed(dump, key)
  }

  lemma IndexesNothing()
    ensures Indexes(map[], [])
  {
  }

  lemma IndexesStep(index: Index, dump: seq<Instrument>)
    requires dump != [] && Indexes(index, dump[..|dump| - 1])
    ensures var x := dump[|dump| - 1]; Indexes(if Eligible(x) then Record(index, x) else index, dump)
  {
    hide Full, Record, Cell;
    var x := dump[|dump| - 1];
    if Eligible(x) {
      RecordFull(index, x);
      forall key ensures Cell(Record(index, x), key) == LastListed(dump, key) {
        RecordCell(index, x, key);
      }
    }
  }

  lemma IndexedExpiry(index: Index, dump: seq<Instrument>, n: string, e: int)
    requires Indexes(index, dump)
    ensures n in index && e in index[n] <==> Listed(dump, n, e)
  {
    if n in index && e in index[n] {
      var k := SomeKey(index[n][e]);
      var r := SomeKey(index[n][e][k]);
      assert Cell(index, Key(n, e, k, r)).Some?;
    }
    if Listed(dump, n, e) {
      var j :| 0 <= j < |dump| && Eligible(dump[j]) && dump[j].name == n && dump[j].expiry.value == e;
      assert Matches(dump[j], Key(n, e, dump[j].strike.value, dump[j].kind));
      assert Cell(index, Key(n, e, dump[j].strike.value, dump[j].kind)).Some?;
    }
  }

  lemma NearestAgrees(index: Index, dump: seq<Instrument>, n: string, data: seq<Listing>)
    requires Indexes(index, dump) && n in index && NearestOf(data, index[n])
    ensures Agrees(data, dump, n)
  {
    forall e ensures e in index[n] <==> Listed(dump, n, e) { IndexedExpiry(index, dump, n, e); }
    var e := SomeKey(index[n]);
    forall i, k: int, r: string | 0 <= i < |data|
      ensures Entry(data[i].strikes, k, r) == LastListed(dump, Key(n, data[i].expiry, k, r))
    {
      assert Cell(index, Key(n, data[i].expiry, k, r)) == Entry(data[i].strikes, k, r);
    }
  }

  method IndexContracts(dump: seq<Instrument>) returns (index: Index)
    ensures Indexes(index, dump)
  {
    hide Record, Indexes;
    index := map[];
    IndexesNothing();
    for i := 0 to |dump|
      invariant Indexes(index, dump[..i])
    {
      var x := dump[i];
      assert dump[..i + 1][..i] == dump[..i];
      IndexesStep(index, dump[..i + 1]);
      if Eligible(x) {
        index := Record(index, x);
      }
    }
    assert dump[..|dump|] == dump;
  }

  method FetchAndCacheRealContracts(dump: seq<Instrument>) returns (cache: Cache, seen: nat)
    ensures Published(cache, dump)
    ensures seen == |cache|
  {
    hide Agrees, NearestOf, Indexes, Published;
    var index := IndexContracts(dump);
    cache, seen := map[], 0;
    var names := index.Keys;
    while names != {}
      invariant forall n :: n in names ==> n in index
      invariant forall n :: n in index ==> n in names || n in cache
      invariant forall n :: n in cache ==> n in index && n !in names
      invariant seen == |cache|
      invariant forall n :: n in cache ==> Agrees(cache[n], dump, n)
    {
      var n :| n in names;
      assert n !in cache;
      names := names - {n};
      var data := Nearest(index[n]);
      NearestAgrees(index, dump, n, data);
      cache, seen := cache[n := data], seen + 1;
    }
    AllPublished(index, cache, dump);
  }

  lemma AllPublished(index: Index, cache: Cache, dump: seq<Instrument>)
    requires Indexes(index, dump) && forall n :: n in cache <==> n in index
    requires forall n :: n in cache ==> Agrees(cache[n], dump, n)
    ensures Published(cache, dump)
  {
    hide Agrees, Cell, LastListed, Listed;
    forall n ensures n in cache <==> exists e :: Listed(dump, n, e) {
      if n in cache {
        var e := SomeKey(index[n]);
        IndexedExpiry(index, dump, n, e);
      }
      if e :| Listed(dump, n, e) { IndexedExpiry(index, dump, n, e); }
    }
  }

  // ---- the lookup ----------------------------------------------------------

  function Distance(a: int, b: int): (r: nat)
    ensures r == a - b || r == b - a
  {
    if a < b then b - a else a - b
  }

  /** Listing `i` has the nearest expiry within the tolerance, the earlier of two
      equally near ones. */
  ghost predicate NearestExpiry(data: seq<Listing>, expiry: int, i: nat) {
    && i < |data| && Distance(data[i].expiry, expiry) <= 5
    && forall j :: 0 <= j < |data| ==>
         && Distance(data[i].expiry, expiry) <= Distance(data[j].expiry, expiry)
         && (j < i ==> Distance(data[i].expiry, expiry) < Distance(data[j].expiry, expiry))
  }

  /** `k` is the nearest listed strike, the lower of two equally near ones. */
  ghost predicate NearestStrike(strikes: Strikes, strike: int, k: int) {
    && k in strikes
    && forall j :: j in strikes ==>
         && Distance(k, strike) <= Distance(j, strike)
         && (j < k ==> Distance(k, strike) < Distance(j, strike))
  }

  /** `symbol` is the contract of the nearest listed expiry and strike. */
  ghost predicate Answers(data: seq<Listing>, expiry: int, strike: int, kind: string, symbol: string, used: int) {
    exists i: nat :: NearestExpiry(data, expiry, i) && NearestStrike(data[i].strikes, strike, used)
      && Entry(data[i].strikes, used, kind) == Some(symbol)
  }

  method ListedExpiry(data: seq<Listing>, expiry: int) returns (i: Option<nat>)
    ensures i.Some? ==> i.value < |data| && data[i.value].expiry == expiry
    ensures i.None? ==> forall j :: 0 <= j < |data| ==> data[j].expiry != expiry
  {
    for j := 0 to |data|
      invariant forall k :: 0 <= k < j ==> data[k].expiry != expiry
    {
      if data[j].expiry == expiry { return Some(j); }
    }
    i := None;
  }

  method SnapExpiry(data: seq<Listing>, expiry: int) returns (i: Option<nat>)
    ensures i.Some? ==> NearestExpiry(data, expiry, i.value)
    ensures i.None? ==> forall j: nat :: !NearestExpiry(data, expiry, j)
  {
    i := None;
    for j := 0 to |data|
      invariant i.Some? ==> i.value < j && NearestExpiry(data[..j], expiry, i.value)
      invariant i.None? ==> forall k :: 0 <= k < j ==> Distance(data[k].expiry, expiry) > SNAP_TOLERANCE_DAYS
    {
      var distance := Distance(data[j].expiry, expiry);
      if distance <= SNAP_TOLERANCE_DAYS && (i.None? || distance < Distance(data[i.value].expiry, expiry)) {
        i := Some(j);
      }
    }
    assert data[..|data|] == data;
  }

  method SnapStrike(strikes: Strikes, strike: int) returns (k: int)
    requires strikes != map[]
    ensures NearestStrike(strikes, strike, k)
  {
    var available := Sorted(strikes.Keys);
    var some := SomeKey(strikes);
    assert some in available;
    assert available[0] in available;
    k := available[0];
    ghost var at := 0;
    for i := 1 to |available|
      invariant at < i && available[at] == k && k in available
      invariant forall j :: 0 <= j < i ==>
        && Distance(k, strike) <= Distance(available[j], strike)
        && (j < at ==> Distance(k, strike) < Distance(available[j], strike))
    {
      if Distance(available[i], strike) < Distance(k, strike) {
        k, at := available[i], i;
      }
    }
    forall j | j in strikes
      ensures Distance(k, strike) <= Distance(j, strike) && (j < k ==> Distance(k, strike) < Distance(j, strike))
    {
      assert j in available;
      var i :| 0 <= i < |available| && available[i] == j;
    }
  }

  /** The lookup: an exact expiry and strike first, then the nearest ones. */
  method GetRealContract(cache: Cache, name: string, expiry: int, strike: int, kind: string)
      returns (r: Option<(string, int)>)
    ensures name !in cache ==> r == None
    ensures name in cache && WellFormed(cache[name]) ==>
      forall symbol, used :: r == Some((symbol, used)) <==> Answers(cache[name], expiry, strike, kind, symbol, used)
  {
    if name !in cache { return None; }
    var data := cache[name];
    if WellFormed(data) { OneAnswer(data, expiry, strike, kind); }
    var i := ListedExpiry(data, expiry);
    if i.None? || data[i.value].strikes == map[] {
      i := SnapExpiry(data, expiry);
    }
    if i.None? { return None; }
    var strikes := data[i.value].strikes;
    if strikes == map[] { return None; }
    var exact := Entry(strikes, strike, kind);
    if exact.Some? && exact.value != "" {
      assert WellFormed(data) ==> NearestStrike(strikes, strike, strike);
      return Some((exact.value, strike));
    }
    var k := SnapStrike(strikes, strike);
    var entry := Entry(strikes, k, kind);
    if entry.Some? && entry.value != "" { return Some((entry.value, k)); }
    r := None;
  }

  lemma OneAnswer(data: seq<Listing>, expiry: int, strike: int, kind: string)
    requires WellFormed(data)
    ensures forall s, u, t, v ::
      Answers(data, expiry, strike, kind, s, u) && Answers(data, expiry, strike, kind, t, v) ==>
      s == t && u == v
  {
  }

  // ---- the cache agrees with the dump --------------------------------------

  /** Listed, with at most two listed expiries of the symbol before it. */
  ghost predicate AmongNearest(dump: seq<Instrument>, name: string, expiry: int) {
    && Listed(dump, name, expiry)
    && !exists a, b, c :: a < b < c < expiry && Listed(dump, name, a) && Listed(dump, name, b) && Listed(dump, name, c)
  }

  lemma KeptIffNearest(data: seq<Listing>, dump: seq<Instrument>, name: string, expiry: int)
    requires Agrees(data, dump, name)
    ensures Keeps(data, expiry) <==> AmongNearest(dump, name, expiry)
  {
    hide Listed, LastListed, FullStrikes, Entry;
    if Keeps(data, expiry) {
      forall a, b, c | a < b < c < expiry && Listed(dump, name, a) && Listed(dump, name, b)
        ensures !Listed(dump, name, c)
      {
        if Keeps(data, a) && Keeps(data, b) && Keeps(data, c) { NoRoom(data, a, b, c, expiry); }
      }
    } else if Listed(dump, name, expiry) {
      var a, b, c := data[0].expiry, data[1].expiry, data[2].expiry;
      assert a < b < c < expiry;
      assert Listed(dump, name, a) && Listed(dump, name, b) && Listed(dump, name, c);
    }
  }

  lemma NoRoom(data: seq<Listing>, a: int, b: int, c: int, d: int)
    requires |data| <= KEPT_EXPIRIES && forall i, j :: 0 <= i < j < |data| ==> data[i].expiry < data[j].expiry
    requires a < b < c < d && Keeps(data, a) && Keeps(data, b) && Keeps(data, c)
    ensures !Keeps(data, d)
  {
    var p :| 0 <= p < |data| && data[p].expiry == a;
    var q :| 0 <= q < |data| && data[q].expiry == b;
    var r :| 0 <= r < |data| && data[r].expiry == c;
    assert p < q < r;
    assert forall i :: 0 <= i < |data| ==> data[i].expiry <= data[r].expiry;
  }

  /** A stock option in its symbol's three nearest expiries that the dump lists
      under one symbol only is what a lookup of its expiry and strike returns. */
  lemma ListedIsFound(cache: Cache, dump: seq<Instrument>, x: Instrument)
    requires Published(cache, dump) && x in dump && x.expiry.Some? && x.strike.Some? && x.strike.value != 0
    requires x.name != "" && x.symbol != "" && (x.kind == "CE" || x.kind == "PE")
    requires x.name !in {"NIFTY", "BANKNIFTY", "FINNIFTY", "MIDCPNIFTY", "NIFTYNXT50", "SENSEX", "BANKEX"}
    requires AmongNearest(dump, x.name, x.expiry.value)
    requires forall y :: y in dump && Matches(y, Key(x.name, x.expiry.value, x.strike.value, x.kind)) ==>
      y.symbol == x.symbol
    ensures x.name in cache && WellFormed(cache[x.name])
    ensures Answers(cache[x.name], x.expiry.value, x.strike.value, x.kind, x.symbol, x.strike.value)
  {
    hide Listed, LastListed, FullStrikes;
    assert Listed(dump, x.name, x.expiry.value);
    var data := cache[x.name];
    var key := Key(x.name, x.expiry.value, x.strike.value, x.kind);
    KeptIffNearest(data, dump, x.name, x.expiry.value);
    assert Keeps(data, x.expiry.value);
    var i: nat :| i < |data| && data[i].expiry == x.expiry.value;
    var j :| 0 <= j < |dump| && dump[j] == x;
    assert Matches(dump[j], key);
    assert LastListed(dump, key) == Some(x.symbol);
    assert Entry(data[i].strikes, key.strike, key.kind) == Some(x.symbol);
    ListedStrike(data, dump, x.name, i, x);
    assert NearestExpiry(data, x.expiry.value, i) && NearestStrike(data[i].strikes, x.strike.value, x.strike.value);
  }

  /** Instrument `x` answers a request for an expiry and a strike: its expiry is
      the nearest of the symbol's three nearest ones and within five days, and no
      strike listed for that expiry is nearer. */
  ghost predicate GoodAnswer(x: Instrument, dump: seq<Instrument>, name: string, expiry: int, strike: int,
                             kind: string) {
    && x in dump && Eligible(x) && x.name == name && x.kind == kind
    && (kind == "CE" || kind == "PE") && x.symbol != "" && x.strike.value != 0
    && name !in {"NIFTY", "BANKNIFTY", "FINNIFTY", "MIDCPNIFTY", "NIFTYNXT50", "SENSEX", "BANKEX"}
    && AmongNearest(dump, name, x.expiry.value)
    && expiry - 5 <= x.expiry.value <= expiry + 5
    && (forall e :: AmongNearest(dump, name, e) ==> Distance(x.expiry.value, expiry) <= Distance(e, expiry))
    && forall y :: y in dump && Eligible(y) && y.name == name && y.expiry == x.expiry ==>
         Distance(x.strike.value, strike) <= Distance(y.strike.value, strike)
  }

  /** Whatever a lookup returns is a listed contract of that symbol and kind. */
  lemma {:induction false} FoundIsListed(cache: Cache, dump: seq<Instrument>, name: string, expiry: int, strike: int,
                                         kind: string, symbol: string, used: int)
    requires Published(cache, dump) && name in cache && Answers(cache[name], expiry, strike, kind, symbol, used)
    ensures exists x :: GoodAnswer(x, dump, name, expiry, strike, kind) && x.symbol == symbol && x.strike.value == used
  {
    hide Listed, LastListed, FullStrikes, Entry, AmongNearest;
    var data := cache[name];
    var i: nat :| NearestExpiry(data, expiry, i) && NearestStrike(data[i].strikes, strike, used)
                  && Entry(data[i].strikes, used, kind) == Some(symbol);
    var key := Key(name, data[i].expiry, used, kind);
    assert LastListed(dump, key) == Some(symbol);
    var j :| 0 <= j < |dump| && LastAt(dump, key, j) && dump[j].symbol == symbol;
    var x := dump[j];
    assert Keeps(data, data[i].expiry);
    forall e ensures Keeps(data, e) <==> AmongNearest(dump, name, e) {
      KeptIffNearest(data, dump, name, e);
    }
    forall y | y in dump && Eligible(y) && y.name == name && y.expiry == x.expiry
      ensures Distance(used, strike) <= Distance(y.strike.value, strike)
    {
      ListedStrike(data, dump, name, i, y);
    }
    hide Agrees, Published, Answers, NearestStrike;
    assert GoodAnswer(x, dump, name, expiry, strike, kind);
  }

  lemma ListedStrike(data: seq<Listing>, dump: seq<Instrument>, name: string, i: nat, y: Instrument)
    requires Agrees(data, dump, name) && i < |data|
    requires y in dump && Eligible(y) && y.name == name && y.expiry.value == data[i].expiry
    ensures y.strike.value in data[i].strikes
  {
    hide Listed, FullStrikes;
    var key := Key(name, data[i].expiry, y.strike.value, y.kind);
    var l :| 0 <= l < |dump| && dump[l] == y;
    assert Matches(dump[l], key);
    assert Entry(data[i].strikes, key.strike, key.kind) == LastListed(dump, key);
  }
}
