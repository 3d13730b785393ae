/** Resolving exchange symbols through a two-way cache (engine/market/mapping/resolver.go, postgres.go). */
module Resolver {
  import opened Text

  datatype Mapping = Mapping(coinID: string, exchange: string, exchangeSymbol: string, baseAsset: string,
                             quoteAsset: string, isPrimary: bool, verifiedAt: int)

  /** A stored mapping; `verified` is the nullable column that the mapping shows as the epoch when absent. */
  datatype Row = Row(mapping: Mapping, active: bool, verified: Option<int>, updatedAt: int)

  datatype Error = Invalid | NotFound | StoreFailed

  datatype Result = Ok(value: Mapping) | Err(error: Error)

  // ----- The store's two lookups -----

  predicate OfCoin(row: Row, coinID: string, exchange: string) {
    row.active && row.mapping.coinID == coinID && row.mapping.exchange == exchange
  }

  predicate OfSymbol(row: Row, exchange: string, symbol: string) {
    row.active && row.mapping.exchange == exchange && Upper(row.mapping.exchangeSymbol) == symbol
  }

  /** The order of the primary lookup: primaries, then the latest verified, then the latest updated. */
  predicate Outranks(a: Row, b: Row) {
    if a.mapping.isPrimary != b.mapping.isPrimary then a.mapping.isPrimary
    else if a.verified != b.verified then b.verified.None? || (a.verified.Some? && a.verified.value > b.verified.value)
    else a.updatedAt > b.updatedAt
  }

  ghost predicate IsBest(rows: seq<Row>, coinID: string, exchange: string, i: nat) {
    && i < |rows| && OfCoin(rows[i], coinID, exchange)
    && forall j :: 0 <= j < |rows| && OfCoin(rows[j], coinID, exchange) ==> !Outranks(rows[j], rows[i])
  }

  ghost predicate IsPrimaryLookup(rows: seq<Row>, coinID: string, exchange: string, m: Mapping) {
    exists i: nat :: IsBest(rows, coinID, exchange, i) && rows[i].mapping == m
  }

  ghost predicate IsSymbolLookup(rows: seq<Row>, exchange: string, symbol: string, m: Mapping) {
    exists i :: 0 <= i < |rows| && OfSymbol(rows[i], exchange, symbol) && rows[i].mapping == m
  }

  method GetPrimaryMapping(rows: seq<Row>, coinID: string, exchange: string) returns (r: Option<Mapping>)
    ensures r.Some? ==> IsPrimaryLookup(rows, coinID, exchange, r.value)
    ensures r.None? ==> forall i :: 0 <= i < |rows| ==> !OfCoin(rows[i], coinID, exchange)
  {
    var best: Option<nat> := None;
    for i := 0 to |rows|
      invariant best.None? ==> forall j :: 0 <= j < i ==> !OfCoin(rows[j], coinID, exchange)
      invariant best.Some? ==> best.value < i && OfCoin(rows[best.value], coinID, exchange)
      invariant best.Some? ==> forall j :: 0 <= j < i && OfCoin(rows[j], coinID, exchange) ==>
                      !Outranks(rows[j], rows[best.value])
    {
      if OfCoin(rows[i], coinID, exchange) && (best.None? || Outranks(rows[i], rows[best.value])) {
        best := Some(i);
      }
    }
    if best.None? {
      return None;
    }
    assert IsBest(rows, coinID, exchange, best.value);
    return Some(rows[best.value].mapping);
  }

  method GetMappingBySymbol(rows: seq<Row>, exchange: string, symbol: string) returns (r: Option<Mapping>)
    ensures r.Some? ==> IsSymbolLookup(rows, exchange, symbol, r.value)
    ensures r.None? ==> forall i :: 0 <= i < |rows| ==> !OfSymbol(rows[i], exchange, symbol)
  {
    for i := 0 to |rows|
      invariant forall j :: 0 <= j < i ==> !OfSymbol(rows[j], exchange, symbol)
    {
      if OfSymbol(rows[i], exchange, symbol) {
        return Some(rows[i].mapping);
      }
    }
    return None;
  }

  // ----- Cache keys -----

  const COIN_PREFIX := "mapping:coin:"
  const SYMBOL_PREFIX := "mapping:symbol:"

  function CoinKey(coinID: string, exchange: string): string {
    COIN_PREFIX + coinID + ":" + exchange
  }

  function SymbolKey(exchange: string, symbol: string): string {
    SYMBOL_PREFIX + exchange + ":" + symbol
  }

  function PrimaryCacheKey(coinID: string, exchange: string): string {
    CoinKey(Lower(Trim(coinID)), NormalizeExchange(exchange))
  }

  function ReverseCacheKey(exchange: string, symbol: string): string {
    SymbolKey(NormalizeExchange(exchange), NormalizeSymbol(symbol))
  }

  /** The first colon separates. */
  lemma SplitAtFirstColon(e: string, a: string, f: string, b: string)
    requires e + ":" + a == f + ":" + b && ColonFree(e) && ColonFree(f)
    ensures a == b && e == f
  {
    var s, t := e + ":" + a, f + ":" + b;
    assert s[|e|] == ':' && t[|f|] == ':';
    assert e == s[..|e|] && f == t[..|f|];
    assert a == s[|e| + 1..] && b == t[|f| + 1..];
  }

  /** Coin ids may hold colons; exchange names may not. */
  lemma CoinKeyInjective(c: string, e: string, d: string, f: string)
    requires CoinKey(c, e) == CoinKey(d, f) && ColonFree(e) && ColonFree(f)
    ensures c == d && e == f
  {
    SplitAtLastColon(COIN_PREFIX + c, e, COIN_PREFIX + d, f);
    assert c == (COIN_PREFIX + c)[|COIN_PREFIX|..] && d == (COIN_PREFIX + d)[|COIN_PREFIX|..];
  }

  lemma SymbolKeyInjective(e: string, s: string, f: string, t: string)
    requires SymbolKey(e, s) == SymbolKey(f, t) && ColonFree(e) && ColonFree(f)
    ensures e == f && s == t
  {
    assert e + ":" + s == SymbolKey(e, s)[|SYMBOL_PREFIX|..];
    assert f + ":" + t == SymbolKey(f, t)[|SYMBOL_PREFIX|..];
    SplitAtFirstColon(e, s, f, t);
  }

  lemma KeysApart(c: string, e: string, f: string, s: string)
    ensures CoinKey(c, e) != SymbolKey(f, s)
  {
    assert CoinKey(c, e)[8] == 'c' && SymbolKey(f, s)[8] == 's';
  }

  // ----- The resolver -----

  type Cache = map<string, Mapping>

  /** Which of a call's cache read, store query and two cache writes work. Without a cache, only the store
      query can. */
  datatype Weather = Weather(cacheReadable: bool, storeUp: bool, firstWritten: bool, secondWritten: bool)

  function Written(cache: Cache, key: string, m: Mapping, works: bool): Cache {
    if works then cache[key := m] else cache
  }

  /** A call of ResolveExchangeSymbol. */
  ghost predicate SymbolResolved(rows: seq<Row>, before: Cache, after: Cache, rawCoinID: string, rawExchange: string,
                                 w: Weather, r: Result) {
    var coinID, exchange := Trim(rawCoinID), NormalizeExchange(rawExchange);
    var key := PrimaryCacheKey(coinID, exchange);
    if coinID == "" || exchange == "" then after == before && r == Err(Invalid)
    else if w.cacheReadable && key in before then after == before && r == Ok(before[key])
    else if !w.storeUp then after == before && r == Err(StoreFailed)
    else if r.Ok? then
      && IsPrimaryLookup(rows, coinID, exchange, r.value)
      && after == Written(Written(before, key, r.value, w.firstWritten),
                          ReverseCacheKey(exchange, r.value.exchangeSymbol), r.value, w.secondWritten)
    else
      && after == before && r == Err(NotFound)
      && forall i :: 0 <= i < |rows| ==> !OfCoin(rows[i], coinID, exchange)
  }

  /** A call of ResolveCoinID. */
  ghost predicate CoinResolved(rows: seq<Row>, before: Cache, after: Cache, rawExchange: string, rawSymbol: string,
                               w: Weather, r: Result) {
    var exchange, symbol := NormalizeExchange(rawExchange), NormalizeSymbol(rawSymbol);
    var key := ReverseCacheKey(exchange, symbol);
    if exchange == "" || symbol == "" then after == before && r == Err(Invalid)
    else if w.cacheReadable && key in before then after == before && r == Ok(before[key])
    else if !w.storeUp then after == before && r == Err(StoreFailed)
    else if r.Ok? then
      && IsSymbolLookup(rows, exchange, symbol, r.value)
      && after == Written(Written(before, key, r.value, w.firstWritten),
                          PrimaryCacheKey(r.value.coinID, exchange), r.value, w.secondWritten)
    else
      && after == before && r == Err(NotFound)
      && forall i :: 0 <= i < |rows| ==> !OfSymbol(rows[i], exchange, symbol)
  }

  class SymbolResolver {
    const rows: seq<Row>
    var cache: Cache

    constructor (rows: seq<Row>)
      ensures this.rows == rows && cache == map[]
    {
      this.rows, cache := rows, map[];
    }

    method WriteCache(key: string, m: Mapping, works: bool)
      modifies this
      ensures cache == Written(old(cache), key, m, works)
    {
      if works {
        cache := cache[key := m];
      }
    }

    method ResolveExchangeSymbol(rawCoinID: string, rawExchange: string, w: Weather) returns (r: Result)
      modifies this
      ensures SymbolResolved(rows, old(cache), cache, rawCoinID, rawExchange, w, r)
    {
      var coinID, exchange := Trim(rawCoinID), NormalizeExchange(rawExchange);
      if coinID == "" || exchange == "" {
        return Err(Invalid);
      }
      var key := PrimaryCacheKey(coinID, exchange);
      if w.cacheReadable && key in cache {
        return Ok(cache[key]);
      }
      if !w.storeUp {
        return Err(StoreFailed);
      }
      var found := GetPrimaryMapping(rows, coinID, exchange);
      if found.None? {
        return Err(NotFound);
      }
      WriteCache(key, found.value, w.firstWritten);
      WriteCache(ReverseCacheKey(exchange, found.value.exchangeSymbol), found.value, w.secondWritten);
      return Ok(found.value);
    }

    method ResolveCoinID(rawExchange: string, rawSymbol: string, w: Weather) returns (r: Result)
      modifies this
      ensures CoinResolved(rows, old(cache), cache, rawExchange, rawSymbol, w, r)
    {
      var exchange, symbol := NormalizeExchange(rawExchange), NormalizeSymbol(rawSymbol);
      if exchange == "" || symbol == "" {
        return Err(Invalid);
      }
      var key := ReverseCacheKey(exchange, symbol);
      if w.cacheReadable && key in cache {
        return Ok(cache[key]);
      }
      if !w.storeUp {
        return Err(StoreFailed);
      }
      var found := GetMappingBySymbol(rows, exchange, symbol);
      if found.None? {
        return Err(NotFound);
      }
      WriteCache(key, found.value, w.firstWritten);
      WriteCache(PrimaryCacheKey(found.value.coinID, exchange), found.value, w.secondWritten);
      return Ok(found.value);
    }

    /** Time passes: some entries expire. */
    method Expire(keys: set<string>)
      modifies this
      ensures cache == old(cache) - keys
    {
      cache := cache - keys;
    }
  }

  // ----- The cache agrees with the store -----

  /** A stored mapping has the spelling that its only writer, the upsert, gives it; its coin id is in lower
      case and its exchange has no colon. */
  predicate IsNormal(m: Mapping) {
    && Trim(m.coinID) == m.coinID && Lower(m.coinID) == m.coinID && m.coinID != ""
    && NormalizeExchange(m.exchange) == m.exchange && ColonFree(m.exchange) && m.exchange != ""
    && NormalizeSymbol(m.exchangeSymbol) == m.exchangeSymbol && Upper(m.exchangeSymbol) == m.exchangeSymbol
    && m.exchangeSymbol != ""
  }

  /** Rows are normal and unique by exchange and symbol. */
  ghost predicate IsStore(rows: seq<Row>) {
    && (forall i :: 0 <= i < |rows| ==> IsNormal(rows[i].mapping))
    && (forall i, j :: 0 <= i < j < |rows| ==>
          rows[i].mapping.exchange != rows[j].mapping.exchange
          || rows[i].mapping.exchangeSymbol != rows[j].mapping.exchangeSymbol)
  }

  ghost predicate IsActive(rows: seq<Row>, m: Mapping) {
    exists i :: 0 <= i < |rows| && rows[i].active && rows[i].mapping == m
  }

  /** An entry is an active mapping, under one of that mapping's own two keys. */
  ghost predicate IsFaithful(rows: seq<Row>, key: string, m: Mapping) {
    IsActive(rows, m) && (key == CoinKey(m.coinID, m.exchange) || key == SymbolKey(m.exchange, m.exchangeSymbol))
  }

  ghost predicate Faithful(rows: seq<Row>, cache: Cache) {
    forall key :: key in cache ==> IsFaithful(rows, key, cache[key])
  }

  /** A normal mapping's cache keys. */
  lemma KeysOfNormal(m: Mapping)
    requires IsNormal(m)
    ensures PrimaryCacheKey(m.coinID, m.exchange) == CoinKey(m.coinID, m.exchange)
    ensures ReverseCacheKey(m.exchange, m.exchangeSymbol) == SymbolKey(m.exchange, m.exchangeSymbol)
  {
  }

  lemma WrittenKeepsFaithful(rows: seq<Row>, cache: Cache, key: string, m: Mapping, works: bool)
    requires Faithful(rows, cache) && IsFaithful(rows, key, m)
    ensures Faithful(rows, Written(cache, key, m, works))
  {
  }

  /** The two writes after a lookup keep the cache faithful. */
  lemma WritesKeepFaithful(rows: seq<Row>, cache: Cache, m: Mapping, w: Weather, coinFirst: bool)
    requires IsStore(rows) && Faithful(rows, cache) && IsActive(rows, m)
    ensures var c, s := PrimaryCacheKey(m.coinID, m.exchange), ReverseCacheKey(m.exchange, m.exchangeSymbol);
            Faithful(rows, if coinFirst then Written(Written(cache, c, m, w.firstWritten), s, m, w.secondWritten)
                           else Written(Written(cache, s, m, w.firstWritten), c, m, w.secondWritten))
  {
    KeysOfNormal(m);
    var c, s := PrimaryCacheKey(m.coinID, m.exchange), ReverseCacheKey(m.exchange, m.exchangeSymbol);
    assert IsFaithful(rows, c, m) && IsFaithful(rows, s, m);
    WrittenKeepsFaithful(rows, cache, if coinFirst then c else s, m, w.firstWritten);
    WrittenKeepsFaithful(rows, Written(cache, if coinFirst then c else s, m, w.firstWritten),
                         if coinFirst then s else c, m, w.secondWritten);
  }

  // ----- Runs -----

  /** What happens to the resolver: a call, with its result, or some entries expiring. */
  datatype Event =
    | SymbolCall(coinID: string, exchange: string, w: Weather, r: Result)
    | CoinCall(exchange: string, symbol: string, w: Weather, r: Result)
    | Expiry(keys: set<string>)

  ghost predicate Step(rows: seq<Row>, before: Cache, after: Cache, e: Event) {
    match e
    case SymbolCall(coinID, exchange, w, r) => SymbolResolved(rows, before, after, coinID, exchange, w, r)
    case CoinCall(exchange, symbol, w, r) => CoinResolved(rows, before, after, exchange, symbol, w, r)
    case Expiry(keys) => after == before - keys
  }

  /** Callers spell coin ids in lower case and exchanges without colons. */
  predicate WellSpelled(e: Event) {
    match e
    case SymbolCall(coinID, exchange, _, _) =>
      Lower(Trim(coinID)) == Trim(coinID) && ColonFree(NormalizeExchange(exchange))
    case CoinCall(exchange, _, _, _) => ColonFree(NormalizeExchange(exchange))
    case Expiry(_) => true
  }

  /** The cache, at first empty, after each event. */
  ghost predicate IsRun(rows: seq<Row>, caches: seq<Cache>, events: seq<Event>) {
    && |caches| == |events| + 1 && caches[0] == map[]
    && (forall i :: 0 <= i < |events| ==> WellSpelled(events[i]))
    && (forall i :: 0 <= i < |events| ==> Step(rows, caches[i], caches[i + 1], events[i]))
  }

  lemma SymbolCallKeepsFaithful(rows: seq<Row>, before: Cache, after: Cache, e: Event)
    requires IsStore(rows) && Faithful(rows, before) && e.SymbolCall? && WellSpelled(e) && Step(rows, before, after, e)
    ensures Faithful(rows, after)
  {
    if after != before {
      var m, exchange := e.r.value, NormalizeExchange(e.exchange);
      TrimIdempotent(e.coinID);
      WritesKeepFaithful(rows, before, m, e.w, true);
    }
  }

  lemma CoinCallKeepsFaithful(rows: seq<Row>, before: Cache, after: Cache, e: Event)
    requires IsStore(rows) && Faithful(rows, before) && e.CoinCall? && WellSpelled(e) && Step(rows, before, after, e)
    ensures Faithful(rows, after)
  {
    if after != before {
      var m := e.r.value;
      WritesKeepFaithful(rows, before, m, e.w, false);
    }
  }

  lemma {:induction false} AlwaysFaithful(rows: seq<Row>, caches: seq<Cache>, events: seq<Event>, n: nat)
    requires IsStore(rows) && IsRun(rows, caches, events) && n <= |events|
    ensures Faithful(rows, caches[n])
  {
    if n == 0 {
    } else {
      AlwaysFaithful(rows, caches, events, n - 1);
      var e := events[n - 1];
      assert WellSpelled(e);
      match e
      case SymbolCall(_, _, _, _) => SymbolCallKeepsFaithful(rows, caches[n - 1], caches[n], e);
      case CoinCall(_, _, _, _) => CoinCallKeepsFaithful(rows, caches[n - 1], caches[n], e);
      case Expiry(_) =>
    }
  }

  // ----- What the answers say -----

  /** A coin lookup answers with the one active mapping of that symbol, and not found when there is none. */
  ghost predicate AnswersStore(rows: seq<Row>, exchange: string, symbol: string, storeUp: bool, r: Result) {
    match r
    case Ok(m) =>
      && IsSymbolLookup(rows, exchange, symbol, m)
      && forall other :: IsSymbolLookup(rows, exchange, symbol, other) ==> other == m
    case Err(NotFound) => forall m :: !IsSymbolLookup(rows, exchange, symbol, m)
    case Err(Invalid) => exchange == "" || symbol == ""
    case Err(StoreFailed) => !storeUp
  }

  lemma SymbolLookupUnique(rows: seq<Row>, exchange: string, symbol: string, m: Mapping, other: Mapping)
    requires IsStore(rows) && IsSymbolLookup(rows, exchange, symbol, m) && IsSymbolLookup(rows, exchange, symbol, other)
    ensures m == other
  {
    var i :| 0 <= i < |rows| && OfSymbol(rows[i], exchange, symbol) && rows[i].mapping == m;
    var j :| 0 <= j < |rows| && OfSymbol(rows[j], exchange, symbol) && rows[j].mapping == other;
    assert IsNormal(rows[i].mapping) && IsNormal(rows[j].mapping);
  }

  /** A cached entry under a symbol's key is that symbol's mapping. */
  lemma CachedSymbol(rows: seq<Row>, cache: Cache, exchange: string, symbol: string)
    requires IsStore(rows) && Faithful(rows, cache) && ColonFree(exchange) && SymbolKey(exchange, symbol) in cache
    ensures IsSymbolLookup(rows, exchange, symbol, cache[SymbolKey(exchange, symbol)])
  {
    var m := cache[SymbolKey(exchange, symbol)];
    assert IsFaithful(rows, SymbolKey(exchange, symbol), m);
    var i :| 0 <= i < |rows| && rows[i].active && rows[i].mapping == m;
    assert IsNormal(rows[i].mapping);
    KeysApart(m.coinID, m.exchange, exchange, symbol);
    SymbolKeyInjective(m.exchange, m.exchangeSymbol, exchange, symbol);
    assert OfSymbol(rows[i], exchange, symbol);
  }

  /** A cached entry under a coin's key is an active mapping of that coin on that exchange. */
  lemma CachedCoin(rows: seq<Row>, cache: Cache, coinID: string, exchange: string)
    requires IsStore(rows) && Faithful(rows, cache) && ColonFree(exchange) && CoinKey(coinID, exchange) in cache
    ensures var m := cache[CoinKey(coinID, exchange)]; IsActive(rows, m) && m.coinID == coinID && m.exchange == exchange
  {
    var m := cache[CoinKey(coinID, exchange)];
    assert IsFaithful(rows, CoinKey(coinID, exchange), m);
    var i :| 0 <= i < |rows| && rows[i].active && rows[i].mapping == m;
    assert IsNormal(rows[i].mapping);
    KeysApart(coinID, exchange, m.exchange, m.exchangeSymbol);
    CoinKeyInjective(coinID, exchange, m.coinID, m.exchange);
  }

  /** Whatever calls and expiries filled the cache, resolving a coin id answers as the store would. */
  lemma CoinAnswersAreStoreAnswers(rows: seq<Row>, caches: seq<Cache>, events: seq<Event>, n: nat)
    requires IsStore(rows) && IsRun(rows, caches, events) && n < |events| && events[n].CoinCall?
    ensures AnswersStore(rows, NormalizeExchange(events[n].exchange), NormalizeSymbol(events[n].symbol),
                         events[n].w.storeUp, events[n].r)
  {
    AlwaysFaithful(rows, caches, events, n);
    assert WellSpelled(events[n]) && Step(rows, caches[n], caches[n + 1], events[n]);
    CoinAnswer(rows, caches[n], caches[n + 1], events[n]);
  }

  lemma CoinAnswer(rows: seq<Row>, before: Cache, after: Cache, e: Event)
    requires IsStore(rows) && Faithful(rows, before) && e.CoinCall? && WellSpelled(e) && Step(rows, before, after, e)
    ensures AnswersStore(rows, NormalizeExchange(e.exchange), NormalizeSymbol(e.symbol), e.w.storeUp, e.r)
  {
    var exchange, symbol := NormalizeExchange(e.exchange), NormalizeSymbol(e.symbol);
    NormalizeExchangeIdempotent(e.exchange);
    NormalizeSymbolIdempotent(e.symbol);
    if e.r.Ok? {
      if SymbolKey(exchange, symbol) in before && e.w.cacheReadable {
        CachedSymbol(rows, before, exchange, symbol);
      }
      forall other | IsSymbolLookup(rows, exchange, symbol, other)
        ensures other == e.r.value
      {
        SymbolLookupUnique(rows, exchange, symbol, e.r.value, other);
      }
    }
  }

  /** Resolving a coin's symbol answers with an active mapping of that coin on that exchange; it says not
      found only when the store has none. */
  lemma SymbolAnswersAreActive(rows: seq<Row>, caches: seq<Cache>, events: seq<Event>, n: nat)
    requires IsStore(rows) && IsRun(rows, caches, events) && n < |events| && events[n].SymbolCall?
    ensures var coinID, exchange, r := Trim(events[n].coinID), NormalizeExchange(events[n].exchange), events[n].r;
            && (r.Ok? ==> IsActive(rows, r.value) && r.value.coinID == coinID && r.value.exchange == exchange)
            && (r == Err(NotFound) ==> forall i :: 0 <= i < |rows| ==> !OfCoin(rows[i], coinID, exchange))
  {
    AlwaysFaithful(rows, caches, events, n);
    assert WellSpelled(events[n]) && Step(rows, caches[n], caches[n + 1], events[n]);
    SymbolAnswer(rows, caches[n], caches[n + 1], events[n]);
  }

  lemma SymbolAnswer(rows: seq<Row>, before: Cache, after: Cache, e: Event)
    requires IsStore(rows) && Faithful(rows, before) && e.SymbolCall? && WellSpelled(e) && Step(rows, before, after, e)
    ensures var coinID, exchange := Trim(e.coinID), NormalizeExchange(e.exchange);
            && (e.r.Ok? ==> IsActive(rows, e.r.value) && e.r.value.coinID == coinID && e.r.value.exchange == exchange)
            && (e.r == Err(NotFound) ==> forall i :: 0 <= i < |rows| ==> !OfCoin(rows[i], coinID, exchange))
  {
    var coinID, exchange := Trim(e.coinID), NormalizeExchange(e.exchange);
    TrimIdempotent(e.coinID);
    NormalizeExchangeIdempotent(e.exchange);
    if e.r.Ok? && CoinKey(coinID, exchange) in before && e.w.cacheReadable {
      CachedCoin(rows, before, coinID, exchange);
    }
  }

  /** Resolving a coin's symbol fails only for a blank coin or exchange, with the store down, or with no active mapping
      there; resolving a coin id likewise. */
  lemma FailsOnlyWhen(rows: seq<Row>, before: Cache, after: Cache, e: Event)
    requires Step(rows, before, after, e) && !e.Expiry? && e.r.Err?
    ensures after == before
    ensures e.r == Err(Invalid) <==>
            Trim(e.exchange) == "" || Trim(if e.SymbolCall? then e.coinID else e.symbol) == ""
    ensures e.r == Err(StoreFailed) ==> !e.w.storeUp
    ensures e.r == Err(NotFound) && e.SymbolCall? ==>
              forall i :: 0 <= i < |rows| ==>
                            !(rows[i].active && rows[i].mapping.coinID == Trim(e.coinID)
                              && rows[i].mapping.exchange == Lower(Trim(e.exchange)))
    ensures e.r == Err(NotFound) && e.CoinCall? ==>
              forall i :: 0 <= i < |rows| ==>
                            !(rows[i].active && Upper(rows[i].mapping.exchangeSymbol) == Upper(Trim(e.symbol))
                              && rows[i].mapping.exchange == Lower(Trim(e.exchange)))
  {
  }

  /** The store's primary lookup gives an active mapping of the coin on the exchange; no other such row is primary
      without it, and among rows alike in that the latest verified, then the latest updated goes first. */
  lemma PrimaryLookupIs(rows: seq<Row>, coinID: string, exchange: string, m: Mapping) returns (i: nat)
    requires IsPrimaryLookup(rows, coinID, exchange, m)
    ensures i < |rows| && rows[i].mapping == m && rows[i].active && m.coinID == coinID && m.exchange == exchange
    ensures forall o :: o in rows && o.active && o.mapping.coinID == coinID && o.mapping.exchange == exchange ==>
                          && (o.mapping.isPrimary ==> m.isPrimary)
                          && (o.mapping.isPrimary == m.isPrimary ==>
                                && (o.verified.Some? ==> rows[i].verified.Some?
                                                         && o.verified.value <= rows[i].verified.value)
                                && (o.verified == rows[i].verified ==> o.updatedAt <= rows[i].updatedAt))
  {
    i :| IsBest(rows, coinID, exchange, i) && rows[i].mapping == m;
    forall o | o in rows && OfCoin(o, coinID, exchange)
      ensures !Outranks(o, rows[i])
    {
      var j :| 0 <= j < |rows| && rows[j] == o;
    }
  }

  // ----- When is the answer the primary mapping? -----

  ghost predicate AnswersPrimary(rows: seq<Row>, coinID: string, exchange: string, e: Event) {
    e.SymbolCall? && Trim(e.coinID) == coinID && NormalizeExchange(e.exchange) == exchange && e.r.Ok? ==>
      IsPrimaryLookup(rows, coinID, exchange, e.r.value)
  }

  /** In every run, every symbol found for the coin on the exchange is one the store's primary lookup gives. */
  ghost predicate AlwaysPrimary(rows: seq<Row>, coinID: string, exchange: string) {
    forall caches, events: seq<Event>, n :: IsRun(rows, caches, events) && 0 <= n < |events| ==>
      AnswersPrimary(rows, coinID, exchange, events[n])
  }

  /** All active mappings of the coin on the exchange tie for first place; for one, it is the only one. */
  ghost predicate AllBest(rows: seq<Row>, coinID: string, exchange: string) {
    forall i :: 0 <= i < |rows| && OfCoin(rows[i], coinID, exchange) ==> IsBest(rows, coinID, exchange, i)
  }

  /** Looking up the coin of another of its symbols plants that mapping under the coin's own key, so the
      next resolution of the coin answers with it. */
  lemma PlantedRun(rows: seq<Row>, i: nat) returns (caches: seq<Cache>, events: seq<Event>)
    requires IsStore(rows) && i < |rows| && rows[i].active
    ensures IsRun(rows, caches, events) && |events| == 2
    ensures var m := rows[i].mapping;
            events[1].SymbolCall? && Trim(events[1].coinID) == m.coinID
            && NormalizeExchange(events[1].exchange) == m.exchange
            && events[1].r == Ok(m)
  {
    var m := rows[i].mapping;
    assert IsNormal(m);
    KeysOfNormal(m);
    var w := Weather(true, true, true, true);
    var first := map[SymbolKey(m.exchange, m.exchangeSymbol) := m][CoinKey(m.coinID, m.exchange) := m];
    caches := [map[], first, first];
    events := [CoinCall(m.exchange, m.exchangeSymbol, w, Ok(m)), SymbolCall(m.coinID, m.exchange, w, Ok(m))];
    assert OfSymbol(rows[i], m.exchange, m.exchangeSymbol);
    assert CoinResolved(rows, caches[0], caches[1], m.exchange, m.exchangeSymbol, w, Ok(m));
    assert SymbolResolved(rows, caches[1], caches[2], m.coinID, m.exchange, w, Ok(m));
    assert Step(rows, caches[0], caches[1], events[0]) && Step(rows, caches[1], caches[2], events[1]);
  }

  /** The resolver always gives the coin's primary mapping exactly when all its active mappings on the
      exchange tie for first place. */
  lemma PrimaryAnswersIff(rows: seq<Row>, coinID: string, exchange: string)
    requires IsStore(rows)
    ensures AlwaysPrimary(rows, coinID, exchange) <==> AllBest(rows, coinID, exchange)
  {
    if AllBest(rows, coinID, exchange) {
      forall caches, events: seq<Event>, n | IsRun(rows, caches, events) && 0 <= n < |events|
        ensures AnswersPrimary(rows, coinID, exchange, events[n])
      {
        if events[n].SymbolCall? {
          SymbolAnswersAreActive(rows, caches, events, n);
        }
      }
    } else {
      var i :| 0 <= i < |rows| && OfCoin(rows[i], coinID, exchange) && !IsBest(rows, coinID, exchange, i);
      var caches, events := PlantedRun(rows, i);
      assert !IsPrimaryLookup(rows, coinID, exchange, rows[i].mapping);
      assert !AnswersPrimary(rows, coinID, exchange, events[1]);
    }
  }

  // ----- An instance of an answer that is not the primary -----

  const PRIMARY := Mapping("c", "e", "F/U", "F", "U", true, 0)
  const SECOND := Mapping("c", "e", "F/B", "F", "B", false, 0)

  /** Two active mappings of one coin on one exchange. */
  const TWO_ROWS := [Row(PRIMARY, true, None, 0), Row(SECOND, true, None, 0)]

  lemma SmallIsNormal(m: Mapping)
    requires m == PRIMARY || m == SECOND
    ensures IsNormal(m)
  {
    assert IsTrimmed(m.coinID) && IsTrimmed(m.exchange) && IsTrimmed(m.exchangeSymbol);
  }

  /** After the coin was looked up by its second symbol, resolving the coin answers with that symbol, although the
      store has a primary one. */
  lemma PlantedInstance() returns (caches: seq<Cache>, events: seq<Event>)
    ensures IsStore(TWO_ROWS) && IsRun(TWO_ROWS, caches, events) && |events| == 2
    ensures IsPrimaryLookup(TWO_ROWS, "c", "e", PRIMARY) && !IsPrimaryLookup(TWO_ROWS, "c", "e", SECOND)
    ensures events[1].SymbolCall? && Trim(events[1].coinID) == "c" && NormalizeExchange(events[1].exchange) == "e"
            && events[1].r == Ok(SECOND)
  {
    SmallIsNormal(PRIMARY);
    SmallIsNormal(SECOND);
    assert PRIMARY.exchangeSymbol[2] != SECOND.exchangeSymbol[2];
    caches, events := PlantedRun(TWO_ROWS, 1);
    assert IsBest(TWO_ROWS, "c", "e", 0);
  }
}
