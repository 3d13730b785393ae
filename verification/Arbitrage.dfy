/** The arbitrage scan over ticker snapshots (engine/market/arbitrage/engine.go) and its cooldown keys. */
module Arbitrage {
  import opened Text
  import opened Ticker

  /** Nanoseconds in a second. */
  const SECOND: int := 1000000000

  datatype Config = Config(minSpreadPct: real, minDepthUSD: real, cooldownSeconds: int, isEnabled: bool)

  datatype Opportunity = Opportunity(coinID: string, symbol: string, buyExchange: string, sellExchange: string,
                                     buyPrice: real, sellPrice: real, grossSpreadPct: real,
                                     buyDepthUSD: real, sellDepthUSD: real, detectedAt: int, isProfitable: bool)

  /** The last fresh entry of the exchange `name`. */
  function LastFresh(entries: seq<Entry>, name: string): Option<Entry> {
    if entries == [] then None
    else
      var e := entries[|entries| - 1];
      if !e.isStale && e.exchange == name then Some(e) else LastFresh(entries[..|entries| - 1], name)
  }

  method FindSides(s: Snapshot) returns (buy: Option<Entry>, sell: Option<Entry>)
    ensures buy == LastFresh(s.available, s.bestAskExchange) && sell == LastFresh(s.available, s.bestBidExchange)
  {
    buy, sell := None, None;
    for i := 0 to |s.available|
      invariant buy == LastFresh(s.available[..i], s.bestAskExchange)
      invariant sell == LastFresh(s.available[..i], s.bestBidExchange)
    {
      assert s.available[..i + 1][..i] == s.available[..i];
      var e := s.available[i];
      if e.isStale {
        continue;
      }
      if e.exchange == s.bestAskExchange {
        buy := Some(e);
      }
      if e.exchange == s.bestBidExchange {
        sell := Some(e);
      }
    }
    assert s.available[..|s.available|] == s.available;
  }

  function DetectOpportunity(s: Snapshot, cfg: Config, now: int): Option<Opportunity> {
    if s.bestAsk <= 0.0 || s.bestBid <= 0.0 then None
    else if s.bestBidExchange == "" || s.bestAskExchange == "" || s.bestBidExchange == s.bestAskExchange then None
    else if s.spreadPct < cfg.minSpreadPct then None
    else
      match (LastFresh(s.available, s.bestAskExchange), LastFresh(s.available, s.bestBidExchange))
      case (Some(buy), Some(sell)) =>
        var buyDepth, sellDepth := buy.ask * buy.volume, sell.bid * sell.volume;
        if buyDepth < cfg.minDepthUSD || sellDepth < cfg.minDepthUSD then None
        else Some(Opportunity(s.coinID, buy.symbol, buy.exchange, sell.exchange, buy.ask, sell.bid, s.spreadPct,
                              buyDepth, sellDepth, now, s.spreadPct >= cfg.minSpreadPct))
      case _ => None
  }

  // ----- The one-pass scan agrees with the all-pairs search -----

  /** The ticker `t` is a fresh quote of the coin. */
  ghost predicate IsFreshQuote(quotes: Quotes, maxAge: int, now: int, t: Ticker) {
    t in quotes.Values && !IsStale(t, maxAge, now)
  }

  /** A fresh positive ask and a fresh positive bid to trade between. */
  ghost predicate IsPair(quotes: Quotes, maxAge: int, now: int, buy: Ticker, sell: Ticker) {
    IsFreshQuote(quotes, maxAge, now, buy) && IsFreshQuote(quotes, maxAge, now, sell) && buy.ask > 0.0 && sell.bid > 0.0
  }

  /** The same between two different exchanges, with at least the spread `minimum`. */
  ghost predicate IsCrossPair(quotes: Quotes, maxAge: int, now: int, buy: Ticker, sell: Ticker, minimum: real) {
    && IsPair(quotes, maxAge, now, buy, sell) && buy.exchange != sell.exchange
    && CrossSpreadPct(buy.ask, sell.bid) >= minimum
  }

  /** A cheaper ask and a dearer bid never give a smaller spread. */
  lemma SpreadMonotone(ask: real, bid: real, bestAsk: real, bestBid: real)
    requires 0.0 < bestAsk <= ask && 0.0 < bid <= bestBid
    ensures CrossSpreadPct(ask, bid) <= CrossSpreadPct(bestAsk, bestBid)
  {
    var p, q := (bid - ask) / ask + 1.0, (bestBid - bestAsk) / bestAsk + 1.0;
    assert p * ask == bid && q * bestAsk == bestBid;
    SignOfFactor(q, bestAsk);
    assert q * (ask - bestAsk) >= 0.0;
    assert (q - p) * ask == q * (ask - bestAsk) + bestBid - bid;
    SignOfFactor(q - p, ask);
  }

  lemma SignOfFactor(d: real, k: real)
    requires k > 0.0 && d * k >= 0.0
    ensures d >= 0.0
  {
  }

  /** A fresh ticker's entry is the one found under its exchange's name. */
  lemma {:induction false} FoundByName(entries: seq<Entry>, e: Entry)
    requires e in entries && !e.isStale
    requires forall i, j :: 0 <= i < j < |entries| ==> entries[i].exchange != entries[j].exchange
    ensures LastFresh(entries, e.exchange) == Some(e)
  {
    var n := |entries| - 1;
    if entries[n] != e {
      var i :| 0 <= i < |entries| && entries[i] == e;
      assert entries[..n][i] == e;
      FoundByName(entries[..n], e);
    }
  }

  lemma SortedNamesDiffer(entries: seq<Entry>)
    requires Sorted(entries)
    ensures forall i, j :: 0 <= i < j < |entries| ==> entries[i].exchange != entries[j].exchange
  {
    forall i, j | 0 <= i < j < |entries|
      ensures entries[i].exchange != entries[j].exchange
    {
      PrecedesTotal(entries[i].exchange, entries[j].exchange);
    }
  }

  /** The entry carries the ticker's quote. */
  predicate SameQuote(e: Entry, t: Ticker) {
    e.exchange == t.exchange && e.symbol == t.symbol && e.bid == t.bid && e.ask == t.ask && e.volume == t.volume
  }

  /** Looking a fresh ticker's exchange up finds its quote. */
  lemma FindsQuote(quotes: Quotes, maxAge: int, now: int, s: Snapshot, t: Ticker) returns (e: Entry)
    requires IsBook(quotes, maxAge, now, s) && IsFreshQuote(quotes, maxAge, now, t)
    ensures LastFresh(s.available, t.exchange) == Some(e) && SameQuote(e, t)
  {
    e := ToEntry(t, maxAge, now);
    SortedNamesDiffer(s.available);
    FoundByName(s.available, e);
  }

  /** The tickers that set the best ask and the best bid. */
  lemma BestSides(quotes: Quotes, maxAge: int, now: int, s: Snapshot) returns (buy: Ticker, sell: Ticker)
    requires IsBook(quotes, maxAge, now, s) && s.bestAsk > 0.0 && s.bestBid > 0.0
    ensures IsPair(quotes, maxAge, now, buy, sell)
    ensures buy.ask == s.bestAsk && buy.exchange == s.bestAskExchange
    ensures sell.bid == s.bestBid && sell.exchange == s.bestBidExchange
  {
    buy :| buy in quotes.Values && !IsStale(buy, maxAge, now) && buy.ask == s.bestAsk
           && buy.exchange == s.bestAskExchange;
    sell :| sell in quotes.Values && !IsStale(sell, maxAge, now) && sell.bid == s.bestBid
            && sell.exchange == s.bestBidExchange;
  }

  /** No pair of fresh positive quotes has a larger spread than the best ask and the best bid. */
  lemma BestSpread(quotes: Quotes, maxAge: int, now: int, s: Snapshot, buy: Ticker, sell: Ticker)
    requires IsBook(quotes, maxAge, now, s) && IsPair(quotes, maxAge, now, buy, sell)
    ensures s.bestAsk > 0.0 && s.bestBid > 0.0
    ensures CrossSpreadPct(buy.ask, sell.bid) <= CrossSpreadPct(s.bestAsk, s.bestBid)
  {
    assert 0.0 < s.bestAsk <= buy.ask && sell.bid <= s.bestBid;
    SpreadMonotone(buy.ask, sell.bid, s.bestAsk, s.bestBid);
  }

  /** A detected opportunity trades between two different exchanges at exactly the fresh quotes that set the
      best ask and the best bid, and its spread is at least that of every pair of fresh positive quotes. */
  lemma DetectedIsBestOfAllPairs(quotes: Quotes, maxAge: int, now: int, s: Snapshot, cfg: Config, at: int)
    returns (buy: Ticker, sell: Ticker)
    requires IsSnapshot(quotes, maxAge, now, s) && DetectOpportunity(s, cfg, at).Some?
    ensures IsCrossPair(quotes, maxAge, now, buy, sell, cfg.minSpreadPct)
    ensures var o := DetectOpportunity(s, cfg, at).value;
            && o.buyExchange == buy.exchange && o.buyPrice == buy.ask == s.bestAsk && o.symbol == buy.symbol
            && o.sellExchange == sell.exchange && o.sellPrice == sell.bid == s.bestBid
            && o.grossSpreadPct == CrossSpreadPct(o.buyPrice, o.sellPrice)
            && forall b, t :: IsPair(quotes, maxAge, now, b, t) ==> CrossSpreadPct(b.ask, t.bid) <= o.grossSpreadPct
  {
    buy, sell := BestSides(quotes, maxAge, now, s);
    var b := FindsQuote(quotes, maxAge, now, s, buy);
    var t := FindsQuote(quotes, maxAge, now, s, sell);
    forall b, t | IsPair(quotes, maxAge, now, b, t)
      ensures CrossSpreadPct(b.ask, t.bid) <= CrossSpreadPct(s.bestAsk, s.bestBid)
    {
      BestSpread(quotes, maxAge, now, s, b, t);
    }
  }

  predicate IsDeep(price: real, volume: real, minimum: real) {
    price * volume >= minimum
  }

  /** The quotes at the best ask and at the best bid have the minimum depth. */
  ghost predicate SidesDeep(quotes: Quotes, maxAge: int, now: int, s: Snapshot, minimum: real) {
    forall t :: IsFreshQuote(quotes, maxAge, now, t) ==>
                  && (t.exchange == s.bestAskExchange ==> IsDeep(t.ask, t.volume, minimum))
                  && (t.exchange == s.bestBidExchange ==> IsDeep(t.bid, t.volume, minimum))
  }

  lemma DetectedIsDeep(quotes: Quotes, maxAge: int, now: int, s: Snapshot, cfg: Config, at: int)
    requires IsSnapshot(quotes, maxAge, now, s) && DetectOpportunity(s, cfg, at).Some?
    ensures SidesDeep(quotes, maxAge, now, s, cfg.minDepthUSD)
  {
    forall t | IsFreshQuote(quotes, maxAge, now, t)
      ensures t.exchange == s.bestAskExchange ==> IsDeep(t.ask, t.volume, cfg.minDepthUSD)
      ensures t.exchange == s.bestBidExchange ==> IsDeep(t.bid, t.volume, cfg.minDepthUSD)
    {
      var e := FindsQuote(quotes, maxAge, now, s, t);
      DetectedDepth(s, cfg, at, e);
    }
  }

  /** The entries found for a detected opportunity are deep enough. */
  lemma DetectedDepth(s: Snapshot, cfg: Config, at: int, e: Entry)
    requires DetectOpportunity(s, cfg, at).Some?
    ensures LastFresh(s.available, s.bestAskExchange) == Some(e) ==> IsDeep(e.ask, e.volume, cfg.minDepthUSD)
    ensures LastFresh(s.available, s.bestBidExchange) == Some(e) ==> IsDeep(e.bid, e.volume, cfg.minDepthUSD)
  {
  }

  lemma SidesNamed(quotes: Quotes, maxAge: int, now: int, s: Snapshot)
    requires AllNamed(quotes) && IsBook(quotes, maxAge, now, s) && s.bestAsk > 0.0 && s.bestBid > 0.0
    ensures s.bestBidExchange != "" && s.bestAskExchange != ""
  {
    var b, t := BestSides(quotes, maxAge, now, s);
  }

  /** A pair that reaches the minimum makes the snapshot's spread reach it. */
  lemma SpreadReached(quotes: Quotes, maxAge: int, now: int, s: Snapshot, minimum: real, b: Ticker, t: Ticker)
    requires IsSnapshot(quotes, maxAge, now, s) && IsCrossPair(quotes, maxAge, now, b, t, minimum)
    ensures s.bestAsk > 0.0 && s.bestBid > 0.0
    ensures s.bestBidExchange != "" && s.bestAskExchange != "" ==> s.spreadPct >= minimum
  {
    BestSpread(quotes, maxAge, now, s, b, t);
  }

  lemma DetectedFromSides(s: Snapshot, cfg: Config, at: int, buy: Entry, sell: Entry)
    requires s.bestAsk > 0.0 && s.bestBid > 0.0 && s.bestAskExchange != s.bestBidExchange
    requires s.bestAskExchange != "" && s.bestBidExchange != ""
    requires s.spreadPct >= cfg.minSpreadPct
    requires LastFresh(s.available, s.bestAskExchange) == Some(buy)
    requires LastFresh(s.available, s.bestBidExchange) == Some(sell)
    requires IsDeep(buy.ask, buy.volume, cfg.minDepthUSD) && IsDeep(sell.bid, sell.volume, cfg.minDepthUSD)
    ensures DetectOpportunity(s, cfg, at).Some?
  {
  }

  lemma DetectedWhenSidesDiffer(quotes: Quotes, maxAge: int, now: int, s: Snapshot, cfg: Config, at: int, b: Ticker,
                                t: Ticker)
    requires AllNamed(quotes) && IsSnapshot(quotes, maxAge, now, s)
    requires SidesDeep(quotes, maxAge, now, s, cfg.minDepthUSD)
    requires s.bestAskExchange != s.bestBidExchange && IsCrossPair(quotes, maxAge, now, b, t, cfg.minSpreadPct)
    ensures DetectOpportunity(s, cfg, at).Some?
  {
    SpreadReached(quotes, maxAge, now, s, cfg.minSpreadPct, b, t);
    SidesNamed(quotes, maxAge, now, s);
    var x, y := BestSides(quotes, maxAge, now, s);
    var buy := FindsQuote(quotes, maxAge, now, s, x);
    var sell := FindsQuote(quotes, maxAge, now, s, y);
    DetectedFromSides(s, cfg, at, buy, sell);
  }

  ghost predicate AllNamed(quotes: Quotes) {
    forall t :: t in quotes.Values ==> t.exchange != ""
  }

  /** An opportunity is detected if and only if the best ask and the best bid are named for different
      exchanges, both quotes are deep enough, and some pair of different exchanges reaches the minimum spread. */
  lemma DetectedIff(quotes: Quotes, maxAge: int, now: int, s: Snapshot, cfg: Config, at: int)
    requires WellKeyed(quotes) && IsSnapshot(quotes, maxAge, now, s)
    ensures DetectOpportunity(s, cfg, at).Some? <==>
            && s.bestAskExchange != s.bestBidExchange
            && SidesDeep(quotes, maxAge, now, s, cfg.minDepthUSD)
            && exists b, t :: IsCrossPair(quotes, maxAge, now, b, t, cfg.minSpreadPct)
  {
    assert AllNamed(quotes);
    if DetectOpportunity(s, cfg, at).Some? {
      var b, t := DetectedIsBestOfAllPairs(quotes, maxAge, now, s, cfg, at);
      DetectedIsDeep(quotes, maxAge, now, s, cfg, at);
    } else if s.bestAskExchange != s.bestBidExchange && SidesDeep(quotes, maxAge, now, s, cfg.minDepthUSD) {
      forall b, t
        ensures !IsCrossPair(quotes, maxAge, now, b, t, cfg.minSpreadPct)
      {
        if IsCrossPair(quotes, maxAge, now, b, t, cfg.minSpreadPct) {
          DetectedWhenSidesDiffer(quotes, maxAge, now, s, cfg, at, b, t);
        }
      }
    }
  }

  /** No fresh ticker bids more than it asks. */
  ghost predicate Uncrossed(quotes: Quotes, maxAge: int, now: int) {
    forall t :: IsFreshQuote(quotes, maxAge, now, t) && t.ask > 0.0 ==> t.bid <= t.ask
  }

  /** A positive spread means a bid above the ask. */
  lemma PositiveSpread(ask: real, bid: real)
    requires ask > 0.0 && CrossSpreadPct(ask, bid) > 0.0
    ensures bid > ask
  {
    var gain := (bid - ask) / ask;
    assert gain > 0.0 && gain * ask == bid - ask;
  }

  lemma SameExchangeSameTicker(quotes: Quotes, t: Ticker, u: Ticker)
    requires WellKeyed(quotes) && t in quotes.Values && u in quotes.Values && t.exchange == u.exchange
    ensures t == u
  {
    var k :| k in quotes && quotes[k] == t;
    var l :| l in quotes && quotes[l] == u;
    assert k == ExchangeKey(t) && l == ExchangeKey(u);
  }

  /** When no fresh ticker is crossed and some pair reaches a positive minimum, the best sides are different
      exchanges. */
  lemma UncrossedSidesDiffer(quotes: Quotes, maxAge: int, now: int, s: Snapshot, minimum: real, b: Ticker, t: Ticker)
    requires WellKeyed(quotes) && IsSnapshot(quotes, maxAge, now, s) && Uncrossed(quotes, maxAge, now)
    requires minimum > 0.0 && IsCrossPair(quotes, maxAge, now, b, t, minimum)
    ensures s.bestAskExchange != s.bestBidExchange
  {
    BestSpread(quotes, maxAge, now, s, b, t);
    PositiveSpread(s.bestAsk, s.bestBid);
    var buy, sell := BestSides(quotes, maxAge, now, s);
    if buy.exchange == sell.exchange {
      SameExchangeSameTicker(quotes, buy, sell);
    }
  }

  /** So a pair is missed at a positive minimum only because some exchange bids above its own ask: without one,
      an opportunity is detected if and only if both best quotes are deep enough and some pair of different
      exchanges reaches the minimum spread. */
  lemma UncrossedDetectedIff(quotes: Quotes, maxAge: int, now: int, s: Snapshot, cfg: Config, at: int)
    requires WellKeyed(quotes) && IsSnapshot(quotes, maxAge, now, s) && Uncrossed(quotes, maxAge, now)
    requires cfg.minSpreadPct > 0.0
    ensures DetectOpportunity(s, cfg, at).Some? <==>
            && SidesDeep(quotes, maxAge, now, s, cfg.minDepthUSD)
            && exists b, t :: IsCrossPair(quotes, maxAge, now, b, t, cfg.minSpreadPct)
  {
    DetectedIff(quotes, maxAge, now, s, cfg, at);
    if b, t :| IsCrossPair(quotes, maxAge, now, b, t, cfg.minSpreadPct) {
      UncrossedSidesDiffer(quotes, maxAge, now, s, cfg.minSpreadPct, b, t);
    }
  }

  function QuoteAt(exchange: string, bid: real, ask: real): Ticker {
    Ticker("c", "C/USDT", exchange, "C", "USDT", bid, bid, ask, 1.0, 1)
  }

  const CROSSED := QuoteAt("a", 110.0, 100.0)
  const OTHER := QuoteAt("b", 105.0, 106.0)

  lemma CrossedSetsBoth(s: Snapshot)
    requires IsBook(map["a" := CROSSED, "b" := OTHER], 15, 1, s)
    ensures s.bestAskExchange == "a" && s.bestBidExchange == "a"
  {
    var quotes := map["a" := CROSSED, "b" := OTHER];
    assert quotes["a"] == CROSSED && quotes["b"] == OTHER;
    assert CROSSED in quotes.Values && OTHER in quotes.Values;
    assert !IsStale(CROSSED, 15, 1) && !IsStale(OTHER, 15, 1);
  }

  /** A missed pair: when one exchange quotes both the best ask and the best bid, a profitable pair with
      another exchange goes undetected. */
  lemma MissedPair(s: Snapshot)
    requires IsSnapshot(map["a" := CROSSED, "b" := OTHER], 15, 1, s)
    ensures IsCrossPair(map["a" := CROSSED, "b" := OTHER], 15, 1, CROSSED, OTHER, 5.0)
    ensures DetectOpportunity(s, Config(5.0, 0.0, 0, true), 1).None?
  {
    var quotes := map["a" := CROSSED, "b" := OTHER];
    CrossedSetsBoth(s);
    assert quotes["a"] == CROSSED && quotes["b"] == OTHER;
    assert CROSSED in quotes.Values && OTHER in quotes.Values;
  }

  // ----- Scanning, with cooldown keys -----

  function CooldownKey(o: Opportunity): string {
    "arb:cooldown:" + Trim(o.coinID) + ":" + NormalizeExchange(o.buyExchange) + ":" + NormalizeExchange(o.sellExchange)
  }

  /** An inserted signal, with the cooldown configured at that moment. */
  datatype Signal = Signal(opportunity: Opportunity, seconds: int)

  datatype State = State(expiries: map<string, int>, signals: seq<Signal>)

  /** For one snapshot: the configuration read, the clock, and whether the insert and the two cache calls
      succeed. */
  datatype Env = Env(config: Option<Config>, now: int, cacheRead: bool, insertOk: bool, cacheWrite: bool)

  datatype Outcome = Skipped | Inserted(opportunity: Opportunity) | Aborted

  predicate OnCooldown(hasCache: bool, st: State, o: Opportunity, seconds: int, env: Env) {
    hasCache && seconds > 0 && env.cacheRead && CooldownKey(o) in st.expiries && env.now < st.expiries[CooldownKey(o)]
  }

  /** What one snapshot of a scan does. */
  function ScanOne(hasCache: bool, st: State, s: Snapshot, env: Env): (Outcome, State) {
    if env.config.None? then (Aborted, st)
    else
      var cfg := env.config.value;
      if !cfg.isEnabled then (Skipped, st)
      else
        match DetectOpportunity(s, cfg, env.now)
        case None => (Skipped, st)
        case Some(o) =>
          if OnCooldown(hasCache, st, o, cfg.cooldownSeconds, env) then (Skipped, st)
          else if !env.insertOk then (Aborted, st)
          else
            var expiries := if hasCache && cfg.cooldownSeconds > 0 && env.cacheWrite
                            then st.expiries[CooldownKey(o) := env.now + cfg.cooldownSeconds * SECOND] else st.expiries;
            (Inserted(o), State(expiries, st.signals + [Signal(o, cfg.cooldownSeconds)]))
  }

  /** The state after the snapshots `items` of one or more scans. */
  function ScanAll(hasCache: bool, st: State, items: seq<(Snapshot, Env)>): State {
    if items == [] then st
    else
      var (s, env) := items[|items| - 1];
      ScanOne(hasCache, ScanAll(hasCache, st, items[..|items| - 1]), s, env).1
  }

  class Engine {
    const hasCache: bool
    var expiries: map<string, int>
    var signals: seq<Signal>

    constructor (hasCache: bool)
      ensures this.hasCache == hasCache && Current() == State(map[], [])
    {
      this.hasCache := hasCache;
      expiries, signals := map[], [];
    }

    ghost function Current(): State
      reads this
    {
      State(expiries, signals)
    }

    /** Scans the snapshots in turn, stopping at the first failure; `done` of them were completed. */
    method Scan(items: seq<(Snapshot, Env)>) returns (out: Option<seq<Opportunity>>, ghost done: nat)
      modifies this
      ensures done <= |items| && Current() == ScanAll(hasCache, old(Current()), items[..done])
      ensures old(signals) <= signals && (out.Some? <==> done == |items|)
      ensures out.None? ==> ScanOne(hasCache, Current(), items[done].0, items[done].1) == (Aborted, Current())
      ensures out.Some? ==> |signals| == |old(signals)| + |out.value|
                            && forall i :: 0 <= i < |out.value| ==>
                                 out.value[i] == signals[|old(signals)| + i].opportunity
    {
      var found: seq<Opportunity> := [];
      done := 0;
      for i := 0 to |items|
        invariant done == i && Current() == ScanAll(hasCache, old(Current()), items[..i])
        invariant |signals| == |old(signals)| + |found| && signals[..|old(signals)|] == old(signals)
        invariant forall j :: 0 <= j < |found| ==> found[j] == signals[|old(signals)| + j].opportunity
      {
        var outcome := ScanSnapshot(items[i].0, items[i].1);
        if outcome.Aborted? {
          return None, i;
        }
        assert items[..i + 1][..i] == items[..i];
        if outcome.Inserted? {
          found := found + [outcome.opportunity];
        }
        done := i + 1;
      }
      out := Some(found);
    }

    method ScanSnapshot(s: Snapshot, env: Env) returns (r: Outcome)
      modifies this
      ensures (r, Current()) == ScanOne(hasCache, old(Current()), s, env)
    {
      if env.config.None? {
        return Aborted;
      }
      var cfg := env.config.value;
      if !cfg.isEnabled {
        return Skipped;
      }
      var detected := DetectOpportunity(s, cfg, env.now);
      if detected.None? {
        return Skipped;
      }
      var o := detected.value;
      var key := CooldownKey(o);
      if hasCache && cfg.cooldownSeconds > 0 && env.cacheRead && key in expiries && env.now < expiries[key] {
        return Skipped;
      }
      if !env.insertOk {
        return Aborted;
      }
      signals := signals + [Signal(o, cfg.cooldownSeconds)];
      if hasCache && cfg.cooldownSeconds > 0 && env.cacheWrite {
        expiries := expiries[key := env.now + cfg.cooldownSeconds * SECOND];
      }
      r := Inserted(o);
    }
  }

  /** Items whose clock does not go back and whose cache calls succeed. */
  ghost predicate WorkingRun(items: seq<(Snapshot, Env)>) {
    && (forall i :: 0 <= i < |items| ==> items[i].1.cacheRead && items[i].1.cacheWrite)
    && (forall i, j :: 0 <= i < j < |items| ==> items[i].1.now <= items[j].1.now)
  }

  /** While its cooldown lasts a signal's key is held at least that long. */
  ghost predicate KeyHeld(st: State, g: Signal, clock: int) {
    && g.opportunity.detectedAt <= clock
    && (g.seconds > 0 ==> var key := CooldownKey(g.opportunity);
                          key in st.expiries && g.opportunity.detectedAt + g.seconds * SECOND <= st.expiries[key])
  }

  /** Two signals under the same key are a cooldown apart. */
  ghost predicate Apart(g: Signal, h: Signal) {
    CooldownKey(g.opportunity) == CooldownKey(h.opportunity) && g.seconds > 0 && h.seconds > 0 ==>
      g.opportunity.detectedAt + g.seconds * SECOND <= h.opportunity.detectedAt
  }

  ghost predicate Spaced(st: State, clock: int) {
    && (forall g :: g in st.signals ==> KeyHeld(st, g, clock))
    && (forall i, j :: 0 <= i < j < |st.signals| ==> Apart(st.signals[i], st.signals[j]))
  }

  lemma ScanOneSpaced(st: State, s: Snapshot, env: Env, clock: int)
    requires Spaced(st, clock) && clock <= env.now && env.cacheRead && env.cacheWrite
    ensures Spaced(ScanOne(true, st, s, env).1, env.now)
  {
    var (r, st') := ScanOne(true, st, s, env);
    forall g | g in st.signals
      ensures KeyHeld(st', g, env.now)
      ensures r.Inserted? ==> Apart(g, st'.signals[|st.signals|])
    {
      assert KeyHeld(st, g, clock);
    }
    if r.Inserted? {
      assert KeyHeld(st', st'.signals[|st.signals|], env.now);
      assert forall i :: 0 <= i < |st.signals| ==> st.signals[i] in st.signals;
    }
  }

  /** In every run with a working cache, two signals for the same coin, buying and selling exchange are
      inserted at least the first one's cooldown apart, when a cooldown is configured for both. */
  lemma {:induction false} SignalsAreSpaced(items: seq<(Snapshot, Env)>)
    requires WorkingRun(items)
    ensures items != [] ==> Spaced(ScanAll(true, State(map[], []), items), items[|items| - 1].1.now)
  {
    if items == [] {
    } else {
      var n := |items| - 1;
      SignalsAreSpaced(items[..n]);
      var clock := if n == 0 then items[n].1.now else items[n - 1].1.now;
      ScanOneSpaced(ScanAll(true, State(map[], []), items[..n]), items[n].0, items[n].1, clock);
    }
  }

  // ----- Spacing when the cache fails now and then -----

  const START := State(map[], [])

  /** The state before item `k`, and what that item does. */
  function Before(items: seq<(Snapshot, Env)>, k: nat): State
    requires k <= |items|
  {
    ScanAll(true, START, items[..k])
  }

  function OutcomeAt(items: seq<(Snapshot, Env)>, k: nat): Outcome
    requires k < |items|
  {
    ScanOne(true, Before(items, k), items[k].0, items[k].1).0
  }

  /** Item `k` inserts a signal under `key`. */
  predicate InsertsUnder(items: seq<(Snapshot, Env)>, k: nat, key: string)
    requires k < |items|
  {
    OutcomeAt(items, k).Inserted? && CooldownKey(OutcomeAt(items, k).opportunity) == key
  }

  lemma BeforeNext(items: seq<(Snapshot, Env)>, k: nat)
    requires k < |items|
    ensures Before(items, k + 1) == ScanOne(true, Before(items, k), items[k].0, items[k].1).1
  {
    assert items[..k + 1][..k] == items[..k];
  }

  lemma KeyWritten(st: State, s: Snapshot, env: Env)
    requires ScanOne(true, st, s, env).0.Inserted? && env.cacheWrite && env.config.value.cooldownSeconds > 0
    ensures var key, st' := CooldownKey(ScanOne(true, st, s, env).0.opportunity), ScanOne(true, st, s, env).1;
            key in st'.expiries && st'.expiries[key] == env.now + env.config.value.cooldownSeconds * SECOND
  {
  }

  // ----- A due signal is inserted -----

  /** The snapshot of item `k` shows an opportunity under `key` to a working scan. */
  predicate Detects(items: seq<(Snapshot, Env)>, k: nat, key: string)
    requires k < |items|
  {
    var (s, env) := items[k];
    && env.config.Some? && env.config.value.isEnabled && env.insertOk
    && var o := DetectOpportunity(s, env.config.value, env.now); o.Some? && CooldownKey(o.value) == key
  }

  /** Item `k` inserts a signal under `key` and starts its cooldown. */
  predicate Marks(items: seq<(Snapshot, Env)>, k: nat, key: string)
    requires k < |items|
  {
    InsertsUnder(items, k, key) && items[k].1.cacheWrite && items[k].1.config.value.cooldownSeconds > 0
  }

  /** A key changes only where an item starts a cooldown under it. */
  lemma {:induction false} KeySame(items: seq<(Snapshot, Env)>, k: nat, n: nat, key: string)
    requires k <= n <= |items| && forall l :: k <= l < n ==> !Marks(items, l, key)
    ensures key in Before(items, n).expiries <==> key in Before(items, k).expiries
    ensures key in Before(items, k).expiries ==> Before(items, n).expiries[key] == Before(items, k).expiries[key]
  {
    if k == n {
    } else {
      KeySame(items, k, n - 1, key);
      assert !Marks(items, n - 1, key);
      BeforeNext(items, n - 1);
    }
  }

  /** Until a cooldown was started under its key, every detection is inserted. */
  lemma FirstSignalIsInserted(items: seq<(Snapshot, Env)>, j: nat, key: string)
    requires j < |items| && Detects(items, j, key) && forall l :: 0 <= l < j ==> !Marks(items, l, key)
    ensures InsertsUnder(items, j, key)
  {
    KeySame(items, 0, j, key);
    assert items[..0] == [];
  }

  /** When item `i` was the last to start a cooldown under its key, a later detection under that key is inserted if and
      only if the cooldown is over, or it is not consulted: because none is configured any more, or the read fails. */
  lemma SignalIff(items: seq<(Snapshot, Env)>, i: nat, j: nat, key: string)
    requires i < j < |items| && Marks(items, i, key) && forall l :: i < l < j ==> !Marks(items, l, key)
    requires Detects(items, j, key)
    ensures InsertsUnder(items, j, key) <==>
            || items[j].1.now >= items[i].1.now + items[i].1.config.value.cooldownSeconds * 1000000000
            || items[j].1.config.value.cooldownSeconds <= 0
            || !items[j].1.cacheRead
  {
    BeforeNext(items, i);
    KeyWritten(Before(items, i), items[i].0, items[i].1);
    KeySame(items, i + 1, j, key);
  }

  /** So two signals in a row under one key, with cooldowns configured, are at least the first one's cooldown apart as
      soon as the first one's cache write and the second one's cache read work, whatever the clock and the other calls
      do. */
  lemma NextSignalIsSpaced(items: seq<(Snapshot, Env)>, i: nat, j: nat, key: string)
    requires i < j < |items| && InsertsUnder(items, i, key) && InsertsUnder(items, j, key)
    requires forall l :: i < l < j ==> !InsertsUnder(items, l, key)
    requires items[i].1.cacheWrite && items[j].1.cacheRead
    requires items[i].1.config.value.cooldownSeconds > 0 && items[j].1.config.value.cooldownSeconds > 0
    ensures items[i].1.now + items[i].1.config.value.cooldownSeconds * 1000000000 <= items[j].1.now
  {
    SignalIff(items, i, j, key);
  }

  /** Without a cache every detection is inserted, and the insert's failure or a missing configuration is all that can
      stop a scan. */
  lemma CachelessOutcome(st: State, s: Snapshot, env: Env)
    ensures var (r, next) := ScanOne(false, st, s, env);
            var o := if env.config.Some? && env.config.value.isEnabled
                     then DetectOpportunity(s, env.config.value, env.now) else None;
            && (r.Aborted? <==> env.config.None? || (o.Some? && !env.insertOk))
            && (r.Inserted? <==> o.Some? && env.insertOk) && (r.Inserted? ==> r.opportunity == o.value)
            && next.expiries == st.expiries
            && (!r.Inserted? ==> next.signals == st.signals)
            && (r.Inserted? ==> next.signals == st.signals + [Signal(o.value, env.config.value.cooldownSeconds)])
  {
  }

  /** With a cache the only difference is that a running cooldown skips the detection, failing insert or not. */
  lemma CacheOnlySkips(st: State, s: Snapshot, env: Env)
    ensures var with, without := ScanOne(true, st, s, env), ScanOne(false, st, s, env);
            && (with.0 == without.0 || with == (Skipped, st))
            && (with.0.Aborted? ==> with.1 == st)
            && (with.0.Inserted? ==> with.1.signals == without.1.signals)
            && (env.config.Some? && env.config.value.cooldownSeconds <= 0 ==> with == without)
            && (!env.cacheRead ==> with.0 == without.0)
  {
  }

  /** A key stands for the coin, the buying and the selling exchange, up to spelling. */
  lemma CooldownKeyIff(o: Opportunity, p: Opportunity)
    requires ColonFree(NormalizeExchange(o.buyExchange)) && ColonFree(NormalizeExchange(o.sellExchange))
    requires ColonFree(NormalizeExchange(p.buyExchange)) && ColonFree(NormalizeExchange(p.sellExchange))
    ensures CooldownKey(o) == CooldownKey(p) <==>
            && Trim(o.coinID) == Trim(p.coinID)
            && Lower(Trim(o.buyExchange)) == Lower(Trim(p.buyExchange))
            && Lower(Trim(o.sellExchange)) == Lower(Trim(p.sellExchange))
  {
    if CooldownKey(o) == CooldownKey(p) {
      var a := "arb:cooldown:" + Trim(o.coinID) + ":" + NormalizeExchange(o.buyExchange);
      var b := "arb:cooldown:" + Trim(p.coinID) + ":" + NormalizeExchange(p.buyExchange);
      SplitAtLastColon(a, NormalizeExchange(o.sellExchange), b, NormalizeExchange(p.sellExchange));
      SplitAtLastColon("arb:cooldown:" + Trim(o.coinID), NormalizeExchange(o.buyExchange),
                       "arb:cooldown:" + Trim(p.coinID), NormalizeExchange(p.buyExchange));
      assert Trim(o.coinID) == ("arb:cooldown:" + Trim(o.coinID))[|"arb:cooldown:"|..];
    }
  }

  /** What a detected opportunity records besides its prices: the coin, the time, and the depth of the two quotes. */
  lemma DetectedRecords(quotes: Quotes, maxAge: int, now: int, s: Snapshot, cfg: Config, at: int, buy: Ticker,
                        sell: Ticker) returns (b: Entry, t: Entry)
    requires IsBook(quotes, maxAge, now, s) && DetectOpportunity(s, cfg, at).Some?
    requires IsFreshQuote(quotes, maxAge, now, buy) && buy.exchange == s.bestAskExchange
    requires IsFreshQuote(quotes, maxAge, now, sell) && sell.exchange == s.bestBidExchange
    ensures SameQuote(b, buy) && SameQuote(t, sell)
    ensures var o := DetectOpportunity(s, cfg, at).value;
            && o.coinID == s.coinID && o.detectedAt == at && o.isProfitable
            && o.buyDepthUSD == b.ask * b.volume && o.sellDepthUSD == t.bid * t.volume
  {
    b := FindsQuote(quotes, maxAge, now, s, buy);
    t := FindsQuote(quotes, maxAge, now, s, sell);
    DetectedFields(s, cfg, at, b, t);
  }

  lemma DetectedFields(s: Snapshot, cfg: Config, at: int, b: Entry, t: Entry)
    requires DetectOpportunity(s, cfg, at).Some?
    requires LastFresh(s.available, s.bestAskExchange) == Some(b)
    requires LastFresh(s.available, s.bestBidExchange) == Some(t)
    ensures var o := DetectOpportunity(s, cfg, at).value;
            && o.coinID == s.coinID && o.detectedAt == at && o.isProfitable
            && o.buyDepthUSD == b.ask * b.volume && o.sellDepthUSD == t.bid * t.volume
  {
  }
}
