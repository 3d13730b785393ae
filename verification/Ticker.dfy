/** The ticker aggregator (engine/market/ticker/aggregator.go): the newest ticker of every coin and
    exchange, and the snapshot computed from them in whatever order the map is iterated. */
module Ticker {
  import opened Text
  import opened Iteration

  /** Times count from Go's zero time. */
  const ZERO_TIME: int := 0

  datatype Ticker = Ticker(coinID: string, symbol: string, exchange: string, baseAsset: string, quoteAsset: string,
                           price: real, bid: real, ask: real, volume: real, timestamp: int)

  datatype Entry = Entry(exchange: string, symbol: string, price: real, bid: real, ask: real, volume: real,
                         timestamp: int,
                         spreadPct: real, isStale: bool, baseAsset: string, quoteAsset: string)

  datatype Snapshot = Snapshot(coinID: string, baseAsset: string, quoteAsset: string, lastUpdatedAt: int,
                               bestBid: real, bestBidExchange: string, bestAsk: real, bestAskExchange: string,
                               spreadPct: real, exchangeCount: nat, available: seq<Entry>)

  /** One coin's tickers by exchange, and all coins'. */
  type Quotes = map<string, Ticker>
  type Board = map<string, Quotes>

  predicate Valid(t: Ticker) {
    Trim(t.coinID) != "" && Trim(t.symbol) != "" && Trim(t.exchange) != "" && t.timestamp != ZERO_TIME
  }

  function CoinKey(t: Ticker): string {
    Trim(t.coinID)
  }

  function ExchangeKey(t: Ticker): string {
    NormalizeExchange(t.exchange)
  }

  function Lookup(latest: Board, coin: string, exchange: string): Option<Ticker> {
    if coin in latest && exchange in latest[coin] then Some(latest[coin][exchange]) else None
  }

  function QuotesOf(latest: Board, coin: string): Quotes {
    if coin in latest then latest[coin] else map[]
  }

  /** The board after one ticker: an older one than the one held is ignored, an invalid one refused. */
  function Updated(latest: Board, t: Ticker): Board {
    if !Valid(t) then latest
    else
      var quotes := QuotesOf(latest, CoinKey(t));
      if ExchangeKey(t) in quotes && quotes[ExchangeKey(t)].timestamp > t.timestamp then latest[CoinKey(t) := quotes]
      else latest[CoinKey(t) := quotes[ExchangeKey(t) := t]]
  }

  // ----- Snapshots -----

  function IntraSpreadPct(bid: real, ask: real): real {
    if bid <= 0.0 || ask <= 0.0 || ask < bid then 0.0 else (ask - bid) / bid * 100.0
  }

  /** What buying at `ask` and selling at `bid` gains, in percent. */
  function CrossSpreadPct(ask: real, bid: real): real
    requires ask != 0.0
  {
    (bid - ask) / ask * 100.0
  }

  predicate IsStale(t: Ticker, maxAge: int, now: int) {
    maxAge > 0 && t.timestamp < now - maxAge
  }

  function ToEntry(t: Ticker, maxAge: int, now: int): Entry {
    Entry(t.exchange, t.symbol, t.price, t.bid, t.ask, t.volume, t.timestamp, IntraSpreadPct(t.bid, t.ask),
          IsStale(t, maxAge, now), t.baseAsset, t.quoteAsset)
  }

  ghost predicate Sorted(es: seq<Entry>) {
    forall i, j :: 0 <= i < j < |es| ==> Precedes(es[i].exchange, es[j].exchange)
  }

  function Insert(e: Entry, es: seq<Entry>): seq<Entry> {
    if es == [] || Precedes(e.exchange, es[0].exchange) then [e] + es else [es[0]] + Insert(e, es[1..])
  }

  function SortByExchange(es: seq<Entry>): seq<Entry> {
    if es == [] then [] else Insert(es[|es| - 1], SortByExchange(es[..|es| - 1]))
  }

  /** `value` is the greatest positive fresh bid, quoted by the exchange `name`; zero and nameless when there
      is none. */
  ghost predicate IsBestBid(all: set<Ticker>, maxAge: int, now: int, value: real, name: string) {
    && (forall t :: t in all && !IsStale(t, maxAge, now) ==> t.bid <= value)
    && (if value == 0.0 then name == ""
        else value > 0.0 && exists t :: t in all && !IsStale(t, maxAge, now) && t.bid == value && t.exchange == name)
  }

  /** The same for the least positive fresh ask. */
  ghost predicate IsBestAsk(all: set<Ticker>, maxAge: int, now: int, value: real, name: string) {
    && (forall t :: t in all && !IsStale(t, maxAge, now) && t.ask > 0.0 ==> 0.0 < value <= t.ask)
    && (if value == 0.0 then name == ""
        else value > 0.0 && exists t :: t in all && !IsStale(t, maxAge, now) && t.ask == value && t.exchange == name)
  }

  ghost predicate IsLastUpdate(all: set<Ticker>, value: int) {
    && (forall t :: t in all ==> t.timestamp <= value)
    && ZERO_TIME <= value && (value == ZERO_TIME || exists t :: t in all && t.timestamp == value)
  }

  /** `es` has an entry for each ticker, and no other. */
  ghost predicate Lists(all: set<Ticker>, maxAge: int, now: int, es: seq<Entry>) {
    && (forall t :: t in all ==> ToEntry(t, maxAge, now) in es)
    && (forall e :: e in es ==> exists t :: t in all && e == ToEntry(t, maxAge, now))
  }

  /** The best quotes, the last update and the sorted list of a snapshot. */
  ghost predicate IsBook(quotes: Quotes, maxAge: int, now: int, s: Snapshot) {
    && IsBestBid(quotes.Values, maxAge, now, s.bestBid, s.bestBidExchange)
    && IsBestAsk(quotes.Values, maxAge, now, s.bestAsk, s.bestAskExchange)
    && IsLastUpdate(quotes.Values, s.lastUpdatedAt)
    && Lists(quotes.Values, maxAge, now, s.available)
    && Sorted(s.available)
    && s.exchangeCount == |s.available| == |quotes|
  }

  function BaseOf(): Ticker -> string {
    (t: Ticker) => t.baseAsset
  }

  function QuoteOf(): Ticker -> string {
    (t: Ticker) => t.quoteAsset
  }

  /** `value` is the asset of some ticker, blank only when it is blank in all. */
  ghost predicate IsAsset(all: set<Ticker>, asset: Ticker -> string, value: string) {
    if value == "" then forall t :: t in all ==> asset(t) == "" else exists t :: t in all && asset(t) == value
  }

  ghost predicate HasAssets(all: set<Ticker>, s: Snapshot) {
    IsAsset(all, BaseOf(), s.baseAsset) && IsAsset(all, QuoteOf(), s.quoteAsset)
  }

  /** Everything a snapshot says, whatever the iteration order was. */
  ghost predicate IsSnapshot(quotes: Quotes, maxAge: int, now: int, s: Snapshot) {
    && IsBook(quotes, maxAge, now, s)
    && HasAssets(quotes.Values, s)
    && s.spreadPct == (if s.bestBid > 0.0 && s.bestAsk > 0.0 && s.bestBidExchange != "" && s.bestAskExchange != ""
                       then CrossSpreadPct(s.bestAsk, s.bestBid) else 0.0)
  }

  /** Tickers are filed under their own normalised exchange name, which is not blank. */
  ghost predicate WellKeyed(quotes: Quotes) {
    forall k :: k in quotes ==> k == ExchangeKey(quotes[k]) && quotes[k].exchange != ""
  }

  ghost predicate BoardOk(latest: Board) {
    forall c :: c in latest ==> WellKeyed(latest[c])
  }

  /** The snapshot under construction after visiting one ticker. */
  function Visit(s: Snapshot, t: Ticker, maxAge: int, now: int): Snapshot {
    var dated := s.(baseAsset := if s.baseAsset == "" then t.baseAsset else s.baseAsset,
                    quoteAsset := if s.quoteAsset == "" then t.quoteAsset else s.quoteAsset,
                    lastUpdatedAt := if t.timestamp > s.lastUpdatedAt then t.timestamp else s.lastUpdatedAt);
    var listed := dated.(available := s.available + [ToEntry(t, maxAge, now)]);
    if IsStale(t, maxAge, now) then listed
    else
      var bidden := if t.bid > s.bestBid then listed.(bestBid := t.bid, bestBidExchange := t.exchange) else listed;
      if t.ask > 0.0 && (s.bestAsk == 0.0 || t.ask < s.bestAsk)
      then bidden.(bestAsk := t.ask, bestAskExchange := t.exchange)
      else bidden
  }

  /** The snapshot under construction after visiting the tickers `ts` in turn. */
  function Scan(coin: string, ts: seq<Ticker>, maxAge: int, now: int): Snapshot {
    if ts == [] then Snapshot(coin, "", "", ZERO_TIME, 0.0, "", 0.0, "", 0.0, 0, [])
    else Visit(Scan(coin, ts[..|ts| - 1], maxAge, now), ts[|ts| - 1], maxAge, now)
  }

  /** The snapshot once all tickers have been visited: the entries sorted and counted, the spread filled in. */
  function Finished(s: Snapshot): Snapshot {
    var available := SortByExchange(s.available);
    s.(available := available, exchangeCount := |available|,
       spreadPct := if s.bestBid > 0.0 && s.bestAsk > 0.0 && s.bestBidExchange != "" && s.bestAskExchange != ""
                    then CrossSpreadPct(s.bestAsk, s.bestBid) else 0.0)
  }

  class Aggregator {
    var latest: Board
    const maxAge: int

    constructor (maxAge: int)
      ensures latest == map[] && this.maxAge == maxAge
    {
      latest := map[];
      this.maxAge := maxAge;
    }

    /** Files a valid ticker unless a newer one is held. */
    method Store(t: Ticker)
      requires Valid(t)
      modifies this
      ensures latest == Updated(old(latest), t)
    {
      var coin, exchange := CoinKey(t), ExchangeKey(t);
      if coin !in latest {
        latest := latest[coin := map[]];
      }
      if exchange in latest[coin] && latest[coin][exchange].timestamp > t.timestamp {
        return;
      }
      latest := latest[coin := latest[coin][exchange := t]];
    }

    method Update(t: Ticker, now: int) returns (r: Option<Snapshot>)
      requires BoardOk(latest)
      modifies this
      ensures latest == Updated(old(latest), t) && BoardOk(latest)
      ensures r.Some? <==> Valid(t)
      ensures r.Some? ==> r.value.coinID == CoinKey(t) && IsSnapshot(QuotesOf(latest, CoinKey(t)), maxAge, now, r.value)
    {
      if !Valid(t) {
        return None;
      }
      UpdatedWellKeyed(latest, t);
      Store(t);
      var s := SnapshotLocked(CoinKey(t), now);
      r := Some(s);
    }

    /** Computes the snapshot of a coin, visiting its tickers in whatever order the map yields them. */
    method SnapshotLocked(coin: string, now: int) returns (s: Snapshot)
      requires WellKeyed(QuotesOf(latest, coin))
      ensures s.coinID == coin && IsSnapshot(QuotesOf(latest, coin), maxAge, now, s)
    {
      var quotes := QuotesOf(latest, coin);
      var order := IterationOrder(quotes.Keys);
      s := Snapshot(coin, "", "", ZERO_TIME, 0.0, "", 0.0, "", 0.0, 0, []);
      var ts := InOrder(quotes, order);
      for i := 0 to |ts|
        invariant s == Scan(coin, ts[..i], maxAge, now)
      {
        assert ts[..i + 1][..i] == ts[..i];
        s := VisitTicker(s, ts[i], now);
      }
      assert ts[..|ts|] == ts;
      ScanGivesSnapshot(quotes, coin, order, maxAge, now);
      s := Finish(s);
    }

    /** Sorts and counts the entries and fills in the spread. */
    method Finish(before: Snapshot) returns (s: Snapshot)
      requires before.spreadPct == 0.0
      ensures s == Finished(before)
    {
      s := before.(available := SortByExchange(before.available));
      s := s.(exchangeCount := |s.available|);
      if s.bestBid > 0.0 && s.bestAsk > 0.0 && s.bestBidExchange != "" && s.bestAskExchange != "" {
        s := s.(spreadPct := CrossSpreadPct(s.bestAsk, s.bestBid));
      }
    }

    /** The body of the snapshot loop. */
    method VisitTicker(before: Snapshot, t: Ticker, now: int) returns (s: Snapshot)
      ensures s == Visit(before, t, maxAge, now)
    {
      s := before;
      var isStale := maxAge > 0 && t.timestamp < now - maxAge;
      if s.baseAsset == "" {
        s := s.(baseAsset := t.baseAsset);
      }
      if s.quoteAsset == "" {
        s := s.(quoteAsset := t.quoteAsset);
      }
      if t.timestamp > s.lastUpdatedAt {
        s := s.(lastUpdatedAt := t.timestamp);
      }
      s := s.(available := s.available + [ToEntry(t, maxAge, now)]);
      if isStale {
        return;
      }
      if t.bid > s.bestBid {
        s := s.(bestBid := t.bid, bestBidExchange := t.exchange);
      }
      if t.ask > 0.0 && (s.bestAsk == 0.0 || t.ask < s.bestAsk) {
        s := s.(bestAsk := t.ask, bestAskExchange := t.exchange);
      }
    }

    method Current(coin: string, now: int) returns (r: Option<Snapshot>)
      requires BoardOk(latest)
      ensures r.Some? <==> Trim(coin) in latest
      ensures r.Some? ==> r.value.coinID == Trim(coin) && IsSnapshot(latest[Trim(coin)], maxAge, now, r.value)
    {
      if Trim(coin) !in latest {
        return None;
      }
      var s := SnapshotLocked(Trim(coin), now);
      r := Some(s);
    }
  }

  // ----- One ticker more -----

  lemma UpdatedWellKeyed(latest: Board, t: Ticker)
    requires BoardOk(latest)
    ensures BoardOk(Updated(latest, t))
  {
    if Valid(t) {
      assert t.exchange != "";
      forall c | c in Updated(latest, t)
        ensures WellKeyed(Updated(latest, t)[c])
      {
        assert WellKeyed(QuotesOf(latest, c));
      }
    }
  }

  ghost function Elements(ts: seq<Ticker>): set<Ticker> {
    set t | t in ts
  }

  function Entries(ts: seq<Ticker>, maxAge: int, now: int): (es: seq<Entry>)
    ensures |es| == |ts| && forall i :: 0 <= i < |ts| ==> es[i] == ToEntry(ts[i], maxAge, now)
  {
    seq(|ts|, i requires 0 <= i < |ts| => ToEntry(ts[i], maxAge, now))
  }

  lemma BestBidOneMore(all: set<Ticker>, maxAge: int, now: int, value: real, name: string, t: Ticker)
    requires IsBestBid(all, maxAge, now, value, name)
    ensures var takes := !IsStale(t, maxAge, now) && t.bid > value;
            IsBestBid(all + {t}, maxAge, now, if takes then t.bid else value, if takes then t.exchange else name)
  {
  }

  lemma BestAskOneMore(all: set<Ticker>, maxAge: int, now: int, value: real, name: string, t: Ticker)
    requires IsBestAsk(all, maxAge, now, value, name)
    ensures var takes := !IsStale(t, maxAge, now) && t.ask > 0.0 && (value == 0.0 || t.ask < value);
            IsBestAsk(all + {t}, maxAge, now, if takes then t.ask else value, if takes then t.exchange else name)
  {
  }

  lemma LastUpdateOneMore(all: set<Ticker>, value: int, t: Ticker)
    requires IsLastUpdate(all, value)
    ensures IsLastUpdate(all + {t}, if t.timestamp > value then t.timestamp else value)
  {
  }

  /** What the scan `s` has found after visiting the tickers `all`. */
  ghost predicate HasFound(all: set<Ticker>, maxAge: int, now: int, s: Snapshot) {
    && IsBestBid(all, maxAge, now, s.bestBid, s.bestBidExchange)
    && IsBestAsk(all, maxAge, now, s.bestAsk, s.bestAskExchange)
    && IsLastUpdate(all, s.lastUpdatedAt)
  }

  lemma VisitFinds(all: set<Ticker>, maxAge: int, now: int, s: Snapshot, t: Ticker)
    requires HasFound(all, maxAge, now, s)
    ensures HasFound(all + {t}, maxAge, now, Visit(s, t, maxAge, now))
  {
    BestBidOneMore(all, maxAge, now, s.bestBid, s.bestBidExchange, t);
    BestAskOneMore(all, maxAge, now, s.bestAsk, s.bestAskExchange, t);
    LastUpdateOneMore(all, s.lastUpdatedAt, t);
  }

  lemma {:induction false} ScanFinds(coin: string, ts: seq<Ticker>, maxAge: int, now: int)
    ensures HasFound(Elements(ts), maxAge, now, Scan(coin, ts, maxAge, now))
  {
    if ts == [] {
    } else {
      var t, rest := ts[|ts| - 1], ts[..|ts| - 1];
      ScanFinds(coin, rest, maxAge, now);
      VisitFinds(Elements(rest), maxAge, now, Scan(coin, rest, maxAge, now), t);
      ElementsOneMore(ts);
    }
  }

  lemma AssetOneMore(all: set<Ticker>, asset: Ticker -> string, value: string, t: Ticker)
    requires IsAsset(all, asset, value)
    ensures IsAsset(all + {t}, asset, if value == "" then asset(t) else value)
  {
    if value == "" {
      assert t in all + {t};
    } else {
      var u :| u in all && asset(u) == value;
      assert u in all + {t};
    }
  }

  lemma VisitAssets(all: set<Ticker>, maxAge: int, now: int, s: Snapshot, t: Ticker)
    requires HasAssets(all, s)
    ensures HasAssets(all + {t}, Visit(s, t, maxAge, now))
  {
    AssetOneMore(all, BaseOf(), s.baseAsset, t);
    AssetOneMore(all, QuoteOf(), s.quoteAsset, t);
  }

  lemma ElementsOneMore(ts: seq<Ticker>)
    requires ts != []
    ensures Elements(ts) == Elements(ts[..|ts| - 1]) + {ts[|ts| - 1]}
  {
    assert ts == ts[..|ts| - 1] + [ts[|ts| - 1]];
  }

  lemma {:induction false} ScanAssets(coin: string, ts: seq<Ticker>, maxAge: int, now: int)
    ensures HasAssets(Elements(ts), Scan(coin, ts, maxAge, now))
  {
    if ts == [] {
    } else {
      var t, rest := ts[|ts| - 1], ts[..|ts| - 1];
      ScanAssets(coin, rest, maxAge, now);
      VisitAssets(Elements(rest), maxAge, now, Scan(coin, rest, maxAge, now), t);
      ElementsOneMore(ts);
    }
  }

  lemma VisitLists(s: Snapshot, t: Ticker, maxAge: int, now: int)
    ensures Visit(s, t, maxAge, now).available == s.available + [ToEntry(t, maxAge, now)]
  {
  }

  lemma {:induction false} ScanLists(coin: string, ts: seq<Ticker>, maxAge: int, now: int)
    ensures Scan(coin, ts, maxAge, now).available == Entries(ts, maxAge, now)
  {
    if ts == [] {
    } else {
      var n := |ts| - 1;
      ScanLists(coin, ts[..n], maxAge, now);
      VisitLists(Scan(coin, ts[..n], maxAge, now), ts[n], maxAge, now);
      EntriesOneMore(ts[..n], ts[n], maxAge, now);
      assert ts[..n] + [ts[n]] == ts;
    }
  }

  lemma EntriesOneMore(ts: seq<Ticker>, t: Ticker, maxAge: int, now: int)
    ensures Entries(ts + [t], maxAge, now) == Entries(ts, maxAge, now) + [ToEntry(t, maxAge, now)]
  {
  }

  lemma {:induction false} ScanKeepsCoin(coin: string, ts: seq<Ticker>, maxAge: int, now: int)
    ensures Scan(coin, ts, maxAge, now).coinID == coin && Scan(coin, ts, maxAge, now).spreadPct == 0.0
  {
    if ts == [] {
    } else {
      ScanKeepsCoin(coin, ts[..|ts| - 1], maxAge, now);
    }
  }

  lemma {:induction false} InsertKeepsElements(e: Entry, es: seq<Entry>)
    ensures |Insert(e, es)| == |es| + 1
    ensures forall f :: f in Insert(e, es) <==> f == e || f in es
  {
    if es != [] && !Precedes(e.exchange, es[0].exchange) {
      InsertKeepsElements(e, es[1..]);
    }
  }

  lemma {:induction false} SortKeepsElements(es: seq<Entry>)
    ensures |SortByExchange(es)| == |es|
    ensures forall f :: f in SortByExchange(es) <==> f in es
  {
    if es == [] {
    } else {
      SortKeepsElements(es[..|es| - 1]);
      InsertKeepsElements(es[|es| - 1], SortByExchange(es[..|es| - 1]));
    }
  }

  lemma {:induction false} InsertSorts(e: Entry, es: seq<Entry>)
    requires Sorted(es) && forall f :: f in es ==> f.exchange != e.exchange
    ensures Sorted(Insert(e, es))
  {
    if es == [] {
    } else {
      if Precedes(e.exchange, es[0].exchange) {
        forall f | f in es
          ensures Precedes(e.exchange, f.exchange)
        {
          if f != es[0] {
            PrecedesTransitive(e.exchange, es[0].exchange, f.exchange);
          }
        }
      } else {
        PrecedesTotal(e.exchange, es[0].exchange);
        InsertSorts(e, es[1..]);
        InsertKeepsElements(e, es[1..]);
        var rest := Insert(e, es[1..]);
        assert forall i :: 0 <= i < |rest| ==> rest[i] in rest;
        assert forall f :: f in rest ==> Precedes(es[0].exchange, f.exchange);
      }
    }
  }

  lemma {:induction false} SortSorts(es: seq<Entry>)
    requires forall i, j :: 0 <= i < j < |es| ==> es[i].exchange != es[j].exchange
    ensures Sorted(SortByExchange(es))
  {
    if es == [] {
    } else {
      var n := |es| - 1;
      SortSorts(es[..n]);
      SortKeepsElements(es[..n]);
      InsertSorts(es[n], SortByExchange(es[..n]));
    }
  }

  lemma OrderedTickers(quotes: Quotes, order: seq<string>)
    requires IsOrder(order, quotes.Keys)
    ensures Elements(InOrder(quotes, order)) == quotes.Values
  {
    forall t
      ensures t in InOrder(quotes, order) <==> t in quotes.Values
    {
      if t in quotes.Values {
        var k :| k in quotes && quotes[k] == t;
        var i :| 0 <= i < |order| && order[i] == k;
        assert InOrder(quotes, order)[i] == t;
      }
      if t in InOrder(quotes, order) {
        var i :| 0 <= i < |order| && InOrder(quotes, order)[i] == t;
        assert order[i] in quotes;
      }
    }
  }

  lemma OrderedNames(quotes: Quotes, order: seq<string>, maxAge: int, now: int)
    requires WellKeyed(quotes) && IsOrder(order, quotes.Keys)
    ensures Sorted(SortByExchange(Entries(InOrder(quotes, order), maxAge, now)))
  {
    var es := Entries(InOrder(quotes, order), maxAge, now);
    forall i, j | 0 <= i < j < |es|
      ensures es[i].exchange != es[j].exchange
    {
      assert order[i] != order[j];
    }
    SortSorts(es);
  }

  lemma EntriesList(ts: seq<Ticker>, maxAge: int, now: int)
    ensures Lists(Elements(ts), maxAge, now, SortByExchange(Entries(ts, maxAge, now)))
  {
    var es := Entries(ts, maxAge, now);
    SortKeepsElements(es);
    forall t | t in Elements(ts)
      ensures ToEntry(t, maxAge, now) in es
    {
      var i :| 0 <= i < |ts| && ts[i] == t;
      assert es[i] == ToEntry(t, maxAge, now);
    }
    forall e | e in es
      ensures exists t :: t in Elements(ts) && e == ToEntry(t, maxAge, now)
    {
      var i :| 0 <= i < |es| && es[i] == e;
      assert ts[i] in Elements(ts);
    }
  }

  /** Whatever the iteration order, scanning and sorting gives a snapshot of the tickers. */
  lemma ScanGivesSnapshot(quotes: Quotes, coin: string, order: seq<string>, maxAge: int, now: int)
    requires WellKeyed(quotes) && IsOrder(order, quotes.Keys)
    ensures IsSnapshot(quotes, maxAge, now, Finished(Scan(coin, InOrder(quotes, order), maxAge, now)))
    ensures Scan(coin, InOrder(quotes, order), maxAge, now).coinID == coin
    ensures Scan(coin, InOrder(quotes, order), maxAge, now).spreadPct == 0.0
  {
    var ts := InOrder(quotes, order);
    ScanFinds(coin, ts, maxAge, now);
    ScanAssets(coin, ts, maxAge, now);
    ScanLists(coin, ts, maxAge, now);
    ScanKeepsCoin(coin, ts, maxAge, now);
    OrderedTickers(quotes, order);
    OrderedNames(quotes, order, maxAge, now);
    EntriesList(ts, maxAge, now);
    SortKeepsElements(Entries(ts, maxAge, now));
  }

  // ----- The snapshot does not depend on the iteration order -----

  lemma {:induction false} SortedListsAgree(a: seq<Entry>, b: seq<Entry>)
    requires |a| == |b| && Sorted(a) && Sorted(b) && forall e :: e in a <==> e in b
    ensures a == b
  {
    if a == [] {
    } else {
      assert a[0] in b;
      assert b[0] in a;
      SortedHead(a, b[0]);
      SortedHead(b, a[0]);
      PrecedesTotal(a[0].exchange, b[0].exchange);
      forall e
        ensures e in a[1..] <==> e in b[1..]
      {
        SortedTail(a, e);
        SortedTail(b, e);
      }
      SortedListsAgree(a[1..], b[1..]);
    }
  }

  lemma SortedHead(es: seq<Entry>, e: Entry)
    requires Sorted(es) && e in es
    ensures e == es[0] || Precedes(es[0].exchange, e.exchange)
  {
  }

  lemma SortedTail(es: seq<Entry>, e: Entry)
    requires Sorted(es) && es != []
    ensures e in es[1..] <==> e in es && e != es[0]
  {
    PrecedesTotal(es[0].exchange, es[0].exchange);
  }

  /** Two snapshots of the same tickers agree on the best bid and ask, the spread, the time of the last
      update, the count and the sorted list. */
  lemma SnapshotsAgree(quotes: Quotes, maxAge: int, now: int, a: Snapshot, b: Snapshot)
    requires IsSnapshot(quotes, maxAge, now, a) && IsSnapshot(quotes, maxAge, now, b)
    ensures a.bestBid == b.bestBid && a.bestAsk == b.bestAsk && a.lastUpdatedAt == b.lastUpdatedAt
    ensures a.available == b.available && a.exchangeCount == b.exchangeCount
    ensures WellKeyed(quotes) ==> a.spreadPct == b.spreadPct
  {
    forall e
      ensures e in a.available <==> e in b.available
    {
    }
    SortedListsAgree(a.available, b.available);
  }

  /** The names of the best exchanges agree too when no two exchanges quote the same best value. */
  lemma NamesAgreeWithoutTies(quotes: Quotes, maxAge: int, now: int, a: Snapshot, b: Snapshot)
    requires IsSnapshot(quotes, maxAge, now, a) && IsSnapshot(quotes, maxAge, now, b)
    requires forall t, u :: t in quotes.Values && u in quotes.Values && t.exchange != u.exchange ==>
                              (t.bid == u.bid ==> t.bid <= 0.0) && (t.ask == u.ask ==> t.ask <= 0.0)
    ensures a.bestBidExchange == b.bestBidExchange && a.bestAskExchange == b.bestAskExchange
  {
    SnapshotsAgree(quotes, maxAge, now, a, b);
  }

  // ----- The board after any sequence of tickers -----

  function Feed(latest: Board, ts: seq<Ticker>): Board {
    if ts == [] then latest else Updated(Feed(latest, ts[..|ts| - 1]), ts[|ts| - 1])
  }

  predicate Files(t: Ticker, coin: string, exchange: string) {
    Valid(t) && CoinKey(t) == coin && ExchangeKey(t) == exchange
  }

  /** The test for the tickers filed under one coin and exchange. */
  function FiledUnder(coin: string, exchange: string): Ticker -> bool {
    t => Files(t, coin, exchange)
  }

  /** `k` is the last-arrived of the newest tickers that pass the test `filed`. */
  ghost predicate Wins(ts: seq<Ticker>, k: nat, filed: Ticker -> bool) {
    && k < |ts| && filed(ts[k])
    && forall j :: 0 <= j < |ts| && filed(ts[j]) ==>
                     ts[j].timestamp < ts[k].timestamp || (ts[j].timestamp == ts[k].timestamp && j <= k)
  }

  /** `found` is the winner among the tickers `ts` that pass the test, if any does. */
  ghost predicate HeldAfter(ts: seq<Ticker>, filed: Ticker -> bool, found: Option<Ticker>) {
    match found
    case None => forall j :: 0 <= j < |ts| ==> !filed(ts[j])
    case Some(t) => exists k: nat :: Wins(ts, k, filed) && ts[k] == t
  }

  lemma LookupAfterUpdate(latest: Board, t: Ticker, coin: string, exchange: string)
    ensures var before := Lookup(latest, coin, exchange);
            Lookup(Updated(latest, t), coin, exchange)
            == if FiledUnder(coin, exchange)(t) && (before.None? || before.value.timestamp <= t.timestamp)
               then Some(t) else before
  {
  }

  lemma HeldAfterOneMore(ts: seq<Ticker>, filed: Ticker -> bool, before: Option<Ticker>)
    requires ts != [] && HeldAfter(ts[..|ts| - 1], filed, before)
    ensures var t := ts[|ts| - 1];
            HeldAfter(ts, filed,
                      if filed(t) && (before.None? || before.value.timestamp <= t.timestamp) then Some(t) else before)
  {
    var n := |ts| - 1;
    var takes := filed(ts[n]) && (before.None? || before.value.timestamp <= ts[n].timestamp);
    assert forall j :: 0 <= j < n ==> ts[..n][j] == ts[j];
    if before.Some? {
      var k: nat :| Wins(ts[..n], k, filed) && ts[..n][k] == before.value;
      assert Wins(ts, if takes then n else k, filed);
    } else if takes {
      assert Wins(ts, n, filed);
    }
  }

  /** The board holds exactly the last-arrived of the newest tickers of each coin and exchange. */
  lemma {:induction false} HoldsLastOfNewest(ts: seq<Ticker>, coin: string, exchange: string)
    ensures HeldAfter(ts, FiledUnder(coin, exchange), Lookup(Feed(map[], ts), coin, exchange))
  {
    if ts == [] {
    } else {
      var n := |ts| - 1;
      HoldsLastOfNewest(ts[..n], coin, exchange);
      LookupAfterUpdate(Feed(map[], ts[..n]), ts[n], coin, exchange);
      HeldAfterOneMore(ts, FiledUnder(coin, exchange), Lookup(Feed(map[], ts[..n]), coin, exchange));
    }
  }

  /** No two tickers that pass the test carry the same time. */
  ghost predicate DistinctTimes(ts: seq<Ticker>, filed: Ticker -> bool) {
    forall i, j :: 0 <= i < j < |ts| && filed(ts[i]) && filed(ts[j]) ==> ts[i].timestamp != ts[j].timestamp
  }

  lemma HeldIffFiled(ts: seq<Ticker>, filed: Ticker -> bool, found: Option<Ticker>)
    requires HeldAfter(ts, filed, found)
    ensures found.Some? <==> exists t :: t in ts && filed(t)
  {
  }

  /** Of two winners among the same tickers, neither is newer. */
  lemma WinnersAgree(a: seq<Ticker>, i: nat, b: seq<Ticker>, k: nat, filed: Ticker -> bool)
    requires (forall t :: t in a <==> t in b) && DistinctTimes(a, filed)
    requires Wins(a, i, filed) && Wins(b, k, filed)
    ensures a[i] == b[k]
  {
    assert a[i] in b && b[k] in a;
    var m: nat :| m < |a| && a[m] == b[k];
    assert a[m].timestamp == a[i].timestamp;
  }

  /** With distinct times, what the board holds does not depend on the order of arrival. */
  lemma ArrivalOrderIrrelevant(a: seq<Ticker>, b: seq<Ticker>, coin: string, exchange: string)
    requires multiset(a) == multiset(b) && DistinctTimes(a, FiledUnder(coin, exchange))
    ensures Lookup(Feed(map[], a), coin, exchange) == Lookup(Feed(map[], b), coin, exchange)
  {
    var filed := FiledUnder(coin, exchange);
    var x, y := Lookup(Feed(map[], a), coin, exchange), Lookup(Feed(map[], b), coin, exchange);
    HoldsLastOfNewest(a, coin, exchange);
    HoldsLastOfNewest(b, coin, exchange);
    forall t
      ensures t in a <==> t in b
    {
      assert t in multiset(a) <==> t in a;
      assert t in multiset(b) <==> t in b;
    }
    HeldIffFiled(a, filed, x);
    HeldIffFiled(b, filed, y);
    if x.Some? {
      var i: nat :| Wins(a, i, filed) && a[i] == x.value;
      var k: nat :| Wins(b, k, filed) && b[k] == y.value;
      WinnersAgree(a, i, b, k, filed);
    }
  }

  // ----- What is accepted, and what a snapshot shows -----

  /** A ticker is filed under its trimmed coin and its exchange in lower case, exactly when coin, symbol, exchange and
      time are given and no newer one is held there; nothing else changes. */
  lemma UpdateFiles(latest: Board, t: Ticker, coin: string, exchange: string)
    ensures var here := coin == Trim(t.coinID) && exchange == Lower(Trim(t.exchange));
            var accepted := Trim(t.coinID) != "" && Trim(t.symbol) != "" && Trim(t.exchange) != "" && t.timestamp != 0;
            var held := Lookup(latest, coin, exchange);
            Lookup(Updated(latest, t), coin, exchange)
            == if here && accepted && (held.None? || held.value.timestamp <= t.timestamp) then Some(t) else held
  {
  }

  /** The ticker is older than the limit, if there is one. */
  predicate IsOld(t: Ticker, maxAge: int, now: int) {
    maxAge > 0 && now - t.timestamp > maxAge
  }

  /** The entry shows the ticker's fields, its own spread and whether it is old. */
  predicate Shows(e: Entry, t: Ticker, maxAge: int, now: int) {
    && e.exchange == t.exchange && e.symbol == t.symbol && e.price == t.price && e.bid == t.bid && e.ask == t.ask
    && e.volume == t.volume && e.timestamp == t.timestamp && e.baseAsset == t.baseAsset && e.quoteAsset == t.quoteAsset
    && (e.isStale <==> IsOld(t, maxAge, now))
    && (if t.bid > 0.0 && t.ask >= t.bid then e.spreadPct * t.bid == (t.ask - t.bid) * 100.0 else e.spreadPct == 0.0)
  }

  lemma EntryShows(t: Ticker, maxAge: int, now: int)
    ensures Shows(ToEntry(t, maxAge, now), t, maxAge, now)
  {
    if t.bid > 0.0 && t.ask >= t.bid {
      SpreadTimes(t.ask - t.bid, t.bid);
    }
  }

  lemma SpreadTimes(gain: real, base: real)
    requires base != 0.0
    ensures gain / base * 100.0 * base == gain * 100.0
  {
    var q := gain / base;
    assert q * base == gain;
  }

  /** A snapshot lists every ticker of the coin … */
  lemma TickerIsShown(quotes: Quotes, maxAge: int, now: int, s: Snapshot, t: Ticker) returns (e: Entry)
    requires IsBook(quotes, maxAge, now, s) && t in quotes.Values
    ensures e in s.available && Shows(e, t, maxAge, now)
  {
    e := ToEntry(t, maxAge, now);
    EntryShows(t, maxAge, now);
  }

  /** … and nothing else. */
  lemma ShownIsTicker(quotes: Quotes, maxAge: int, now: int, s: Snapshot, e: Entry) returns (t: Ticker)
    requires IsBook(quotes, maxAge, now, s) && e in s.available
    ensures t in quotes.Values && Shows(e, t, maxAge, now)
  {
    t :| t in quotes.Values && e == ToEntry(t, maxAge, now);
    EntryShows(t, maxAge, now);
  }

  /** The best bid is the greatest bid of the tickers that are not old, and its exchange quotes it; without a positive
      one it is zero and nameless. The same for the least positive ask. */
  lemma SnapshotShowsBest(quotes: Quotes, maxAge: int, now: int, s: Snapshot)
    requires IsBook(quotes, maxAge, now, s)
    ensures forall t :: t in quotes.Values && !IsOld(t, maxAge, now) ==>
                          t.bid <= s.bestBid && (t.ask > 0.0 ==> 0.0 < s.bestAsk <= t.ask)
    ensures if s.bestBid == 0.0 then s.bestBidExchange == ""
            else s.bestBid > 0.0 && exists t :: t in quotes.Values && !IsOld(t, maxAge, now) && t.bid == s.bestBid
                                                && t.exchange == s.bestBidExchange
    ensures if s.bestAsk == 0.0 then s.bestAskExchange == ""
            else s.bestAsk > 0.0 && exists t :: t in quotes.Values && !IsOld(t, maxAge, now) && t.ask == s.bestAsk
                                                && t.exchange == s.bestAskExchange
  {
    assert forall t: Ticker :: IsOld(t, maxAge, now) <==> IsStale(t, maxAge, now);
  }

  /** The spread is the gain of buying at the best ask and selling at the best bid, in percent of the ask. */
  predicate IsCrossSpread(s: Snapshot) {
    if s.bestBid > 0.0 && s.bestAsk > 0.0 && s.bestBidExchange != "" && s.bestAskExchange != ""
    then s.spreadPct * s.bestAsk == (s.bestBid - s.bestAsk) * 100.0 else s.spreadPct == 0.0
  }

  lemma SpreadFilledIn(s: Snapshot)
    requires s.spreadPct == (if s.bestBid > 0.0 && s.bestAsk > 0.0 && s.bestBidExchange != "" && s.bestAskExchange != ""
                             then CrossSpreadPct(s.bestAsk, s.bestBid) else 0.0)
    ensures IsCrossSpread(s)
  {
    if s.bestAsk > 0.0 {
      SpreadTimes(s.bestBid - s.bestAsk, s.bestAsk);
    }
  }

  lemma SnapshotSpread(quotes: Quotes, maxAge: int, now: int, s: Snapshot)
    requires IsSnapshot(quotes, maxAge, now, s)
    ensures IsCrossSpread(s)
  {
    SpreadFilledIn(s);
  }
}
