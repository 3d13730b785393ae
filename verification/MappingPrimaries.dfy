/** What symbol mapping syncs leave behind: the active primary rows after one sync and over whole runs
    (engine/market/mapping, engine/market/mapping_sync.go). */
module MappingPrimaries {
  import opened Text
  import opened Iteration
  import opened MappingSync

  // ----- Markets and their candidates -----

  /** Every candidate comes from a market. */
  lemma {:induction false} CandidateHasMarket(coinBySymbol: map<string, string>, ms: seq<Market>, i: nat)
    returns (j: nat)
    requires i < |CandidatesOf(coinBySymbol, ms)|
    ensures j < |ms| && CandidateOf(coinBySymbol, ms[j]) == Some(CandidatesOf(coinBySymbol, ms)[i])
  {
    var before := CandidatesOf(coinBySymbol, ms[..|ms| - 1]);
    if i < |before| {
      j := CandidateHasMarket(coinBySymbol, ms[..|ms| - 1], i);
    } else {
      j := |ms| - 1;
    }
  }

  lemma {:induction false} MarketHasCandidate(coinBySymbol: map<string, string>, ms: seq<Market>, j: nat)
    returns (i: nat)
    requires j < |ms| && CandidateOf(coinBySymbol, ms[j]).Some?
    ensures i < |CandidatesOf(coinBySymbol, ms)|
    ensures CandidatesOf(coinBySymbol, ms)[i] == CandidateOf(coinBySymbol, ms[j]).value
  {
    if j < |ms| - 1 {
      i := MarketHasCandidate(coinBySymbol, ms[..|ms| - 1], j);
    } else {
      i := |CandidatesOf(coinBySymbol, ms[..|ms| - 1])|;
    }
  }

  /** A candidate keeps its market's symbol, base and quote; its market is listed. */
  lemma CandidateOfMarket(coinBySymbol: map<string, string>, m: Market)
    requires CandidateOf(coinBySymbol, m).Some?
    ensures var c := CandidateOf(coinBySymbol, m).value;
            IsListed(m) && Symbol(c) == SymbolOf(m) && c.base == UpperOf(m.base) && c.quote == UpperOf(m.quote)
            && c.base != "" && c.quote != "" && c.base in coinBySymbol && c.coinID == coinBySymbol[c.base]
  {
    TrimIdempotent(TextOf(m.symbol));
  }

  /** No two listed markets share a symbol. */
  ghost predicate DistinctMarkets(ms: seq<Market>) {
    forall i, j :: 0 <= i < j < |ms| && IsListed(ms[i]) && IsListed(ms[j]) ==> SymbolOf(ms[i]) != SymbolOf(ms[j])
  }

  lemma {:induction false} CandidatesDistinct(coinBySymbol: map<string, string>, ms: seq<Market>)
    requires DistinctMarkets(ms)
    ensures DistinctSymbols(CandidatesOf(coinBySymbol, ms), Symbol)
  {
    if ms == [] {
    } else {
      var before, m := ms[..|ms| - 1], ms[|ms| - 1];
      CandidatesDistinct(coinBySymbol, before);
      if CandidateOf(coinBySymbol, m).Some? {
        var cs, c := CandidatesOf(coinBySymbol, before), CandidateOf(coinBySymbol, m).value;
        forall i | 0 <= i < |cs|
          ensures Symbol(cs[i]) != Symbol(c)
        {
          var j := CandidateHasMarket(coinBySymbol, before, i);
          CandidateOfMarket(coinBySymbol, before[j]);
          CandidateOfMarket(coinBySymbol, m);
        }
      }
    }
  }

  /** No two listed markets share a symbol. */
  ghost predicate DistinctListed(markets: map<string, Market>) {
    forall k, l | k in markets && l in markets && k != l && IsListed(markets[k]) && IsListed(markets[l])
      :: SymbolOf(markets[k]) != SymbolOf(markets[l])
  }

  /** The candidates of a build that visits the markets in the given order. */
  ghost function CandidatesBy(markets: map<string, Market>, coins: seq<Coin>, order: seq<string>): seq<Candidate>
    requires IsOrder(order, markets.Keys)
  {
    CandidatesOf(CoinBySymbol(coins), InOrder(markets, order))
  }

  lemma KeysOfBuildDistinct(exchange: string, markets: map<string, Market>, coins: seq<Coin>, order: seq<string>)
    requires DistinctListed(markets) && IsOrder(order, markets.Keys)
    ensures DistinctSymbols(CandidatesBy(markets, coins, order), Symbol)
    ensures DistinctKeys(CandidatesBy(markets, coins, order), KeyOf(exchange))
  {
    var ms := InOrder(markets, order);
    forall i, j | 0 <= i < j < |ms| && IsListed(ms[i]) && IsListed(ms[j])
      ensures SymbolOf(ms[i]) != SymbolOf(ms[j])
    {
      assert order[i] in markets && order[j] in markets && order[i] != order[j];
    }
    CandidatesDistinct(CoinBySymbol(coins), ms);
    var cs := CandidatesBy(markets, coins, order);
    forall i, j | 0 <= i < j < |cs|
      ensures KeyOf(exchange)(cs[i]) != KeyOf(exchange)(cs[j])
    {
      assert Symbol(cs[i]) != Symbol(cs[j]);
    }
  }

  /** Candidate `i` comes from the market with this name. */
  predicate IsCandidateOf(markets: map<string, Market>, coins: seq<Coin>, cs: seq<Candidate>, i: nat, name: string) {
    && i < |cs| && name in markets
    && CandidateOf(CoinBySymbol(coins), markets[name]) == Some(cs[i])
  }

  lemma CandidateHasName(markets: map<string, Market>, coins: seq<Coin>, order: seq<string>, i: nat)
    returns (name: string)
    requires IsOrder(order, markets.Keys) && i < |CandidatesBy(markets, coins, order)|
    ensures IsCandidateOf(markets, coins, CandidatesBy(markets, coins, order), i, name)
  {
    var j := CandidateHasMarket(CoinBySymbol(coins), InOrder(markets, order), i);
    name := order[j];
    assert name in markets;
  }

  lemma NameHasCandidate(markets: map<string, Market>, coins: seq<Coin>, order: seq<string>, name: string)
    returns (i: nat)
    requires IsOrder(order, markets.Keys)
    requires name in markets && CandidateOf(CoinBySymbol(coins), markets[name]).Some?
    ensures IsCandidateOf(markets, coins, CandidatesBy(markets, coins, order), i, name)
  {
    assert name in order;
    var j :| 0 <= j < |order| && order[j] == name;
    i := MarketHasCandidate(CoinBySymbol(coins), InOrder(markets, order), j);
  }

  // ----- A completed sync -----

  /** The choices that a completed sync made: the order it visited the markets in to build, the primaries,
      the order it visited them in to validate, and the rows it listed. */
  datatype Trace = Trace(order: seq<string>, primaries: map<string, string>,
                         visited: seq<string>, keys: seq<RowKey>, available: map<string, bool>)

  ghost predicate BuiltBy(before: Table, mid: Table, exchange: string, cs: seq<Candidate>,
                          primaries: map<string, string>) {
    && IsChoice(cs, GroupKey(exchange), Rank, Symbol, primaries)
    && mid == WriteAll(before, KeyOf(exchange), RowOf(exchange, primaries), cs)
  }

  ghost predicate ValidatedBy(mid: Table, after: Table, exchange: string, ms: seq<Market>, keys: seq<RowKey>,
                              available: map<string, bool>) {
    && IsOrder(keys, RowsOf(mid, exchange))
    && IsAvailability(ms, IsListed, SymbolOf, IsMarketActive, available)
    && after == SetAll(mid, keys, StatusOf(available))
  }

  /** A completed sync, with all its choices. */
  ghost predicate CompletedBy(before: Table, mid: Table, after: Table, exchange: string, markets: map<string, Market>,
                              coins: seq<Coin>, t: Trace) {
    && IsOrder(t.order, markets.Keys) && IsOrder(t.visited, markets.Keys)
    && BuiltBy(before, mid, exchange, CandidatesBy(markets, coins, t.order), t.primaries)
    && ValidatedBy(mid, after, exchange, InOrder(markets, t.visited), t.keys, t.available)
  }

  lemma BuildTrace(before: Table, mid: Table, exchange: string, markets: map<string, Market>, coins: seq<Coin>)
    returns (order: seq<string>, primaries: map<string, string>)
    requires Built(before, mid, exchange, markets, coins, true)
    ensures IsOrder(order, markets.Keys)
    ensures BuiltBy(before, mid, exchange, CandidatesBy(markets, coins, order), primaries)
  {
    var n;
    order, primaries, n :| IsOrder(order, markets.Keys)
                           && BuiltWith(before, mid, exchange, coins, true, InOrder(markets, order), primaries, n);
    BuiltCompletely(before, mid, exchange, coins, InOrder(markets, order), primaries, n);
  }

  lemma BuiltCompletely(before: Table, mid: Table, exchange: string, coins: seq<Coin>, ms: seq<Market>,
                        primaries: map<string, string>, n: nat)
    requires BuiltWith(before, mid, exchange, coins, true, ms, primaries, n)
    ensures BuiltBy(before, mid, exchange, CandidatesOf(CoinBySymbol(coins), ms), primaries)
  {
    var cs := CandidatesOf(CoinBySymbol(coins), ms);
    assert cs[..|cs|] == cs;
  }

  lemma ValidationTrace(mid: Table, after: Table, exchange: string, markets: map<string, Market>)
    returns (visited: seq<string>, keys: seq<RowKey>, available: map<string, bool>)
    requires Validated(mid, after, exchange, markets, true)
    ensures IsOrder(visited, markets.Keys)
    ensures ValidatedBy(mid, after, exchange, InOrder(markets, visited), keys, available)
  {
    var n;
    visited, keys, available, n :| IsOrder(visited, markets.Keys) && IsOrder(keys, RowsOf(mid, exchange))
                                   && ValidatedWith(mid, after, InOrder(markets, visited), true, keys, available, n);
    assert keys[..|keys|] == keys;
  }

  lemma CompletedTrace(before: Table, after: Table, exchange: string, markets: Option<map<string, Market>>,
                       coins: Option<seq<Coin>>)
    returns (mid: Table, t: Trace)
    requires Synced(before, after, exchange, markets, coins, true)
    ensures markets.Some? && coins.Some? && Built(before, mid, exchange, markets.value, coins.value, true)
    ensures CompletedBy(before, mid, after, exchange, markets.value, coins.value, t)
  {
    mid :| Built(before, mid, exchange, markets.value, coins.value, true)
           && Validated(mid, after, exchange, markets.value, true);
    var order, primaries := BuildTrace(before, mid, exchange, markets.value, coins.value);
    var visited, keys, available := ValidationTrace(mid, after, exchange, markets.value);
    t := Trace(order, primaries, visited, keys, available);
  }

  /** After a complete validation a row is active exactly when the markets list its symbol as active. */
  lemma StatusAfter(mid: Table, after: Table, exchange: string, ms: seq<Market>, keys: seq<RowKey>,
                    available: map<string, bool>, k: RowKey)
    requires ValidatedBy(mid, after, exchange, ms, keys, available) && k.exchange == NormalizeExchange(exchange)
    ensures k in after <==> k in mid
    ensures k in mid ==> after[k] == mid[k].(status := StatusOf(available)(k))
  {
    SetAllAt(mid, keys, StatusOf(available), k);
    assert k in mid ==> k in RowsOf(mid, exchange);
  }

  /** The final row of every candidate. */
  lemma CandidateRow(before: Table, mid: Table, after: Table, exchange: string, cs: seq<Candidate>,
                     primaries: map<string, string>, ms: seq<Market>, keys: seq<RowKey>, available: map<string, bool>,
                     i: nat)
    requires NormalizeExchange(exchange) == exchange
    requires BuiltBy(before, mid, exchange, cs, primaries) && ValidatedBy(mid, after, exchange, ms, keys, available)
    requires DistinctKeys(cs, KeyOf(exchange)) && i < |cs|
    ensures var k := KeyOf(exchange)(cs[i]);
            k in after && after[k] == Row(Trim(cs[i].coinID), NormalizeSymbol(cs[i].base), NormalizeSymbol(cs[i].quote),
                                          StatusOf(available)(k), Marked(exchange, primaries)(cs[i]))
  {
    var k := KeyOf(exchange)(cs[i]);
    WriteAllLasts(before, KeyOf(exchange), RowOf(exchange, primaries), cs, i);
    assert mid[k] == ActiveRow(cs[i], Marked(exchange, primaries)(cs[i]));
    StatusAfter(mid, after, exchange, ms, keys, available, k);
  }

  ghost predicate ActivePrimary(table: Table, k: RowKey, exchange: string, coinID: string) {
    k in table && k.exchange == exchange && table[k].coinID == coinID && table[k].status == Active && table[k].isPrimary
  }

  ghost predicate AtMostOnePrimary(table: Table, exchange: string) {
    forall coinID, k, l | ActivePrimary(table, k, exchange, coinID) && ActivePrimary(table, l, exchange, coinID)
      :: k == l
  }

  lemma UnwrittenRow(before: Table, mid: Table, after: Table, exchange: string, cs: seq<Candidate>,
                     primaries: map<string, string>, ms: seq<Market>, keys: seq<RowKey>,
                     available: map<string, bool>, k: RowKey)
    requires NormalizeExchange(exchange) == exchange && k.exchange == exchange
    requires BuiltBy(before, mid, exchange, cs, primaries) && ValidatedBy(mid, after, exchange, ms, keys, available)
    requires forall i: nat :: !Writes(cs, KeyOf(exchange), i, k)
    ensures k in after <==> k in before
    ensures k in before ==> after[k] == before[k].(status := StatusOf(available)(k))
  {
    WriteAllElsewhere(before, KeyOf(exchange), RowOf(exchange, primaries), cs, k);
    StatusAfter(mid, after, exchange, ms, keys, available, k);
  }

  /** The market with this name is listed under the symbol, as active. */
  predicate ActiveListing(markets: map<string, Market>, name: string, symbol: string) {
    name in markets && IsListed(markets[name]) && SymbolOf(markets[name]) == symbol && IsMarketActive(markets[name])
  }

  /** A listed market's symbol has that market's activity. */
  lemma AvailabilityIsActivity(markets: map<string, Market>, visited: seq<string>, available: map<string, bool>,
                               name: string)
    requires DistinctListed(markets) && IsOrder(visited, markets.Keys)
    requires IsAvailability(InOrder(markets, visited), IsListed, SymbolOf, IsMarketActive, available)
    requires name in markets && IsListed(markets[name])
    ensures SymbolOf(markets[name]) in available
    ensures available[SymbolOf(markets[name])] == IsMarketActive(markets[name])
  {
    var vs := InOrder(markets, visited);
    var at :| 0 <= at < |visited| && visited[at] == name;
    assert vs[at] == markets[name];
    var j :| 0 <= j < |vs| && IsListed(vs[j]) && SymbolOf(vs[j]) == SymbolOf(markets[name])
             && IsMarketActive(vs[j]) == available[SymbolOf(markets[name])];
    assert visited[j] in markets && vs[j] == markets[visited[j]];
  }

  /** A row's status is active exactly when some market is listed under its symbol as active. */
  lemma ActiveIffListed(markets: map<string, Market>, visited: seq<string>, available: map<string, bool>, k: RowKey)
    requires DistinctListed(markets) && IsOrder(visited, markets.Keys)
    requires IsAvailability(InOrder(markets, visited), IsListed, SymbolOf, IsMarketActive, available)
    ensures StatusOf(available)(k) == Active <==> exists name :: ActiveListing(markets, name, k.symbol)
  {
    var vs := InOrder(markets, visited);
    if k.symbol in available {
      var j :| 0 <= j < |vs| && IsListed(vs[j]) && SymbolOf(vs[j]) == k.symbol
               && IsMarketActive(vs[j]) == available[k.symbol];
      var name := visited[j];
      assert name in markets && vs[j] == markets[name];
      if available[k.symbol] {
        assert ActiveListing(markets, name, k.symbol);
      }
    }
    if name :| ActiveListing(markets, name, k.symbol) {
      AvailabilityIsActivity(markets, visited, available, name);
    }
  }

  // ----- Which rows are active primaries -----

  /** The row was primary before, its symbol is listed as active, and yet its market is no candidate: the build
      leaves the row alone and the validation keeps it active. */
  ghost predicate IsStale(before: Table, exchange: string, markets: map<string, Market>, coins: seq<Coin>, k: RowKey) {
    && k in before && k.exchange == exchange && before[k].isPrimary
    && exists name :: ActiveListing(markets, name, k.symbol) && CandidateOf(CoinBySymbol(coins), markets[name]).None?
  }

  ghost predicate StaleFor(before: Table, exchange: string, markets: map<string, Market>, coins: seq<Coin>, k: RowKey,
                           coinID: string) {
    IsStale(before, exchange, markets, coins, k) && before[k].coinID == coinID
  }

  /** Candidate `i` is its group's chosen one, and its market is active. */
  ghost predicate IsFresh(exchange: string, markets: map<string, Market>, coins: seq<Coin>, cs: seq<Candidate>, i: nat,
                          name: string) {
    && IsCandidateOf(markets, coins, cs, i, name)
    && IsChosen(cs, GroupKey(exchange), Rank, i) && IsMarketActive(markets[name])
  }

  ghost predicate FreshFor(exchange: string, markets: map<string, Market>, coins: seq<Coin>, cs: seq<Candidate>,
                           k: RowKey, coinID: string) {
    exists i: nat, name ::
      IsFresh(exchange, markets, coins, cs, i, name) && KeyOf(exchange)(cs[i]) == k && Trim(cs[i].coinID) == coinID
  }

  /** After a completed sync the row of a candidate is an active primary exactly when the candidate is the first
      of least rank in its group and its market is active. */
  lemma PrimaryIff(before: Table, mid: Table, after: Table, exchange: string, markets: map<string, Market>,
                   coins: seq<Coin>, t: Trace, i: nat, name: string)
    requires NormalizeExchange(exchange) == exchange && DistinctListed(markets)
    requires CompletedBy(before, mid, after, exchange, markets, coins, t)
    requires IsCandidateOf(markets, coins, CandidatesBy(markets, coins, t.order), i, name)
    ensures var cs := CandidatesBy(markets, coins, t.order);
            ActivePrimary(after, KeyOf(exchange)(cs[i]), exchange, Trim(cs[i].coinID))
            <==> IsChosen(cs, GroupKey(exchange), Rank, i) && IsMarketActive(markets[name])
  {
    var cs, vs := CandidatesBy(markets, coins, t.order), InOrder(markets, t.visited);
    KeysOfBuildDistinct(exchange, markets, coins, t.order);
    CandidateRow(before, mid, after, exchange, cs, t.primaries, vs, t.keys, t.available, i);
    MarkedIffChosen(cs, GroupKey(exchange), Rank, Symbol, t.primaries, i);
    CandidateOfMarket(CoinBySymbol(coins), markets[name]);
    AvailabilityIsActivity(markets, t.visited, t.available, name);
    assert KeyOf(exchange)(cs[i]).symbol == SymbolOf(markets[name]);
  }

  /** What a completed sync stores for a market that is a candidate: the first coin listed under its base, its base and
      quote in upper case, active or delisted as the market says, and primary exactly when chosen. */
  lemma SyncedRow(before: Table, mid: Table, after: Table, exchange: string, markets: map<string, Market>,
                  coins: seq<Coin>, t: Trace, i: nat, name: string)
    requires NormalizeExchange(exchange) == exchange && DistinctListed(markets)
    requires CompletedBy(before, mid, after, exchange, markets, coins, t)
    requires IsCandidateOf(markets, coins, CandidatesBy(markets, coins, t.order), i, name)
    ensures var m, cs := markets[name], CandidatesBy(markets, coins, t.order);
            && IsGiven(m.base) && IsGiven(m.quote) && IsGiven(m.symbol)
            && var k := RowKey(exchange, Upper(Trim(m.symbol.value)));
               && k in after
               && after[k].base == Upper(Trim(m.base.value)) && after[k].quote == Upper(Trim(m.quote.value))
               && (exists j: nat :: IsFirstCoin(coins, after[k].base, j) && after[k].coinID == Trim(coins[j].coinID))
               && after[k].status == (if IsMarketActive(m) then Active else Delisted)
               && (after[k].isPrimary <==> IsChosen(cs, GroupKey(exchange), Rank, i))
  {
    var m, cs, vs := markets[name], CandidatesBy(markets, coins, t.order), InOrder(markets, t.visited);
    KeysOfBuildDistinct(exchange, markets, coins, t.order);
    CandidateRow(before, mid, after, exchange, cs, t.primaries, vs, t.keys, t.available, i);
    MarkedIffChosen(cs, GroupKey(exchange), Rank, Symbol, t.primaries, i);
    CandidateOfMarket(CoinBySymbol(coins), m);
    AvailabilityIsActivity(markets, t.visited, t.available, name);
    CandidateIff(coins, m);
    NormalizeSymbolIdempotent(m.base.value);
    NormalizeSymbolIdempotent(m.quote.value);
    TrimIdempotent(m.symbol.value);
    assert KeyOf(exchange)(cs[i]).symbol == SymbolOf(m);
  }

  /** The row of a candidate belongs to the candidate's coin. */
  lemma CandidateCoin(before: Table, mid: Table, after: Table, exchange: string, markets: map<string, Market>,
                      coins: seq<Coin>, t: Trace, i: nat, coinID: string)
    requires NormalizeExchange(exchange) == exchange && DistinctListed(markets)
    requires CompletedBy(before, mid, after, exchange, markets, coins, t)
    requires i < |CandidatesBy(markets, coins, t.order)|
    requires ActivePrimary(after, KeyOf(exchange)(CandidatesBy(markets, coins, t.order)[i]), exchange, coinID)
    ensures Trim(CandidatesBy(markets, coins, t.order)[i].coinID) == coinID
  {
    var cs, vs := CandidatesBy(markets, coins, t.order), InOrder(markets, t.visited);
    KeysOfBuildDistinct(exchange, markets, coins, t.order);
    CandidateRow(before, mid, after, exchange, cs, t.primaries, vs, t.keys, t.available, i);
  }

  /** A stale row is not written. */
  lemma StaleIsUnwritten(before: Table, exchange: string, markets: map<string, Market>, coins: seq<Coin>,
                         order: seq<string>, k: RowKey, i: nat)
    requires DistinctListed(markets) && IsOrder(order, markets.Keys) && IsStale(before, exchange, markets, coins, k)
    ensures !Writes(CandidatesBy(markets, coins, order), KeyOf(exchange), i, k)
  {
    var cs := CandidatesBy(markets, coins, order);
    if Writes(cs, KeyOf(exchange), i, k) {
      var name := CandidateHasName(markets, coins, order, i);
      CandidateOfMarket(CoinBySymbol(coins), markets[name]);
    }
  }

  /** A market listed under the symbol of an unwritten row is no candidate. */
  lemma UnwrittenIsNoCandidate(exchange: string, markets: map<string, Market>, coins: seq<Coin>, order: seq<string>,
                               k: RowKey, name: string)
    requires NormalizeExchange(exchange) == exchange && k.exchange == exchange && IsOrder(order, markets.Keys)
    requires forall i: nat :: !Writes(CandidatesBy(markets, coins, order), KeyOf(exchange), i, k)
    requires name in markets && SymbolOf(markets[name]) == k.symbol
    ensures CandidateOf(CoinBySymbol(coins), markets[name]).None?
  {
    if CandidateOf(CoinBySymbol(coins), markets[name]).Some? {
      var i := NameHasCandidate(markets, coins, order, name);
      CandidateOfMarket(CoinBySymbol(coins), markets[name]);
      assert Writes(CandidatesBy(markets, coins, order), KeyOf(exchange), i, k);
    }
  }

  lemma UnwrittenPrimaryIff(before: Table, mid: Table, after: Table, exchange: string, markets: map<string, Market>,
                            coins: seq<Coin>, t: Trace, k: RowKey, coinID: string)
    requires NormalizeExchange(exchange) == exchange && k.exchange == exchange && DistinctListed(markets)
    requires CompletedBy(before, mid, after, exchange, markets, coins, t)
    requires forall i: nat :: !Writes(CandidatesBy(markets, coins, t.order), KeyOf(exchange), i, k)
    ensures ActivePrimary(after, k, exchange, coinID) <==> StaleFor(before, exchange, markets, coins, k, coinID)
  {
    var cs, vs := CandidatesBy(markets, coins, t.order), InOrder(markets, t.visited);
    UnwrittenRow(before, mid, after, exchange, cs, t.primaries, vs, t.keys, t.available, k);
    ActiveIffListed(markets, t.visited, t.available, k);
    if name :| ActiveListing(markets, name, k.symbol) {
      UnwrittenIsNoCandidate(exchange, markets, coins, t.order, k, name);
    }
  }

  /** After a completed sync, whatever the table held before, the active primary rows are exactly the stale ones
      and those of the chosen candidates whose markets are active. */
  lemma ActivePrimaryIff(before: Table, mid: Table, after: Table, exchange: string, markets: map<string, Market>,
                         coins: seq<Coin>, t: Trace, k: RowKey, coinID: string)
    requires NormalizeExchange(exchange) == exchange && k.exchange == exchange && DistinctListed(markets)
    requires CompletedBy(before, mid, after, exchange, markets, coins, t)
    ensures ActivePrimary(after, k, exchange, coinID)
            <==> StaleFor(before, exchange, markets, coins, k, coinID)
                 || FreshFor(exchange, markets, coins, CandidatesBy(markets, coins, t.order), k, coinID)
  {
    var cs := CandidatesBy(markets, coins, t.order);
    if i: nat :| Writes(cs, KeyOf(exchange), i, k) {
      WrittenPrimaryIff(before, mid, after, exchange, markets, coins, t, i, coinID);
      if IsStale(before, exchange, markets, coins, k) {
        StaleIsUnwritten(before, exchange, markets, coins, t.order, k, i);
      }
    } else {
      UnwrittenPrimaryIff(before, mid, after, exchange, markets, coins, t, k, coinID);
      if i: nat, name :| IsFresh(exchange, markets, coins, cs, i, name) && KeyOf(exchange)(cs[i]) == k {
        assert Writes(cs, KeyOf(exchange), i, k);
      }
    }
  }

  lemma WrittenPrimaryIff(before: Table, mid: Table, after: Table, exchange: string, markets: map<string, Market>,
                          coins: seq<Coin>, t: Trace, i: nat, coinID: string)
    requires NormalizeExchange(exchange) == exchange && DistinctListed(markets)
    requires CompletedBy(before, mid, after, exchange, markets, coins, t)
    requires i < |CandidatesBy(markets, coins, t.order)|
    ensures var cs := CandidatesBy(markets, coins, t.order);
            var k := KeyOf(exchange)(cs[i]);
            ActivePrimary(after, k, exchange, coinID) <==> FreshFor(exchange, markets, coins, cs, k, coinID)
  {
    var cs := CandidatesBy(markets, coins, t.order);
    var k := KeyOf(exchange)(cs[i]);
    if ActivePrimary(after, k, exchange, coinID) {
      CandidateCoin(before, mid, after, exchange, markets, coins, t, i, coinID);
      var name := CandidateHasName(markets, coins, t.order, i);
      PrimaryIff(before, mid, after, exchange, markets, coins, t, i, name);
      assert IsFresh(exchange, markets, coins, cs, i, name);
    }
    if j: nat, name :| IsFresh(exchange, markets, coins, cs, j, name) && KeyOf(exchange)(cs[j]) == k
                       && Trim(cs[j].coinID) == coinID {
      PrimaryIff(before, mid, after, exchange, markets, coins, t, j, name);
    }
  }

  /** No coin has two stale rows, nor a stale row beside a chosen candidate with an active market. */
  ghost predicate NoClash(before: Table, exchange: string, markets: map<string, Market>, coins: seq<Coin>,
                          cs: seq<Candidate>) {
    && (forall coinID, k, l | StaleFor(before, exchange, markets, coins, k, coinID)
                              && StaleFor(before, exchange, markets, coins, l, coinID) :: k == l)
    && (forall coinID, k, l | StaleFor(before, exchange, markets, coins, k, coinID)
          :: !FreshFor(exchange, markets, coins, cs, l, coinID))
  }

  /** The chosen candidates of one coin are one row. */
  lemma FreshOfOneCoin(exchange: string, markets: map<string, Market>, coins: seq<Coin>, cs: seq<Candidate>, k: RowKey,
                       l: RowKey, coinID: string)
    requires FreshFor(exchange, markets, coins, cs, k, coinID) && FreshFor(exchange, markets, coins, cs, l, coinID)
    ensures k == l
  {
    var i: nat, name :| IsFresh(exchange, markets, coins, cs, i, name) && KeyOf(exchange)(cs[i]) == k
                        && Trim(cs[i].coinID) == coinID;
    var j: nat, other :| IsFresh(exchange, markets, coins, cs, j, other) && KeyOf(exchange)(cs[j]) == l
                         && Trim(cs[j].coinID) == coinID;
    assert GroupKey(exchange)(cs[i]) == GroupKey(exchange)(cs[j]);
    ChosenUnique(cs, GroupKey(exchange), Rank, i, j);
  }

  /** A stale row and the row of a chosen candidate are two different ones. */
  lemma StaleIsNotFresh(before: Table, exchange: string, markets: map<string, Market>, coins: seq<Coin>,
                        order: seq<string>, k: RowKey, coinID: string)
    requires DistinctListed(markets) && IsOrder(order, markets.Keys) && IsStale(before, exchange, markets, coins, k)
    ensures !FreshFor(exchange, markets, coins, CandidatesBy(markets, coins, order), k, coinID)
  {
    var cs := CandidatesBy(markets, coins, order);
    if i: nat, name :| IsFresh(exchange, markets, coins, cs, i, name) && KeyOf(exchange)(cs[i]) == k {
      StaleIsUnwritten(before, exchange, markets, coins, order, k, i);
      assert Writes(cs, KeyOf(exchange), i, k);
    }
  }

  /** Whatever the table held before, a completed sync leaves every coin at most one active primary row on the
      exchange if and only if no stale row clashes with another one or with the coin's chosen candidate. */
  lemma OnePrimaryIff(before: Table, mid: Table, after: Table, exchange: string, markets: map<string, Market>,
                      coins: seq<Coin>, t: Trace)
    requires NormalizeExchange(exchange) == exchange && DistinctListed(markets)
    requires CompletedBy(before, mid, after, exchange, markets, coins, t)
    ensures AtMostOnePrimary(after, exchange)
            <==> NoClash(before, exchange, markets, coins, CandidatesBy(markets, coins, t.order))
  {
    if NoClash(before, exchange, markets, coins, CandidatesBy(markets, coins, t.order)) {
      NoClashLeavesOne(before, mid, after, exchange, markets, coins, t);
    }
    if AtMostOnePrimary(after, exchange) {
      OneLeavesNoClash(before, mid, after, exchange, markets, coins, t);
    }
  }

  lemma NoClashLeavesOne(before: Table, mid: Table, after: Table, exchange: string, markets: map<string, Market>,
                         coins: seq<Coin>, t: Trace)
    requires NormalizeExchange(exchange) == exchange && DistinctListed(markets)
    requires CompletedBy(before, mid, after, exchange, markets, coins, t)
    requires NoClash(before, exchange, markets, coins, CandidatesBy(markets, coins, t.order))
    ensures AtMostOnePrimary(after, exchange)
  {
    var cs := CandidatesBy(markets, coins, t.order);
    forall coinID, k, l | ActivePrimary(after, k, exchange, coinID) && ActivePrimary(after, l, exchange, coinID)
      ensures k == l
    {
      ActivePrimaryIff(before, mid, after, exchange, markets, coins, t, k, coinID);
      ActivePrimaryIff(before, mid, after, exchange, markets, coins, t, l, coinID);
      if FreshFor(exchange, markets, coins, cs, k, coinID) && FreshFor(exchange, markets, coins, cs, l, coinID) {
        FreshOfOneCoin(exchange, markets, coins, cs, k, l, coinID);
      }
    }
  }

  lemma OneLeavesNoClash(before: Table, mid: Table, after: Table, exchange: string, markets: map<string, Market>,
                         coins: seq<Coin>, t: Trace)
    requires NormalizeExchange(exchange) == exchange && DistinctListed(markets)
    requires CompletedBy(before, mid, after, exchange, markets, coins, t) && AtMostOnePrimary(after, exchange)
    ensures NoClash(before, exchange, markets, coins, CandidatesBy(markets, coins, t.order))
  {
    var cs := CandidatesBy(markets, coins, t.order);
    forall coinID, k, l | StaleFor(before, exchange, markets, coins, k, coinID)
                          && StaleFor(before, exchange, markets, coins, l, coinID)
      ensures k == l
    {
      ActivePrimaryIff(before, mid, after, exchange, markets, coins, t, k, coinID);
      ActivePrimaryIff(before, mid, after, exchange, markets, coins, t, l, coinID);
    }
    forall coinID, k, l | StaleFor(before, exchange, markets, coins, k, coinID)
      ensures !FreshFor(exchange, markets, coins, cs, l, coinID)
    {
      ActivePrimaryIff(before, mid, after, exchange, markets, coins, t, k, coinID);
      StaleIsNotFresh(before, exchange, markets, coins, t.order, k, coinID);
      if FreshFor(exchange, markets, coins, cs, l, coinID) {
        assert l.exchange == exchange;
        ActivePrimaryIff(before, mid, after, exchange, markets, coins, t, l, coinID);
      }
    }
  }

  /** When the chosen candidate's market is inactive, its coin has no active primary row after the sync but stale
      ones, however many of its other markets are active. */
  lemma InactiveChoiceLeavesNoPrimary(before: Table, mid: Table, after: Table, exchange: string,
                                      markets: map<string, Market>, coins: seq<Coin>, t: Trace, i: nat, name: string,
                                      k: RowKey)
    requires NormalizeExchange(exchange) == exchange && DistinctListed(markets)
    requires CompletedBy(before, mid, after, exchange, markets, coins, t)
    requires IsCandidateOf(markets, coins, CandidatesBy(markets, coins, t.order), i, name)
    requires IsChosen(CandidatesBy(markets, coins, t.order), GroupKey(exchange), Rank, i)
    requires !IsMarketActive(markets[name])
    requires !StaleFor(before, exchange, markets, coins, k, Trim(CandidatesBy(markets, coins, t.order)[i].coinID))
    ensures !ActivePrimary(after, k, exchange, Trim(CandidatesBy(markets, coins, t.order)[i].coinID))
  {
    var cs := CandidatesBy(markets, coins, t.order);
    var coinID := Trim(cs[i].coinID);
    if ActivePrimary(after, k, exchange, coinID) {
      ActivePrimaryIff(before, mid, after, exchange, markets, coins, t, k, coinID);
      FreshIsActiveChoice(exchange, markets, coins, cs, i, name, k);
    }
  }

  lemma FreshIsActiveChoice(exchange: string, markets: map<string, Market>, coins: seq<Coin>, cs: seq<Candidate>,
                            i: nat, name: string, k: RowKey)
    requires DistinctListed(markets) && IsCandidateOf(markets, coins, cs, i, name)
    requires IsChosen(cs, GroupKey(exchange), Rank, i)
    requires FreshFor(exchange, markets, coins, cs, k, Trim(cs[i].coinID))
    ensures IsMarketActive(markets[name])
  {
    var j: nat, other :| IsFresh(exchange, markets, coins, cs, j, other) && KeyOf(exchange)(cs[j]) == k
                         && Trim(cs[j].coinID) == Trim(cs[i].coinID);
    assert GroupKey(exchange)(cs[i]) == GroupKey(exchange)(cs[j]);
    ChosenUnique(cs, GroupKey(exchange), Rank, i, j);
    CandidateOfMarket(CoinBySymbol(coins), markets[name]);
    CandidateOfMarket(CoinBySymbol(coins), markets[other]);
  }

  // ----- What a sync leaves alone -----

  /** Rows of other exchanges are the same in both tables. */
  ghost predicate SameElsewhere(before: Table, after: Table, exchange: string) {
    forall k: RowKey | k.exchange != exchange
      :: (k in after <==> k in before) && (k in before ==> after[k] == before[k])
  }

  lemma BuildWrites(before: Table, after: Table, exchange: string, markets: map<string, Market>, coins: seq<Coin>,
                    done: bool) returns (order: seq<string>, row: Candidate -> Row, n: nat)
    requires Built(before, after, exchange, markets, coins, done)
    ensures IsOrder(order, markets.Keys) && n <= |CandidatesBy(markets, coins, order)|
    ensures after == WriteAll(before, KeyOf(exchange), row, CandidatesBy(markets, coins, order)[..n])
  {
    var primaries;
    order, primaries, n :| IsOrder(order, markets.Keys)
                           && BuiltWith(before, after, exchange, coins, done, InOrder(markets, order), primaries, n);
    row := RowOf(exchange, primaries);
  }

  lemma BuildKeepsElsewhere(before: Table, after: Table, exchange: string, markets: map<string, Market>,
                            coins: seq<Coin>, done: bool)
    requires NormalizeExchange(exchange) == exchange && Built(before, after, exchange, markets, coins, done)
    ensures SameElsewhere(before, after, exchange)
  {
    var order, row, n := BuildWrites(before, after, exchange, markets, coins, done);
    forall k: RowKey | k.exchange != exchange
      ensures (k in after <==> k in before) && (k in before ==> after[k] == before[k])
    {
      WriteAllElsewhere(before, KeyOf(exchange), row, CandidatesBy(markets, coins, order)[..n], k);
    }
  }

  /** A validation, complete or not, keeps every key and the rows of other exchanges. */
  lemma ValidationKeeps(before: Table, after: Table, exchange: string, markets: map<string, Market>, done: bool)
    requires NormalizeExchange(exchange) == exchange && Validated(before, after, exchange, markets, done)
    ensures SameElsewhere(before, after, exchange) && forall k :: k in after <==> k in before
  {
    var order, keys, available, n :|
      IsOrder(order, markets.Keys) && IsOrder(keys, RowsOf(before, exchange))
      && ValidatedWith(before, after, InOrder(markets, order), done, keys, available, n);
    forall k: RowKey
      ensures k in after <==> k in before
      ensures k in before && k.exchange != exchange ==> after[k] == before[k]
    {
      SetAllAt(before, keys[..n], StatusOf(available), k);
      assert k in keys[..n] ==> k in keys;
    }
  }

  /** A sync, complete or not, leaves other exchanges alone, for every table, catalogue and market list. */
  lemma SyncKeepsElsewhere(before: Table, after: Table, exchange: string, markets: Option<map<string, Market>>,
                           coins: Option<seq<Coin>>, done: bool)
    requires NormalizeExchange(exchange) == exchange && Synced(before, after, exchange, markets, coins, done)
    ensures SameElsewhere(before, after, exchange)
  {
    if exchange != "" && markets.Some? && coins.Some? {
      var mid, built :| Built(before, mid, exchange, markets.value, coins.value, built)
                        && if built then Validated(mid, after, exchange, markets.value, done)
                           else after == mid && !done;
      BuildKeepsElsewhere(before, mid, exchange, markets.value, coins.value, built);
      if built {
        ValidationKeeps(mid, after, exchange, markets.value, done);
      }
    }
  }

  // ----- A consistent world -----

  datatype Assets = Assets(base: string, quote: string)

  /** What stays the same over a run: the base and quote of every exchange symbol, and the symbols of the
      catalogue. */
  datatype World = World(assets: map<RowKey, Assets>, symbols: set<string>)

  predicate HasAssets(world: World, exchange: string, m: Market) {
    var k := RowKey(exchange, SymbolOf(m));
    k in world.assets && world.assets[k] == Assets(UpperOf(m.base), UpperOf(m.quote))
  }

  /** The catalogue has the world's symbols, and the listed markets have the world's assets under distinct
      symbols. */
  ghost predicate Consistent(exchange: string, markets: map<string, Market>, coins: seq<Coin>, world: World) {
    && CoinBySymbol(coins).Keys == world.symbols
    && (forall k :: k in markets && IsListed(markets[k]) ==> HasAssets(world, exchange, markets[k]))
    && DistinctListed(markets)
  }

  /** The row's assets are known: its symbol once had a market whose base the catalogue lists. */
  predicate KnownKey(world: World, k: RowKey) {
    && k.symbol != "" && k in world.assets && world.assets[k].base != "" && world.assets[k].quote != ""
    && world.assets[k].base in world.symbols
  }

  ghost predicate RowsKnown(table: Table, world: World) {
    forall k :: k in table ==> KnownKey(world, k)
  }

  /** A written row is known. */
  lemma WrittenIsKnown(exchange: string, markets: map<string, Market>, coins: seq<Coin>, world: World,
                       order: seq<string>, i: nat)
    requires NormalizeExchange(exchange) == exchange
    requires Consistent(exchange, markets, coins, world) && IsOrder(order, markets.Keys)
    requires i < |CandidatesBy(markets, coins, order)|
    ensures KnownKey(world, KeyOf(exchange)(CandidatesBy(markets, coins, order)[i]))
  {
    var c := CandidatesBy(markets, coins, order)[i];
    var name := CandidateHasName(markets, coins, order, i);
    CandidateOfMarket(CoinBySymbol(coins), markets[name]);
    assert HasAssets(world, exchange, markets[name]);
    assert KeyOf(exchange)(c) == RowKey(exchange, SymbolOf(markets[name]));
  }

  /** A known row is not stale: its market, if listed, is a candidate. */
  lemma KnownIsNotStale(before: Table, exchange: string, markets: map<string, Market>, coins: seq<Coin>, world: World,
                        k: RowKey)
    requires Consistent(exchange, markets, coins, world) && KnownKey(world, k)
    ensures !IsStale(before, exchange, markets, coins, k)
  {
    if k.exchange == exchange {
      forall name | ActiveListing(markets, name, k.symbol)
        ensures CandidateOf(CoinBySymbol(coins), markets[name]).Some?
      {
        assert HasAssets(world, exchange, markets[name]);
      }
    }
  }

  /** A sync, complete or not, leaves the rows known. */
  lemma SyncKeepsKnown(before: Table, after: Table, exchange: string, markets: Option<map<string, Market>>,
                       coins: Option<seq<Coin>>, done: bool, world: World)
    requires NormalizeExchange(exchange) == exchange && RowsKnown(before, world)
    requires markets.Some? && coins.Some? ==> Consistent(exchange, markets.value, coins.value, world)
    requires Synced(before, after, exchange, markets, coins, done)
    ensures RowsKnown(after, world)
  {
    if exchange != "" && markets.Some? && coins.Some? {
      var mid, built :| Built(before, mid, exchange, markets.value, coins.value, built)
                        && if built then Validated(mid, after, exchange, markets.value, done)
                           else after == mid && !done;
      BuildKeepsKnown(before, mid, exchange, markets.value, coins.value, built, world);
      if built {
        ValidationKeeps(mid, after, exchange, markets.value, done);
      }
    }
  }

  lemma BuildKeepsKnown(before: Table, after: Table, exchange: string, markets: map<string, Market>, coins: seq<Coin>,
                        done: bool, world: World)
    requires NormalizeExchange(exchange) == exchange && RowsKnown(before, world)
    requires Consistent(exchange, markets, coins, world) && Built(before, after, exchange, markets, coins, done)
    ensures RowsKnown(after, world)
  {
    var order, row, n := BuildWrites(before, after, exchange, markets, coins, done);
    var cs, key := CandidatesBy(markets, coins, order), KeyOf(exchange);
    forall k | k in after
      ensures KnownKey(world, k)
    {
      if i: nat :| Writes(cs[..n], key, i, k) {
        WrittenIsKnown(exchange, markets, coins, world, order, i);
      } else {
        WriteAllElsewhere(before, key, row, cs[..n], k);
      }
    }
  }

  /** When all rows are known, a completed sync leaves every coin at most one active primary row on the
      exchange. */
  lemma CompletedSyncLeavesOnePrimary(before: Table, after: Table, exchange: string,
                                      markets: Option<map<string, Market>>, coins: Option<seq<Coin>>, world: World)
    requires NormalizeExchange(exchange) == exchange && RowsKnown(before, world)
    requires markets.Some? && coins.Some? ==> Consistent(exchange, markets.value, coins.value, world)
    requires Synced(before, after, exchange, markets, coins, true)
    ensures AtMostOnePrimary(after, exchange)
  {
    var mid, t := CompletedTrace(before, after, exchange, markets, coins);
    forall k | k in before
      ensures !IsStale(before, exchange, markets.value, coins.value, k)
    {
      KnownIsNotStale(before, exchange, markets.value, coins.value, world, k);
    }
    NoClashLeavesOne(before, mid, after, exchange, markets.value, coins.value, t);
  }

  /** Then every row of the exchange that is active after the sync was written by its build. */
  lemma ActiveRowIsCandidate(before: Table, mid: Table, after: Table, exchange: string, markets: map<string, Market>,
                             coins: seq<Coin>, world: World, t: Trace, k: RowKey) returns (i: nat)
    requires NormalizeExchange(exchange) == exchange && RowsKnown(mid, world)
    requires Consistent(exchange, markets, coins, world)
    requires CompletedBy(before, mid, after, exchange, markets, coins, t)
    requires k in after && k.exchange == exchange && after[k].status == Active
    ensures Writes(CandidatesBy(markets, coins, t.order), KeyOf(exchange), i, k)
  {
    StatusAfter(mid, after, exchange, InOrder(markets, t.visited), t.keys, t.available, k);
    ActiveIffListed(markets, t.visited, t.available, k);
    var name :| ActiveListing(markets, name, k.symbol);
    i := KnownListingIsWritten(exchange, markets, coins, world, t.order, k, name);
  }

  lemma KnownListingIsWritten(exchange: string, markets: map<string, Market>, coins: seq<Coin>, world: World,
                              order: seq<string>, k: RowKey, name: string) returns (i: nat)
    requires NormalizeExchange(exchange) == exchange && k.exchange == exchange && IsOrder(order, markets.Keys)
    requires Consistent(exchange, markets, coins, world) && KnownKey(world, k)
    requires ActiveListing(markets, name, k.symbol)
    ensures Writes(CandidatesBy(markets, coins, order), KeyOf(exchange), i, k)
  {
    assert HasAssets(world, exchange, markets[name]);
    i := NameHasCandidate(markets, coins, order, name);
    CandidateOfMarket(CoinBySymbol(coins), markets[name]);
  }

  // ----- Runs of syncs -----

  /** One call of the sync, for an exchange named in any spelling. */
  datatype Call = Call(exchange: string, markets: Option<map<string, Market>>, coins: Option<seq<Coin>>, done: bool)

  ghost predicate CallConsistent(call: Call, world: World) {
    call.markets.Some? && call.coins.Some? ==>
      Consistent(NormalizeExchange(call.exchange), call.markets.value, call.coins.value, world)
  }

  ghost predicate Runs(before: Table, after: Table, call: Call) {
    Synced(before, after, NormalizeExchange(call.exchange), call.markets, call.coins, call.done)
  }

  /** The table before the first call and after each one. */
  ghost predicate IsRun(tables: seq<Table>, calls: seq<Call>, world: World) {
    && |tables| == |calls| + 1
    && tables[0] == map[]
    && (forall i :: 0 <= i < |calls| ==> CallConsistent(calls[i], world))
    && (forall i :: 0 <= i < |calls| ==> Runs(tables[i], tables[i + 1], calls[i]))
  }

  /** Call `i` is the last for its exchange among the first `n`. */
  ghost predicate LastFor(calls: seq<Call>, i: nat, n: nat) {
    && i < n <= |calls|
    && forall j :: i < j < n ==> NormalizeExchange(calls[j].exchange) != NormalizeExchange(calls[i].exchange)
  }

  /** One call leaves other exchanges alone and, if it completes, its own with at most one active primary for
      every coin. */
  lemma CallKeeps(before: Table, after: Table, call: Call, world: World)
    requires RowsKnown(before, world) && CallConsistent(call, world) && Runs(before, after, call)
    ensures RowsKnown(after, world) && SameElsewhere(before, after, NormalizeExchange(call.exchange))
    ensures call.done ==> AtMostOnePrimary(after, NormalizeExchange(call.exchange))
  {
    var exchange := NormalizeExchange(call.exchange);
    NormalizeExchangeIdempotent(call.exchange);
    SyncKeepsElsewhere(before, after, exchange, call.markets, call.coins, call.done);
    SyncKeepsKnown(before, after, exchange, call.markets, call.coins, call.done, world);
    if call.done {
      CompletedSyncLeavesOnePrimary(before, after, exchange, call.markets, call.coins, world);
    }
  }

  lemma {:induction false} AlwaysKnown(tables: seq<Table>, calls: seq<Call>, world: World, n: nat)
    requires IsRun(tables, calls, world) && n <= |calls|
    ensures RowsKnown(tables[n], world)
  {
    if n == 0 {
    } else {
      AlwaysKnown(tables, calls, world, n - 1);
      assert CallConsistent(calls[n - 1], world);
      CallKeeps(tables[n - 1], tables[n], calls[n - 1], world);
    }
  }

  lemma OtherSyncKeepsPrimaries(before: Table, after: Table, synced: string, exchange: string)
    requires SameElsewhere(before, after, synced) && synced != exchange && AtMostOnePrimary(before, exchange)
    ensures AtMostOnePrimary(after, exchange)
  {
    forall coinID, k, l | ActivePrimary(after, k, exchange, coinID) && ActivePrimary(after, l, exchange, coinID)
      ensures k == l
    {
      assert ActivePrimary(before, k, exchange, coinID) && ActivePrimary(before, l, exchange, coinID);
    }
  }

  /** What one call for the exchange is known to do. */
  ghost predicate Kept(before: Table, after: Table, exchange: string, done: bool) {
    SameElsewhere(before, after, exchange) && (done ==> AtMostOnePrimary(after, exchange))
  }

  lemma {:induction false} LastCompletedLeavesOne(tables: seq<Table>, exchanges: seq<string>, dones: seq<bool>, i: nat,
                                                  n: nat)
    requires i < n <= |exchanges| == |dones| && |tables| == |exchanges| + 1 && dones[i]
    requires forall j :: 0 <= j < |exchanges| ==> Kept(tables[j], tables[j + 1], exchanges[j], dones[j])
    requires forall j :: i < j < n ==> exchanges[j] != exchanges[i]
    ensures AtMostOnePrimary(tables[n], exchanges[i])
  {
    assert Kept(tables[n - 1], tables[n], exchanges[n - 1], dones[n - 1]);
    if i < n - 1 {
      LastCompletedLeavesOne(tables, exchanges, dones, i, n - 1);
      OtherSyncKeepsPrimaries(tables[n - 1], tables[n], exchanges[n - 1], exchanges[i]);
    }
  }

  /** In every run, from the end of a completed sync until the next sync of the same exchange, every coin
      has at most one active primary row on that exchange. */
  lemma AlwaysAtMostOnePrimary(tables: seq<Table>, calls: seq<Call>, world: World, i: nat, n: nat)
    requires IsRun(tables, calls, world) && LastFor(calls, i, n) && calls[i].done
    ensures AtMostOnePrimary(tables[n], NormalizeExchange(calls[i].exchange))
  {
    var exchanges := seq(|calls|, j requires 0 <= j < |calls| => NormalizeExchange(calls[j].exchange));
    var dones := seq(|calls|, j requires 0 <= j < |calls| => calls[j].done);
    forall j | 0 <= j < |calls|
      ensures Kept(tables[j], tables[j + 1], exchanges[j], dones[j])
    {
      AlwaysKnown(tables, calls, world, j);
      assert CallConsistent(calls[j], world);
      CallKeeps(tables[j], tables[j + 1], calls[j], world);
    }
    LastCompletedLeavesOne(tables, exchanges, dones, i, n);
  }

  // ----- A sync can complete -----

  lemma {:induction false} ChoiceExists(cs: seq<Candidate>, group: Candidate -> string, rank: Candidate -> nat,
                                        sym: Candidate -> string)
    returns (primaries: map<string, string>, ranks: map<string, nat>)
    ensures IsChoiceWithRanks(cs, group, rank, sym, primaries, ranks)
  {
    if cs == [] {
      primaries, ranks := map[], map[];
    } else {
      var n := |cs| - 1;
      var c := cs[n];
      var primaries0, ranks0 := ChoiceExists(cs[..n], group, rank, sym);
      var wins := group(c) !in ranks0 || rank(c) < ranks0[group(c)];
      primaries := if wins then primaries0[group(c) := sym(c)] else primaries0;
      ranks := if wins then ranks0[group(c) := rank(c)] else ranks0;
      ChoiceOneMore(cs[..n], group, rank, sym, primaries0, ranks0, c, primaries, ranks);
      assert cs == cs[..n] + [c];
    }
  }

  lemma {:induction false} AvailabilityExists(ms: seq<Market>, listed: Market -> bool, sym: Market -> string,
                                              active: Market -> bool) returns (available: map<string, bool>)
    ensures IsAvailability(ms, listed, sym, active, available)
  {
    if ms == [] {
      available := map[];
    } else {
      var n := |ms| - 1;
      var before := AvailabilityExists(ms[..n], listed, sym, active);
      AvailabilityOneMore(ms[..n], listed, sym, active, before, ms[n]);
      available := if listed(ms[n]) then before[sym(ms[n]) := active(ms[n])] else before;
      assert ms == ms[..n] + [ms[n]];
    }
  }

  lemma BuildCanComplete(before: Table, exchange: string, markets: map<string, Market>, coins: seq<Coin>)
    returns (mid: Table)
    ensures Built(before, mid, exchange, markets, coins, true)
  {
    var order := OrderExists(markets.Keys);
    var cs := CandidatesBy(markets, coins, order);
    var primaries, ranks := ChoiceExists(cs, GroupKey(exchange), Rank, Symbol);
    mid := WriteAll(before, KeyOf(exchange), RowOf(exchange, primaries), cs);
    assert cs[..|cs|] == cs;
    assert BuiltWith(before, mid, exchange, coins, true, InOrder(markets, order), primaries, |cs|);
  }

  lemma ValidationCanComplete(before: Table, exchange: string, markets: map<string, Market>) returns (after: Table)
    ensures Validated(before, after, exchange, markets, true)
  {
    var order := OrderExists(markets.Keys);
    var keys := OrderExists(RowsOf(before, exchange));
    var available := AvailabilityExists(InOrder(markets, order), IsListed, SymbolOf, IsMarketActive);
    after := SetAll(before, keys, StatusOf(available));
    assert keys[..|keys|] == keys;
    assert ValidatedWith(before, after, InOrder(markets, order), true, keys, available, |keys|);
  }

  /** From every table, with any markets and coins, a sync can complete. */
  lemma SyncCanComplete(before: Table, exchange: string, markets: map<string, Market>, coins: seq<Coin>)
    returns (after: Table)
    requires exchange != ""
    ensures Synced(before, after, exchange, Some(markets), Some(coins), true)
  {
    var mid := BuildCanComplete(before, exchange, markets, coins);
    after := ValidationCanComplete(mid, exchange, markets);
  }

  // ----- Instances -----

  function SpotMarket(base: string, quote: string, symbol: string, isActive: bool): Market {
    Market(Some(true), None, Some(isActive), None, Some(base), Some(quote), Some(symbol))
  }

  /** Capital letters and slashes are normal as they stand. */
  lemma CapitalsAreNormal(s: string)
    requires forall i :: 0 <= i < |s| ==> 'A' <= s[i] <= 'Z' || s[i] == '/'
    ensures Trim(s) == s && NormalizeSymbol(s) == s
  {
  }

  lemma SpotMarketIs(base: string, quote: string, symbol: string, isActive: bool, coinBySymbol: map<string, string>)
    requires base != "" && quote != "" && symbol != ""
    requires forall i :: 0 <= i < |base| ==> 'A' <= base[i] <= 'Z' || base[i] == '/'
    requires forall i :: 0 <= i < |quote| ==> 'A' <= quote[i] <= 'Z' || quote[i] == '/'
    requires forall i :: 0 <= i < |symbol| ==> 'A' <= symbol[i] <= 'Z' || symbol[i] == '/'
    ensures var m := SpotMarket(base, quote, symbol, isActive);
            && IsListed(m) && SymbolOf(m) == symbol && IsMarketActive(m) == isActive
            && CandidateOf(coinBySymbol, m) == if base in coinBySymbol
                                               then Some(Candidate(coinBySymbol[base], symbol, base, quote)) else None
  {
    CapitalsAreNormal(base);
    CapitalsAreNormal(quote);
    CapitalsAreNormal(symbol);
  }

  lemma OneCoin(symbol: string)
    requires symbol != "" && forall i :: 0 <= i < |symbol| ==> 'A' <= symbol[i] <= 'Z' || symbol[i] == '/'
    ensures CoinBySymbol([Coin("c", symbol)]) == map[symbol := "c"]
  {
    CapitalsAreNormal(symbol);
    assert [Coin("c", symbol)][..0] == [];
    assert CoinBySymbol([]) == map[];
  }

  /** Two markets, under names that play no part. */
  function Two(a: Market, b: Market): map<string, Market> {
    map["a" := a, "b" := b]
  }

  lemma TwoDistinct(a: Market, b: Market)
    requires IsListed(a) && IsListed(b) && SymbolOf(a) != SymbolOf(b)
    ensures DistinctListed(Two(a, b))
  {
  }

  /** A primary row whose market is listed as active but is no candidate stays an active primary, beside the
      coin's new one, so a completed sync leaves two. */
  lemma StaleRowLeavesTwo(exchange: string, a: Market, b: Market, coins: seq<Coin>, c: Candidate, row: Row)
    returns (after: Table)
    requires NormalizeExchange(exchange) == exchange != ""
    requires IsListed(a) && IsListed(b) && SymbolOf(a) != SymbolOf(b) && IsMarketActive(a) && IsMarketActive(b)
    requires CandidateOf(CoinBySymbol(coins), a).None? && CandidateOf(CoinBySymbol(coins), b) == Some(c)
    requires row.isPrimary && row.coinID == Trim(c.coinID)
    ensures Synced(map[RowKey(exchange, SymbolOf(a)) := row], after, exchange, Some(Two(a, b)), Some(coins), true)
    ensures !AtMostOnePrimary(after, exchange)
  {
    var k := RowKey(exchange, SymbolOf(a));
    var before, markets := map[k := row], Two(a, b);
    after := SyncCanComplete(before, exchange, markets, coins);
    var mid, t := CompletedTrace(before, after, exchange, Some(markets), Some(coins));
    TwoDistinct(a, b);
    StaleRowClashes(exchange, a, b, coins, c, before, k, t.order);
    OnePrimaryIff(before, mid, after, exchange, markets, coins, t);
  }

  lemma StaleRowClashes(exchange: string, a: Market, b: Market, coins: seq<Coin>, c: Candidate, before: Table,
                        k: RowKey, order: seq<string>)
    requires IsListed(a) && IsMarketActive(a) && IsMarketActive(b) && DistinctListed(Two(a, b))
    requires CandidateOf(CoinBySymbol(coins), a).None? && CandidateOf(CoinBySymbol(coins), b) == Some(c)
    requires k in before && k == RowKey(exchange, SymbolOf(a)) && IsOrder(order, Two(a, b).Keys)
    requires before[k].isPrimary && before[k].coinID == Trim(c.coinID)
    ensures !NoClash(before, exchange, Two(a, b), coins, CandidatesBy(Two(a, b), coins, order))
  {
    var markets, cs, coinID := Two(a, b), CandidatesBy(Two(a, b), coins, order), before[k].coinID;
    assert ActiveListing(markets, "a", k.symbol);
    var i := NameHasCandidate(markets, coins, order, "b");
    OnlyCandidateIsChosen(a, b, coins, order, i, exchange);
    assert IsFresh(exchange, markets, coins, cs, i, "b");
    assert StaleFor(before, exchange, markets, coins, k, coinID);
    assert FreshFor(exchange, markets, coins, cs, KeyOf(exchange)(cs[i]), coinID);
  }

  /** The only candidate is the chosen one. */
  lemma OnlyCandidateIsChosen(a: Market, b: Market, coins: seq<Coin>, order: seq<string>, i: nat, exchange: string)
    requires IsOrder(order, Two(a, b).Keys) && DistinctListed(Two(a, b))
    requires CandidateOf(CoinBySymbol(coins), a).None?
    requires IsCandidateOf(Two(a, b), coins, CandidatesBy(Two(a, b), coins, order), i, "b")
    ensures IsChosen(CandidatesBy(Two(a, b), coins, order), GroupKey(exchange), Rank, i)
  {
    var cs := CandidatesBy(Two(a, b), coins, order);
    KeysOfBuildDistinct(exchange, Two(a, b), coins, order);
    forall j | 0 <= j < |cs|
      ensures cs[j] == cs[i] && j == i
    {
      var name := CandidateHasName(Two(a, b), coins, order, j);
      assert name == "a" || name == "b";
      assert Symbol(cs[i]) == Symbol(cs[j]);
    }
  }

  /** A coin whose first choice by quote is a listed but inactive market ends a completed sync without any active
      primary row, though the row of its other market is active. */
  lemma InactiveFirstChoice(exchange: string, a: Market, b: Market, coins: seq<Coin>, c: Candidate, d: Candidate)
    returns (after: Table)
    requires NormalizeExchange(exchange) == exchange != ""
    requires IsListed(a) && IsListed(b) && SymbolOf(a) != SymbolOf(b) && !IsMarketActive(a) && IsMarketActive(b)
    requires CandidateOf(CoinBySymbol(coins), a) == Some(c) && CandidateOf(CoinBySymbol(coins), b) == Some(d)
    requires c.coinID == d.coinID && Rank(c) < Rank(d)
    ensures Synced(map[], after, exchange, Some(Two(a, b)), Some(coins), true)
    ensures forall k :: !ActivePrimary(after, k, exchange, Trim(c.coinID))
    ensures var k := RowKey(exchange, SymbolOf(b));
            k in after && after[k].coinID == Trim(c.coinID) && after[k].status == Active
  {
    var markets := Two(a, b);
    after := SyncCanComplete(map[], exchange, markets, coins);
    var mid, t := CompletedTrace(map[], after, exchange, Some(markets), Some(coins));
    TwoDistinct(a, b);
    var i := NameHasCandidate(markets, coins, t.order, "a");
    LesserRankIsChosen(a, b, coins, t.order, i, exchange);
    forall k
      ensures !ActivePrimary(after, k, exchange, Trim(c.coinID))
    {
      InactiveChoiceLeavesNoPrimary(map[], mid, after, exchange, markets, coins, t, i, "a", k);
    }
    OtherRowIsActive(exchange, a, b, coins, mid, after, t);
  }

  lemma LesserRankIsChosen(a: Market, b: Market, coins: seq<Coin>, order: seq<string>, i: nat, exchange: string)
    requires IsOrder(order, Two(a, b).Keys) && DistinctListed(Two(a, b))
    requires CandidateOf(CoinBySymbol(coins), b).Some?
    requires IsCandidateOf(Two(a, b), coins, CandidatesBy(Two(a, b), coins, order), i, "a")
    requires Rank(CandidatesBy(Two(a, b), coins, order)[i]) < Rank(CandidateOf(CoinBySymbol(coins), b).value)
    ensures IsChosen(CandidatesBy(Two(a, b), coins, order), GroupKey(exchange), Rank, i)
  {
    var cs := CandidatesBy(Two(a, b), coins, order);
    KeysOfBuildDistinct(exchange, Two(a, b), coins, order);
    forall j | 0 <= j < |cs|
      ensures Rank(cs[i]) < Rank(cs[j]) || j == i
    {
      var name := CandidateHasName(Two(a, b), coins, order, j);
      assert name == "a" || name == "b";
      if name == "a" {
        assert Symbol(cs[i]) == Symbol(cs[j]);
      }
    }
  }

  lemma OtherRowIsActive(exchange: string, a: Market, b: Market, coins: seq<Coin>, mid: Table, after: Table, t: Trace)
    requires NormalizeExchange(exchange) == exchange && DistinctListed(Two(a, b)) && IsListed(b) && IsMarketActive(b)
    requires CompletedBy(map[], mid, after, exchange, Two(a, b), coins, t)
    requires CandidateOf(CoinBySymbol(coins), b).Some?
    ensures var k := RowKey(exchange, SymbolOf(b));
            && k in after && after[k].coinID == Trim(CandidateOf(CoinBySymbol(coins), b).value.coinID)
            && after[k].status == Active
  {
    var markets := Two(a, b);
    var cs, vs := CandidatesBy(markets, coins, t.order), InOrder(markets, t.visited);
    var j := NameHasCandidate(markets, coins, t.order, "b");
    KeysOfBuildDistinct(exchange, markets, coins, t.order);
    CandidateRow(map[], mid, after, exchange, cs, t.primaries, vs, t.keys, t.available, j);
    CandidateOfMarket(CoinBySymbol(coins), b);
    assert ActiveListing(markets, "b", SymbolOf(b));
    ActiveIffListed(markets, t.visited, t.available, RowKey(exchange, SymbolOf(b)));
  }

  lemma ShortNames()
    ensures NormalizeExchange("e") == "e" && Trim("c") == "c"
  {
  }

  /** What is needed of a market: listed under its symbol, and a candidate if the catalogue has its base. */
  ghost predicate Reads(m: Market, symbol: string, isActive: bool, coinBySymbol: map<string, string>,
                        c: Option<Candidate>) {
    IsListed(m) && SymbolOf(m) == symbol && IsMarketActive(m) == isActive && CandidateOf(coinBySymbol, m) == c
  }

  const ROW_SYMBOL := "F/U"
  const OTHER_SYMBOL := "B/U"

  lemma StaleMarkets() returns (a: Market, b: Market)
    ensures a == SpotMarket("F", "U", ROW_SYMBOL, true) && b == SpotMarket("B", "U", OTHER_SYMBOL, true)
    ensures Reads(a, ROW_SYMBOL, true, map["B" := "c"], None)
    ensures Reads(b, OTHER_SYMBOL, true, map["B" := "c"], Some(Candidate("c", OTHER_SYMBOL, "B", "U")))
  {
    a, b := SpotMarket("F", "U", ROW_SYMBOL, true), SpotMarket("B", "U", OTHER_SYMBOL, true);
    SpotMarketIs("F", "U", ROW_SYMBOL, true, map["B" := "c"]);
    SpotMarketIs("B", "U", OTHER_SYMBOL, true, map["B" := "c"]);
  }

  /** An instance of a clash: coin c holds the primary row F/U of a base that the catalogue does not list, and its
      new market B/U is listed beside it. */
  lemma StaleRowInstance() returns (a: Market, b: Market, after: Table)
    ensures a == SpotMarket("F", "U", ROW_SYMBOL, true) && b == SpotMarket("B", "U", OTHER_SYMBOL, true)
    ensures Synced(map[RowKey("e", ROW_SYMBOL) := Row("c", "F", "U", Active, true)], after, "e",
                   Some(Two(a, b)), Some([Coin("c", "B")]), true)
    ensures !AtMostOnePrimary(after, "e")
  {
    ShortNames();
    OneCoin("B");
    a, b := StaleMarkets();
    after := StaleRowLeavesTwo("e", a, b, [Coin("c", "B")], Candidate("c", OTHER_SYMBOL, "B", "U"),
                               Row("c", "F", "U", Active, true));
  }

  lemma QuietMarkets() returns (a: Market, b: Market)
    ensures a == SpotMarket("F", "USDT", "F/U", false) && b == SpotMarket("F", "BTC", "F/B", true)
    ensures Reads(a, "F/U", false, map["F" := "c"], Some(Candidate("c", "F/U", "F", "USDT")))
    ensures Reads(b, "F/B", true, map["F" := "c"], Some(Candidate("c", "F/B", "F", "BTC")))
  {
    a, b := SpotMarket("F", "USDT", "F/U", false), SpotMarket("F", "BTC", "F/B", true);
    SpotMarketIs("F", "USDT", "F/U", false, map["F" := "c"]);
    SpotMarketIs("F", "BTC", "F/B", true, map["F" := "c"]);
  }

  lemma QuietRanks()
    ensures Rank(Candidate("c", "F/U", "F", "USDT")) == 0 && Rank(Candidate("c", "F/B", "F", "BTC")) == 3
  {
    CapitalsAreNormal("USDT");
    CapitalsAreNormal("BTC");
  }

  /** An instance of a coin without a primary: F/U, quoted in USDT, is listed but inactive, and F/B, quoted in BTC,
      is active. */
  lemma InactiveChoiceInstance() returns (a: Market, b: Market, after: Table)
    ensures a == SpotMarket("F", "USDT", "F/U", false) && b == SpotMarket("F", "BTC", "F/B", true)
    ensures Synced(map[], after, "e", Some(Two(a, b)), Some([Coin("c", "F")]), true)
    ensures forall k :: !ActivePrimary(after, k, "e", "c")
    ensures var k := RowKey("e", "F/B"); k in after && after[k].coinID == "c" && after[k].status == Active
  {
    ShortNames();
    OneCoin("F");
    a, b := QuietMarkets();
    QuietRanks();
    after := InactiveFirstChoice("e", a, b, [Coin("c", "F")], Candidate("c", "F/U", "F", "USDT"),
                                 Candidate("c", "F/B", "F", "BTC"));
  }
}
