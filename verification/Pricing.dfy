/** The price of a coin at a time: the best ranked exchange with a usable candle (engine/news/impact/price.go). */
module Pricing {
  import opened Text

  datatype Item = Item(exchange: string, symbol: string, isPrimary: bool)

  /** What reading an exchange's candle at or before the wanted time gives. */
  datatype Quote = NoCandle | ReadFails | Candle(symbol: string, close: real, timestamp: int)

  datatype Result = Sample(exchange: string, symbol: string, price: real, timestamp: int)
                  | CoinRequired | ListFailed | ReadFailed | NotFound

  // ----- Ranking -----

  function ExchangePriority(exchange: string): nat {
    match NormalizeExchange(exchange)
    case "binance" => 0
    case "bybit" => 1
    case "okx" => 2
    case "kucoin" => 3
    case "gateio" => 4
    case "kraken" => 5
    case "mexc" => 6
    case "htx" => 7
    case _ => 100
  }

  datatype Rank = Rank(isPrimary: bool, priority: nat, symbol: string)

  function RankOf(item: Item): Rank {
    Rank(item.isPrimary, ExchangePriority(item.exchange), NormalizeSymbol(item.symbol))
  }

  /** Primaries come first, then preferred exchanges, then symbols in byte order. */
  predicate RankLess(a: Rank, b: Rank) {
    if a.isPrimary != b.isPrimary then a.isPrimary
    else if a.priority != b.priority then a.priority < b.priority
    else Precedes(a.symbol, b.symbol)
  }

  predicate Less(a: Item, b: Item) {
    RankLess(RankOf(a), RankOf(b))
  }

  ghost predicate IsStrictOrder<T(!new)>(less: (T, T) -> bool) {
    && (forall a :: !less(a, a))
    && (forall a, b, c :: less(a, b) && less(b, c) ==> less(a, c))
  }

  lemma RankOrder(a: Rank, b: Rank, c: Rank)
    ensures !RankLess(a, a)
    ensures RankLess(a, b) && RankLess(b, c) ==> RankLess(a, c)
  {
    PrecedesTotal(a.symbol, a.symbol);
    if Precedes(a.symbol, b.symbol) && Precedes(b.symbol, c.symbol) {
      PrecedesTransitive(a.symbol, b.symbol, c.symbol);
    }
  }

  lemma LessIsStrictOrder()
    ensures IsStrictOrder(Less)
  {
    forall a: Item, b: Item, c: Item
      ensures !Less(a, a)
      ensures Less(a, b) && Less(b, c) ==> Less(a, c)
    {
      RankOrder(RankOf(a), RankOf(b), RankOf(c));
    }
  }

  // ----- One mapping for each exchange -----

  /** Item `i` stands for its exchange: the first primary with its key or, without a primary, the first. */
  ghost predicate Represents(items: seq<Item>, key: Item -> string, i: nat) {
    && i < |items|
    && (forall j :: 0 <= j < i && key(items[j]) == key(items[i]) ==> items[i].isPrimary && !items[j].isPrimary)
    && (!items[i].isPrimary ==> forall j :: 0 <= j < |items| && key(items[j]) == key(items[i]) ==> !items[j].isPrimary)
  }

  ghost predicate StandsFor(items: seq<Item>, key: Item -> string, i: nat, k: string, item: Item) {
    Represents(items, key, i) && key(items[i]) == k && items[i] == item
  }

  ghost predicate IsRepresentative(items: seq<Item>, key: Item -> string, k: string, item: Item) {
    exists i: nat :: StandsFor(items, key, i, k, item)
  }

  /** Each key present maps to its representative; `order` lists the keys, each once. */
  ghost predicate IsUnique(items: seq<Item>, key: Item -> string, unique: map<string, Item>, order: seq<string>) {
    && (forall i :: 0 <= i < |items| ==> key(items[i]) in unique)
    && (forall k :: k in unique ==> IsRepresentative(items, key, k, unique[k]))
    && (forall k :: k in unique <==> k in order)
    && (forall m, n :: 0 <= m < n < |order| ==> order[m] != order[n])
  }

  lemma RepresentativeStays(items: seq<Item>, key: Item -> string, i: nat, k: string, held: Item, item: Item)
    requires StandsFor(items, key, i, k, held)
    requires key(item) == k && !held.isPrimary ==> !item.isPrimary
    ensures StandsFor(items + [item], key, i, k, held)
  {
    var items' := items + [item];
    assert items'[i] == items[i] && items'[|items|] == item;
  }

  lemma PrimaryTakesOver(items: seq<Item>, key: Item -> string, i: nat, held: Item, item: Item)
    requires StandsFor(items, key, i, key(item), held) && !held.isPrimary && item.isPrimary
    ensures StandsFor(items + [item], key, |items|, key(item), item)
  {
    assert (items + [item])[i] == items[i];
  }

  lemma UniqueOneMore(items: seq<Item>, key: Item -> string, unique: map<string, Item>, order: seq<string>, item: Item,
                      unique': map<string, Item>, order': seq<string>)
    requires IsUnique(items, key, unique, order)
    requires if key(item) !in unique then unique' == unique[key(item) := item] && order' == order + [key(item)]
             else
               && order' == order
               && unique' == if !unique[key(item)].isPrimary && item.isPrimary then unique[key(item) := item]
                             else unique
    ensures IsUnique(items + [item], key, unique', order')
  {
    var items' := items + [item];
    forall k | k in unique'
      ensures IsRepresentative(items', key, k, unique'[k])
    {
      if k !in unique {
        assert StandsFor(items', key, |items|, k, item);
      } else {
        var i: nat :| StandsFor(items, key, i, k, unique[k]);
        if k == key(item) && !unique[k].isPrimary && item.isPrimary {
          PrimaryTakesOver(items, key, i, unique[k], item);
        } else {
          RepresentativeStays(items, key, i, k, unique[k], item);
        }
      }
    }
  }

  /** The representatives of the keys in `order`, which lists every key present once. */
  ghost predicate IsDeduped(items: seq<Item>, key: Item -> string, order: seq<string>, out: seq<Item>) {
    && |out| == |order|
    && (forall n :: 0 <= n < |out| ==> IsRepresentative(items, key, order[n], out[n]))
    && (forall i :: 0 <= i < |items| ==> key(items[i]) in order)
    && (forall m, n :: 0 <= m < n < |order| ==> order[m] != order[n])
  }

  method DedupeByExchange(items: seq<Item>, key: Item -> string) returns (out: seq<Item>)
    ensures exists keys :: IsDeduped(items, key, keys, out)
  {
    var unique: map<string, Item> := map[];
    var order: seq<string> := [];
    ghost var seen := [];
    for i := 0 to |items|
      invariant seen == items[..i] && IsUnique(seen, key, unique, order)
    {
      var item := items[i];
      ghost var unique0, order0 := unique, order;
      if key(item) !in unique {
        unique := unique[key(item) := item];
        order := order + [key(item)];
      } else if !unique[key(item)].isPrimary && item.isPrimary {
        unique := unique[key(item) := item];
      }
      UniqueOneMore(seen, key, unique0, order0, item, unique, order);
      seen := seen + [item];
    }
    assert seen == items;
    out := seq(|order|, n requires 0 <= n < |order| && order[n] in unique => unique[order[n]]);
    assert IsDeduped(items, key, order, out);
  }

  // ----- Sorting -----

  ghost predicate SortedBy<T>(less: (T, T) -> bool, xs: seq<T>) {
    forall i, j :: 0 <= i < j < |xs| ==> !less(xs[j], xs[i])
  }

  /** Sorts with no promise about the order of ties. */
  method Sort<T(==,!new)>(xs: seq<T>, less: (T, T) -> bool) returns (ys: seq<T>)
    requires IsStrictOrder(less)
    ensures multiset(ys) == multiset(xs) && SortedBy(less, ys)
  {
    ys := [];
    for i := 0 to |xs|
      invariant multiset(ys) == multiset(xs[..i]) && SortedBy(less, ys)
    {
      assert xs[..i + 1] == xs[..i] + [xs[i]];
      ys := Insert(ys, less, xs[i]);
    }
    assert xs[..|xs|] == xs;
  }

  method Insert<T(==,!new)>(ys: seq<T>, less: (T, T) -> bool, x: T) returns (zs: seq<T>)
    requires IsStrictOrder(less) && SortedBy(less, ys)
    ensures multiset(zs) == multiset(ys) + multiset{x} && SortedBy(less, zs)
  {
    var k := 0;
    while k < |ys| && !less(x, ys[k])
      invariant 0 <= k <= |ys| && forall j :: 0 <= j < k ==> !less(x, ys[j])
    {
      k := k + 1;
    }
    zs := ys[..k] + [x] + ys[k..];
    InsertedIsSorted(ys, less, x, k);
    InsertedElements(ys, x, k);
  }

  /** An element put behind those it does not precede and before one it precedes keeps the order. */
  lemma InsertedIsSorted<T(!new)>(ys: seq<T>, less: (T, T) -> bool, x: T, k: nat)
    requires IsStrictOrder(less) && SortedBy(less, ys) && k <= |ys|
    requires (forall j :: 0 <= j < k ==> !less(x, ys[j])) && (k < |ys| ==> less(x, ys[k]))
    ensures SortedBy(less, ys[..k] + [x] + ys[k..])
  {
    forall j | k <= j < |ys|
      ensures !less(ys[j], x)
    {
      assert less(x, ys[k]);
      assert j == k || !less(ys[j], ys[k]);
    }
  }

  lemma InsertedElements<T>(ys: seq<T>, x: T, k: nat)
    requires k <= |ys|
    ensures multiset(ys[..k] + [x] + ys[k..]) == multiset(ys) + multiset{x}
  {
    assert ys == ys[..k] + ys[k..];
  }

  // ----- The price -----

  /** Reading this quote ends the search: it fails, or it has a positive close. */
  predicate Decides(q: Quote) {
    q.ReadFails? || (q.Candle? && q.close > 0.0)
  }

  function ResultOf(item: Item, q: Quote): Result
    requires Decides(q)
  {
    if q.ReadFails? then ReadFailed else Sample(NormalizeExchange(item.exchange), q.symbol, q.close, q.timestamp)
  }

  /** The representative `i` of its exchange has a deciding quote. */
  ghost predicate IsContender(items: seq<Item>, key: Item -> string, quote: string -> Quote, i: nat) {
    Represents(items, key, i) && Decides(quote(items[i].exchange))
  }

  /** No contender ranks before contender `i`. */
  ghost predicate IsWinner(items: seq<Item>, key: Item -> string, less: (Item, Item) -> bool, quote: string -> Quote,
                           i: nat) {
    && IsContender(items, key, quote, i)
    && forall j: nat :: IsContender(items, key, quote, j) ==> !less(items[j], items[i])
  }

  /** The result is a winner's quote; without contenders there is no price. */
  ghost predicate IsPrice(items: seq<Item>, key: Item -> string, less: (Item, Item) -> bool, quote: string -> Quote,
                          r: Result) {
    || (exists i: nat :: IsWinner(items, key, less, quote, i) && r == ResultOf(items[i], quote(items[i].exchange)))
    || (r == NotFound && forall i: nat :: !IsContender(items, key, quote, i))
  }

  const EXCHANGE_KEY: Item -> string := (item: Item) => NormalizeExchange(item.exchange)

  /** Resolves the price of a coin from its listed mappings, if the listing works. */
  method Resolve(rawCoinID: string, listing: Option<seq<Item>>, quote: string -> Quote) returns (r: Result)
    ensures if Trim(rawCoinID) == "" then r == CoinRequired
            else if listing.None? then r == ListFailed
            else IsPrice(listing.value, EXCHANGE_KEY, Less, quote, r)
  {
    if Trim(rawCoinID) == "" {
      return CoinRequired;
    }
    if listing.None? {
      return ListFailed;
    }
    var items := listing.value;
    var out := DedupeByExchange(items, EXCHANGE_KEY);
    ghost var keys :| IsDeduped(items, EXCHANGE_KEY, keys, out);
    LessIsStrictOrder();
    var sorted := Sort(out, Less);
    r := FirstPrice(items, EXCHANGE_KEY, Less, keys, out, sorted, quote);
  }

  method FirstPrice(ghost items: seq<Item>, ghost key: Item -> string, ghost less: (Item, Item) -> bool,
                    ghost keys: seq<string>, ghost out: seq<Item>, sorted: seq<Item>, quote: string -> Quote)
    returns (r: Result)
    requires IsDeduped(items, key, keys, out) && multiset(sorted) == multiset(out) && SortedBy(less, sorted)
    requires IsStrictOrder(less)
    ensures IsPrice(items, key, less, quote, r)
  {
    for n := 0 to |sorted|
      invariant forall m :: 0 <= m < n ==> !Decides(quote(sorted[m].exchange))
    {
      var q := quote(sorted[n].exchange);
      if q.NoCandle? {
        continue;
      }
      if q.ReadFails? {
        FirstIsWinner(items, key, less, keys, out, sorted, quote, n);
        return ReadFailed;
      }
      if q.close <= 0.0 {
        continue;
      }
      FirstIsWinner(items, key, less, keys, out, sorted, quote, n);
      return Sample(NormalizeExchange(sorted[n].exchange), q.symbol, q.close, q.timestamp);
    }
    forall i: nat
      ensures !IsContender(items, key, quote, i)
    {
      if Represents(items, key, i) {
        var m := RepresentativeIsListed(items, key, keys, out, sorted, i);
      }
    }
    return NotFound;
  }

  /** Two representatives with one key are the same. */
  lemma RepresentativeUnique(items: seq<Item>, key: Item -> string, i: nat, j: nat)
    requires Represents(items, key, i) && Represents(items, key, j) && key(items[i]) == key(items[j])
    ensures i == j
  {
  }

  lemma RepresentativeIsListed(items: seq<Item>, key: Item -> string, keys: seq<string>, out: seq<Item>,
                               sorted: seq<Item>, i: nat) returns (m: nat)
    requires IsDeduped(items, key, keys, out) && multiset(sorted) == multiset(out) && Represents(items, key, i)
    ensures m < |sorted| && sorted[m] == items[i]
  {
    var n :| 0 <= n < |keys| && keys[n] == key(items[i]);
    assert IsRepresentative(items, key, keys[n], out[n]);
    var j: nat :| StandsFor(items, key, j, keys[n], out[n]);
    RepresentativeUnique(items, key, i, j);
    assert out[n] in multiset(out);
    assert items[i] in multiset(sorted);
    m :| 0 <= m < |sorted| && sorted[m] == items[i];
  }

  /** The first deciding quote in a sorted order is not outranked by any contender. */
  lemma NotOutranked(items: seq<Item>, key: Item -> string, less: (Item, Item) -> bool, keys: seq<string>,
                     out: seq<Item>, sorted: seq<Item>, quote: string -> Quote, n: nat, j: nat)
    requires IsDeduped(items, key, keys, out) && multiset(sorted) == multiset(out) && SortedBy(less, sorted)
    requires IsStrictOrder(less)
    requires n < |sorted| && forall m :: 0 <= m < n ==> !Decides(quote(sorted[m].exchange))
    requires IsContender(items, key, quote, j)
    ensures !less(items[j], sorted[n])
  {
    var m := RepresentativeIsListed(items, key, keys, out, sorted, j);
  }

  lemma ListedIsRepresentative(items: seq<Item>, key: Item -> string, keys: seq<string>, out: seq<Item>,
                               sorted: seq<Item>, n: nat) returns (i: nat)
    requires IsDeduped(items, key, keys, out) && multiset(sorted) == multiset(out) && n < |sorted|
    ensures Represents(items, key, i) && items[i] == sorted[n]
  {
    assert sorted[n] in multiset(sorted);
    assert sorted[n] in multiset(out);
    var l :| 0 <= l < |out| && out[l] == sorted[n];
    assert IsRepresentative(items, key, keys[l], out[l]);
    i :| StandsFor(items, key, i, keys[l], out[l]);
  }

  lemma FirstIsWinner(items: seq<Item>, key: Item -> string, less: (Item, Item) -> bool, keys: seq<string>,
                      out: seq<Item>, sorted: seq<Item>, quote: string -> Quote, n: nat)
    requires IsDeduped(items, key, keys, out) && multiset(sorted) == multiset(out) && SortedBy(less, sorted)
    requires IsStrictOrder(less)
    requires n < |sorted| && Decides(quote(sorted[n].exchange))
    requires forall m :: 0 <= m < n ==> !Decides(quote(sorted[m].exchange))
    ensures exists i: nat :: IsWinner(items, key, less, quote, i) && items[i] == sorted[n]
  {
    var i := ListedIsRepresentative(items, key, keys, out, sorted, n);
    forall j: nat | IsContender(items, key, quote, j)
      ensures !less(items[j], items[i])
    {
      NotOutranked(items, key, less, keys, out, sorted, quote, n, j);
    }
    assert IsWinner(items, key, less, quote, i);
  }

  // ----- What the price is -----

  /** Two contenders never rank equally. */
  ghost predicate NoTies(items: seq<Item>, key: Item -> string, less: (Item, Item) -> bool, quote: string -> Quote) {
    forall i: nat, j: nat :: IsContender(items, key, quote, i) && IsContender(items, key, quote, j) && i != j ==>
                               less(items[i], items[j]) || less(items[j], items[i])
  }

  /** Without ties the result does not depend on how the sort orders them. */
  lemma PriceDetermined(items: seq<Item>, key: Item -> string, less: (Item, Item) -> bool, quote: string -> Quote,
                        r: Result, s: Result)
    requires IsPrice(items, key, less, quote, r) && IsPrice(items, key, less, quote, s)
    requires NoTies(items, key, less, quote)
    ensures r == s
  {
    if i: nat :| IsWinner(items, key, less, quote, i) && r == ResultOf(items[i], quote(items[i].exchange)) {
      if j: nat :| IsWinner(items, key, less, quote, j) && s == ResultOf(items[j], quote(items[j].exchange)) {
        assert IsContender(items, key, quote, i) && IsContender(items, key, quote, j);
      }
    }
  }

  /** The price comes from a primary mapping whenever some exchange's primary mapping has a deciding quote. */
  lemma PrimaryPriceFirst(items: seq<Item>, key: Item -> string, quote: string -> Quote, i: nat, j: nat)
    requires IsWinner(items, key, Less, quote, i) && IsContender(items, key, quote, j) && items[j].isPrimary
    ensures items[i].isPrimary
  {
    assert !Less(items[j], items[i]);
  }

  // ----- The ranking and the sample, spelled out -----

  const PREFERRED := ["binance", "bybit", "okx", "kucoin", "gateio", "kraken", "mexc", "htx"]

  /** The exchange is listed among the preferred ones, and the other not before or at its place. */
  ghost predicate IsPreferred(exchange: string, other: string) {
    exists i :: 0 <= i < |PREFERRED| && exchange == PREFERRED[i] && forall j :: 0 <= j <= i ==> other != PREFERRED[j]
  }

  lemma PriorityIsPlace(exchange: string)
    ensures forall i :: 0 <= i < |PREFERRED| ==>
                          (Lower(Trim(exchange)) == PREFERRED[i] <==> ExchangePriority(exchange) == i)
    ensures ExchangePriority(exchange) < |PREFERRED| || ExchangePriority(exchange) == 100
  {
  }

  lemma PriorityIff(a: string, b: string)
    ensures ExchangePriority(a) < ExchangePriority(b) <==> IsPreferred(Lower(Trim(a)), Lower(Trim(b)))
  {
    PriorityIsPlace(a);
    PriorityIsPlace(b);
    PlaceBefore(Lower(Trim(a)), Lower(Trim(b)), ExchangePriority(a), ExchangePriority(b), PREFERRED);
  }

  lemma PlaceBefore(a: string, b: string, m: nat, n: nat, listed: seq<string>)
    requires forall i :: 0 <= i < |listed| ==> (a == listed[i] <==> m == i) && (b == listed[i] <==> n == i)
    requires (m < |listed| || m == 100) && (n < |listed| || n == 100) && |listed| < 100
    ensures m < n <==>
            exists i :: 0 <= i < |listed| && a == listed[i] && forall j :: 0 <= j <= i ==> b != listed[j]
  {
    if m < n {
      assert a == listed[m] && forall j :: 0 <= j <= m ==> b != listed[j];
    }
    assert n < |listed| ==> b == listed[n];
  }

  /** One mapping goes before another when only it is primary; else when its exchange is preferred; else, with neither
      preferred to the other, when its symbol comes first in upper case. */
  lemma LessIff(a: Item, b: Item)
    ensures var x, y := Lower(Trim(a.exchange)), Lower(Trim(b.exchange));
            Less(a, b) <==>
            || (a.isPrimary && !b.isPrimary)
            || (a.isPrimary == b.isPrimary
                && (IsPreferred(x, y)
                    || (!IsPreferred(y, x) && Precedes(Upper(Trim(a.symbol)), Upper(Trim(b.symbol))))))
  {
    PriorityIff(a.exchange, b.exchange);
    PriorityIff(b.exchange, a.exchange);
  }

  /** A sample is the positive close, symbol and time of a candle quoted for a listed mapping's exchange; there is no
      price only when no exchange's representative has a failing read or a positive close. */
  lemma SampleIsQuoted(items: seq<Item>, less: (Item, Item) -> bool, quote: string -> Quote, r: Result)
    requires IsPrice(items, EXCHANGE_KEY, less, quote, r)
    ensures r.Sample? ==>
              && r.price > 0.0
              && exists i: nat :: Represents(items, EXCHANGE_KEY, i) && r.exchange == Lower(Trim(items[i].exchange))
                                  && quote(items[i].exchange) == Quote.Candle(r.symbol, r.price, r.timestamp)
    ensures r == ReadFailed ==>
              exists i: nat :: Represents(items, EXCHANGE_KEY, i) && quote(items[i].exchange).ReadFails?
    ensures r == NotFound ==>
              forall i: nat :: Represents(items, EXCHANGE_KEY, i) ==>
                                 var q := quote(items[i].exchange); q.NoCandle? || (q.Candle? && q.close <= 0.0)
    ensures r.Sample? || r == ReadFailed || r == NotFound
  {
    if r == NotFound {
      forall i: nat | Represents(items, EXCHANGE_KEY, i)
        ensures var q := quote(items[i].exchange); q.NoCandle? || (q.Candle? && q.close <= 0.0)
      {
        assert !IsContender(items, EXCHANGE_KEY, quote, i);
      }
    } else {
      var i: nat :| IsWinner(items, EXCHANGE_KEY, less, quote, i)
                    && r == ResultOf(items[i], quote(items[i].exchange));
      assert Represents(items, EXCHANGE_KEY, i);
    }
  }
}
