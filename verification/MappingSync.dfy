/** Building and validating exchange symbol mappings (engine/market/mapping, engine/market/mapping_sync.go). */
module MappingSync {
  import opened Text
  import opened Iteration

  /** What the exchange library reports about a market; absent fields are None. */
  datatype Market = Market(spot: Option<bool>, contract: Option<bool>, active: Option<bool>, kind: Option<string>,
                           base: Option<string>, quote: Option<string>, symbol: Option<string>)

  datatype Coin = Coin(coinID: string, symbol: string)

  datatype Candidate = Candidate(coinID: string, symbol: string, base: string, quote: string)

  datatype Status = Active | Delisted | Other

  datatype RowKey = RowKey(exchange: string, symbol: string)

  datatype Row = Row(coinID: string, base: string, quote: string, status: Status, isPrimary: bool)

  /** The mapping table, keyed by its unique exchange and symbol. */
  type Table = map<RowKey, Row>

  function TextOf(s: Option<string>): string {
    if s.Some? then s.value else ""
  }

  function UpperOf(s: Option<string>): string {
    NormalizeSymbol(TextOf(s))
  }

  predicate IsSpotMarket(m: Market) {
    if m.spot.Some? then m.spot.value
    else m.contract != Some(true) && m.active != Some(false)
  }

  predicate IsMarketActive(m: Market) {
    if m.active.Some? then m.active.value
    else m.kind.None? || NormalizeExchange(m.kind.value) == "spot"
  }

  function QuotePriority(quote: string): nat {
    match NormalizeSymbol(quote)
    case "USDT" => 0
    case "USDC" => 1
    case "BUSD" => 2
    case "BTC" => 3
    case "ETH" => 4
    case _ => 100
  }

  /** The row symbol of a market. */
  function SymbolOf(m: Market): string {
    UpperOf(m.symbol)
  }

  // ----- Candidates -----

  /** The first coin listed for each symbol. */
  function CoinBySymbol(coins: seq<Coin>): map<string, string> {
    if coins == [] then map[]
    else
      var before := CoinBySymbol(coins[..|coins| - 1]);
      var c := coins[|coins| - 1];
      var symbol := NormalizeSymbol(c.symbol);
      if symbol == "" || symbol in before then before else before[symbol := c.coinID]
  }

  function CandidateOf(coinBySymbol: map<string, string>, m: Market): Option<Candidate> {
    var base, quote, symbol := UpperOf(m.base), UpperOf(m.quote), Trim(TextOf(m.symbol));
    if !IsSpotMarket(m) || base == "" || quote == "" || symbol == "" || base !in coinBySymbol then None
    else Some(Candidate(coinBySymbol[base], symbol, base, quote))
  }

  function CandidatesOf(coinBySymbol: map<string, string>, ms: seq<Market>): seq<Candidate> {
    if ms == [] then []
    else
      var c := CandidateOf(coinBySymbol, ms[|ms| - 1]);
      CandidatesOf(coinBySymbol, ms[..|ms| - 1]) + if c.Some? then [c.value] else []
  }

  // ----- Choosing the primary of each group -----

  function GroupKey(exchange: string): Candidate -> string {
    (c: Candidate) => Lower(Trim(c.coinID)) + ":" + NormalizeExchange(exchange)
  }

  function Symbol(c: Candidate): string {
    NormalizeSymbol(c.symbol)
  }

  function Rank(c: Candidate): nat {
    QuotePriority(c.quote)
  }

  /** `i` is the first candidate of its group with the least rank among `cs`. */
  ghost predicate IsChosen(cs: seq<Candidate>, group: Candidate -> string, rank: Candidate -> nat, i: nat) {
    && i < |cs|
    && forall j :: 0 <= j < |cs| && group(cs[j]) == group(cs[i]) ==>
                     rank(cs[i]) < rank(cs[j]) || (rank(cs[i]) == rank(cs[j]) && i <= j)
  }

  /** Candidate `i` is the chosen one of group `g`. */
  ghost predicate Wins(cs: seq<Candidate>, group: Candidate -> string, rank: Candidate -> nat, i: nat, g: string) {
    IsChosen(cs, group, rank, i) && group(cs[i]) == g
  }

  /** Every group present is mapped to the symbol of its chosen candidate, and no other. */
  ghost predicate IsChoice(cs: seq<Candidate>, group: Candidate -> string, rank: Candidate -> nat,
                           sym: Candidate -> string, primaries: map<string, string>) {
    && (forall i :: 0 <= i < |cs| ==> group(cs[i]) in primaries)
    && (forall g :: g in primaries ==> exists i: nat :: Wins(cs, group, rank, i, g) && primaries[g] == sym(cs[i]))
  }

  /** What the loop over the candidates knows: the choice so far, and the rank that won it. */
  ghost predicate IsChoiceWithRanks(cs: seq<Candidate>, group: Candidate -> string, rank: Candidate -> nat,
                                    sym: Candidate -> string, primaries: map<string, string>, ranks: map<string, nat>) {
    && IsChoice(cs, group, rank, sym, primaries)
    && primaries.Keys == ranks.Keys
    && (forall i: nat, g :: Wins(cs, group, rank, i, g) ==> g in ranks && ranks[g] == rank(cs[i]))
  }

  /** A chosen candidate stays chosen unless the next one of its group has a smaller rank. */
  lemma WinnerStays(cs: seq<Candidate>, group: Candidate -> string, rank: Candidate -> nat, c: Candidate, i: nat,
                    g: string)
    requires Wins(cs, group, rank, i, g)
    ensures Wins(cs + [c], group, rank, i, g) <==> (group(c) == g ==> rank(cs[i]) <= rank(c))
  {
    var cs' := cs + [c];
    assert cs'[i] == cs[i] && cs'[|cs|] == c;
  }

  lemma NewWinner(cs: seq<Candidate>, group: Candidate -> string, rank: Candidate -> nat, sym: Candidate -> string,
                  primaries: map<string, string>, ranks: map<string, nat>, c: Candidate)
    requires IsChoiceWithRanks(cs, group, rank, sym, primaries, ranks)
    ensures Wins(cs + [c], group, rank, |cs|, group(c)) <==> (group(c) !in ranks || rank(c) < ranks[group(c)])
  {
    var cs' := cs + [c];
    if group(c) in primaries {
      var i: nat :| Wins(cs, group, rank, i, group(c)) && primaries[group(c)] == sym(cs[i]);
      assert cs'[i] == cs[i];
    }
  }

  /** A winner among one more candidate is the new one or won before. */
  lemma WinnerIsNewOrOld(cs: seq<Candidate>, group: Candidate -> string, rank: Candidate -> nat, c: Candidate, i: nat,
                         g: string)
    requires Wins(cs + [c], group, rank, i, g)
    ensures i == |cs| || Wins(cs, group, rank, i, g)
  {
    var cs' := cs + [c];
    assert forall j :: 0 <= j < |cs| ==> cs'[j] == cs[j];
  }

  /** One more candidate updates the maps as the loop body does. */
  ghost predicate TakesCandidate(group: Candidate -> string, rank: Candidate -> nat, sym: Candidate -> string,
                                 primaries: map<string, string>, ranks: map<string, nat>, c: Candidate,
                                 primaries': map<string, string>, ranks': map<string, nat>) {
    if group(c) !in ranks || rank(c) < ranks[group(c)]
    then primaries' == primaries[group(c) := sym(c)] && ranks' == ranks[group(c) := rank(c)]
    else primaries' == primaries && ranks' == ranks
  }

  lemma SymbolsOneMore(cs: seq<Candidate>, group: Candidate -> string, rank: Candidate -> nat,
                       sym: Candidate -> string, primaries: map<string, string>, ranks: map<string, nat>, c: Candidate,
                       primaries': map<string, string>, ranks': map<string, nat>)
    requires IsChoiceWithRanks(cs, group, rank, sym, primaries, ranks)
    requires TakesCandidate(group, rank, sym, primaries, ranks, c, primaries', ranks')
    ensures IsChoice(cs + [c], group, rank, sym, primaries')
  {
    var cs' := cs + [c];
    NewWinner(cs, group, rank, sym, primaries, ranks, c);
    forall g | g in primaries'
      ensures exists i: nat :: Wins(cs', group, rank, i, g) && primaries'[g] == sym(cs'[i])
    {
      if primaries' != primaries && g == group(c) {
        assert Wins(cs', group, rank, |cs|, g) && cs'[|cs|] == c;
      } else {
        var i: nat :| Wins(cs, group, rank, i, g) && primaries[g] == sym(cs[i]);
        WinnerStays(cs, group, rank, c, i, g);
        assert cs'[i] == cs[i];
      }
    }
  }

  lemma RanksOneMore(cs: seq<Candidate>, group: Candidate -> string, rank: Candidate -> nat,
                     sym: Candidate -> string, primaries: map<string, string>, ranks: map<string, nat>, c: Candidate,
                     primaries': map<string, string>, ranks': map<string, nat>, i: nat, g: string)
    requires IsChoiceWithRanks(cs, group, rank, sym, primaries, ranks)
    requires TakesCandidate(group, rank, sym, primaries, ranks, c, primaries', ranks')
    requires Wins(cs + [c], group, rank, i, g)
    ensures g in ranks' && ranks'[g] == rank((cs + [c])[i])
  {
    NewWinner(cs, group, rank, sym, primaries, ranks, c);
    WinnerIsNewOrOld(cs, group, rank, c, i, g);
    if i < |cs| {
      WinnerStays(cs, group, rank, c, i, g);
    }
  }

  lemma ChoiceOneMore(cs: seq<Candidate>, group: Candidate -> string, rank: Candidate -> nat,
                      sym: Candidate -> string, primaries: map<string, string>, ranks: map<string, nat>, c: Candidate,
                      primaries': map<string, string>, ranks': map<string, nat>)
    requires IsChoiceWithRanks(cs, group, rank, sym, primaries, ranks)
    requires TakesCandidate(group, rank, sym, primaries, ranks, c, primaries', ranks')
    ensures IsChoiceWithRanks(cs + [c], group, rank, sym, primaries', ranks')
  {
    SymbolsOneMore(cs, group, rank, sym, primaries, ranks, c, primaries', ranks');
    forall i: nat, g | Wins(cs + [c], group, rank, i, g)
      ensures g in ranks' && ranks'[g] == rank((cs + [c])[i])
    {
      RanksOneMore(cs, group, rank, sym, primaries, ranks, c, primaries', ranks', i, g);
    }
  }

  method ChoosePrimaryMappings(exchange: string, cs: seq<Candidate>) returns (primaries: map<string, string>)
    ensures IsChoice(cs, GroupKey(exchange), Rank, Symbol, primaries)
  {
    primaries := Choose(cs, GroupKey(exchange), Rank, Symbol);
  }

  method Choose(cs: seq<Candidate>, group: Candidate -> string, rank: Candidate -> nat, sym: Candidate -> string)
    returns (primaries: map<string, string>)
    ensures IsChoice(cs, group, rank, sym, primaries)
  {
    primaries := map[];
    var ranks: map<string, nat> := map[];
    ghost var seen := [];
    for i := 0 to |cs|
      invariant seen == cs[..i]
      invariant IsChoiceWithRanks(seen, group, rank, sym, primaries, ranks)
    {
      var c := cs[i];
      ghost var primaries0, ranks0 := primaries, ranks;
      if group(c) !in ranks || rank(c) < ranks[group(c)] {
        ranks := ranks[group(c) := rank(c)];
        primaries := primaries[group(c) := sym(c)];
      }
      ChoiceOneMore(seen, group, rank, sym, primaries0, ranks0, c, primaries, ranks);
      seen := seen + [c];
    }
    assert seen == cs;
  }

  ghost predicate DistinctSymbols(cs: seq<Candidate>, sym: Candidate -> string) {
    forall i, j :: 0 <= i < j < |cs| ==> sym(cs[i]) != sym(cs[j])
  }

  /** With distinct symbols, the candidates whose symbol is their group's choice are exactly the chosen ones. */
  lemma MarkedIffChosen(cs: seq<Candidate>, group: Candidate -> string, rank: Candidate -> nat,
                        sym: Candidate -> string, primaries: map<string, string>, i: nat)
    requires IsChoice(cs, group, rank, sym, primaries) && DistinctSymbols(cs, sym) && i < |cs|
    ensures primaries[group(cs[i])] == sym(cs[i]) <==> IsChosen(cs, group, rank, i)
  {
    var k: nat :| Wins(cs, group, rank, k, group(cs[i])) && primaries[group(cs[i])] == sym(cs[k]);
  }

  lemma ChosenUnique(cs: seq<Candidate>, group: Candidate -> string, rank: Candidate -> nat, i: nat, j: nat)
    requires IsChosen(cs, group, rank, i) && IsChosen(cs, group, rank, j) && group(cs[i]) == group(cs[j])
    ensures i == j
  {
  }

  /** With distinct symbols every group present has exactly one marked candidate, its first of least rank. */
  lemma ExactlyOneMarked(cs: seq<Candidate>, group: Candidate -> string, rank: Candidate -> nat,
                         sym: Candidate -> string, primaries: map<string, string>, g: string) returns (i: nat)
    requires IsChoice(cs, group, rank, sym, primaries) && DistinctSymbols(cs, sym)
    requires exists j :: 0 <= j < |cs| && group(cs[j]) == g
    ensures IsChosen(cs, group, rank, i) && group(cs[i]) == g && g in primaries
    ensures forall j :: 0 <= j < |cs| && group(cs[j]) == g ==> (primaries[g] == sym(cs[j]) <==> j == i)
  {
    i :| Wins(cs, group, rank, i, g) && primaries[g] == sym(cs[i]);
    forall j | 0 <= j < |cs| && group(cs[j]) == g
      ensures primaries[g] == sym(cs[j]) <==> j == i
    {
      assert j != i ==> sym(cs[j]) != sym(cs[i]);
    }
  }

  // ----- Writing the candidates -----

  /** The symbol chosen for the candidate's group is the candidate's own. */
  function Marked(exchange: string, primaries: map<string, string>): Candidate -> bool {
    (c: Candidate) => var g := GroupKey(exchange)(c); g in primaries && primaries[g] == Symbol(c)
  }

  function RowOf(exchange: string, primaries: map<string, string>): Candidate -> Row {
    (c: Candidate) => ActiveRow(c, Marked(exchange, primaries)(c))
  }

  function ActiveRow(c: Candidate, isPrimary: bool): Row {
    Row(Trim(c.coinID), NormalizeSymbol(c.base), NormalizeSymbol(c.quote), Active, isPrimary)
  }

  function KeyOf(exchange: string): Candidate -> RowKey {
    (c: Candidate) => RowKey(NormalizeExchange(exchange), NormalizeSymbol(c.symbol))
  }

  /** The table after the upsert of each candidate in turn. */
  function WriteAll(table: Table, key: Candidate -> RowKey, row: Candidate -> Row, cs: seq<Candidate>): Table {
    if cs == [] then table
    else WriteAll(table, key, row, cs[..|cs| - 1])[key(cs[|cs| - 1]) := row(cs[|cs| - 1])]
  }

  function SetStatus(table: Table, k: RowKey, status: Status): Table {
    if k in table then table[k := table[k].(status := status)] else table
  }

  /** The table after setting the status of each key in turn. */
  function SetAll(table: Table, keys: seq<RowKey>, status: RowKey -> Status): Table {
    if keys == [] then table
    else SetStatus(SetAll(table, keys[..|keys| - 1], status), keys[|keys| - 1], status(keys[|keys| - 1]))
  }

  ghost predicate Writes(cs: seq<Candidate>, key: Candidate -> RowKey, i: nat, k: RowKey) {
    i < |cs| && key(cs[i]) == k
  }

  ghost predicate DistinctKeys(cs: seq<Candidate>, key: Candidate -> RowKey) {
    forall i, j :: 0 <= i < j < |cs| ==> key(cs[i]) != key(cs[j])
  }

  /** Upserts leave alone the rows they do not name. */
  lemma {:induction false} WriteAllElsewhere(table: Table, key: Candidate -> RowKey, row: Candidate -> Row,
                                             cs: seq<Candidate>, k: RowKey)
    requires forall i: nat :: !Writes(cs, key, i, k)
    ensures k in WriteAll(table, key, row, cs) <==> k in table
    ensures k in table ==> WriteAll(table, key, row, cs)[k] == table[k]
  {
    if cs == [] {
    } else {
      var before := cs[..|cs| - 1];
      forall i: nat
        ensures !Writes(before, key, i, k)
      {
        assert !Writes(cs, key, i, k);
      }
      WriteAllElsewhere(table, key, row, before, k);
      assert !Writes(cs, key, |cs| - 1, k);
    }
  }

  /** Upserts under distinct keys all last. */
  lemma {:induction false} WriteAllLasts(table: Table, key: Candidate -> RowKey, row: Candidate -> Row,
                                         cs: seq<Candidate>, i: nat)
    requires DistinctKeys(cs, key) && i < |cs|
    ensures key(cs[i]) in WriteAll(table, key, row, cs) && WriteAll(table, key, row, cs)[key(cs[i])] == row(cs[i])
  {
    if i < |cs| - 1 {
      WriteAllLasts(table, key, row, cs[..|cs| - 1], i);
    }
  }

  /** Status updates keep the keys and every other column. */
  lemma {:induction false} SetAllAt(table: Table, keys: seq<RowKey>, status: RowKey -> Status, k: RowKey)
    ensures k in SetAll(table, keys, status) <==> k in table
    ensures k in table ==> SetAll(table, keys, status)[k]
                             == if k in keys then table[k].(status := status(k)) else table[k]
  {
    if keys == [] {
    } else {
      var before := keys[..|keys| - 1];
      SetAllAt(table, before, status, k);
      assert keys == before + [keys[|keys| - 1]];
    }
  }

  /** A spot market with a symbol. */
  predicate IsListed(m: Market) {
    IsSpotMarket(m) && SymbolOf(m) != ""
  }

  /** The listed markets' symbols, each with the activity of some market that has it. */
  ghost predicate IsAvailability(ms: seq<Market>, listed: Market -> bool, sym: Market -> string, active: Market -> bool,
                                 available: map<string, bool>) {
    && (forall i :: 0 <= i < |ms| && listed(ms[i]) ==> sym(ms[i]) in available)
    && (forall s :: s in available ==>
                      exists i :: 0 <= i < |ms| && listed(ms[i]) && sym(ms[i]) == s && active(ms[i]) == available[s])
  }

  function StatusOf(available: map<string, bool>): RowKey -> Status {
    (k: RowKey) => if k.symbol in available && available[k.symbol] then Active else Delisted
  }

  // ----- Specifications of the three calls -----

  /** What a build counts: markets written, passed over, and of a base that the catalogue does not list. */
  datatype BuildResult = BuildResult(matched: nat, skipped: nat, unmatched: nat)

  datatype ValidationResult = ValidationResult(active: nat, delisted: nat, validated: nat)

  const NOTHING_BUILT := BuildResult(0, 0, 0)
  const NOTHING_VALIDATED := ValidationResult(0, 0, 0)

  /** A build that visits the markets in the given order and writes its first `n` candidates. */
  ghost predicate BuiltWith(before: Table, after: Table, exchange: string, coins: seq<Coin>, done: bool,
                            ms: seq<Market>, primaries: map<string, string>, n: nat) {
    var cs := CandidatesOf(CoinBySymbol(coins), ms);
    && IsChoice(cs, GroupKey(exchange), Rank, Symbol, primaries)
    && n <= |cs| && done == (n == |cs|)
    && after == WriteAll(before, KeyOf(exchange), RowOf(exchange, primaries), cs[..n])
  }

  ghost predicate Built(before: Table, after: Table, exchange: string, markets: map<string, Market>, coins: seq<Coin>,
                        done: bool) {
    exists order, primaries, n :: IsOrder(order, markets.Keys)
                                  && BuiltWith(before, after, exchange, coins, done, InOrder(markets, order),
                                               primaries, n)
  }

  /** A validation that visits the markets and the keys in the given orders and updates the first `n` keys. */
  ghost predicate ValidatedWith(before: Table, after: Table, ms: seq<Market>, done: bool,
                                keys: seq<RowKey>, available: map<string, bool>, n: nat) {
    && IsAvailability(ms, IsListed, SymbolOf, IsMarketActive, available)
    && n <= |keys| && (done ==> n == |keys|)
    && after == SetAll(before, keys[..n], StatusOf(available))
  }

  ghost predicate Validated(before: Table, after: Table, exchange: string, markets: map<string, Market>, done: bool) {
    exists order, keys, available, n ::
      IsOrder(order, markets.Keys) && IsOrder(keys, RowsOf(before, exchange))
      && ValidatedWith(before, after, InOrder(markets, order), done, keys, available, n)
  }

  /** The market is no spot market or lacks a field. */
  predicate IsPassedOver(m: Market) {
    !CountsAsSpot(m) || !IsGiven(m.base) || !IsGiven(m.quote) || !IsGiven(m.symbol)
  }

  function CountPassedOver(ms: seq<Market>): nat {
    if ms == [] then 0 else CountPassedOver(ms[..|ms| - 1]) + if IsPassedOver(ms[|ms| - 1]) then 1 else 0
  }

  /** The counts of a completed build; the markets that are neither written nor passed over have an unlisted base. */
  predicate AreBuildCounts(ms: seq<Market>, matched: nat, done: bool, result: BuildResult) {
    if done then
      && result.matched == matched && result.skipped == CountPassedOver(ms)
      && result.matched + result.skipped + result.unmatched == |ms|
    else result == NOTHING_BUILT
  }

  /** A build with its counts, of which at most `writable` writes can work. */
  ghost predicate BuildOutcome(before: Table, after: Table, exchange: string, markets: map<string, Market>,
                               coins: seq<Coin>, writable: nat, done: bool, result: BuildResult) {
    exists order, primaries, n: nat :: IsOrder(order, markets.Keys)
                                       && BuiltWith(before, after, exchange, coins, done, InOrder(markets, order),
                                                    primaries, n)
                                       && n <= writable && (done || n == writable)
                                       && AreBuildCounts(InOrder(markets, order), n, done, result)
  }

  /** The counts of a completed validation. */
  predicate AreValidationCounts(keys: seq<RowKey>, available: map<string, bool>, done: bool, result: ValidationResult) {
    var active := CountActive(keys, StatusOf(available));
    if done then active <= |keys| && result == ValidationResult(active, |keys| - active, |keys|)
    else result == NOTHING_VALIDATED
  }

  /** A validation with its counts; it can update at most `writable` rows, none when they cannot be listed. */
  ghost predicate ValidationOutcome(before: Table, after: Table, exchange: string, markets: map<string, Market>,
                                    listable: bool, writable: nat, done: bool, result: ValidationResult) {
    exists order, keys, available, n: nat ::
      IsOrder(order, markets.Keys) && IsOrder(keys, RowsOf(before, exchange))
      && ValidatedWith(before, after, InOrder(markets, order), done, keys, available, n)
      && n <= (if listable then writable else 0)
      && (if done then listable else !listable || n == writable < |keys|)
      && AreValidationCounts(keys, available, done, result)
  }

  /** A sync with its counts. */
  ghost predicate SyncOutcome(before: Table, after: Table, exchange: string, markets: Option<map<string, Market>>,
                              coins: Option<seq<Coin>>, buildable: nat, listable: bool, validatable: nat, done: bool,
                              build: BuildResult, validation: ValidationResult) {
    if exchange == "" || markets.None? || coins.None? then
      after == before && !done && build == NOTHING_BUILT && validation == NOTHING_VALIDATED
    else exists mid, built, counted ::
        && BuildOutcome(before, mid, exchange, markets.value, coins.value, buildable, built, counted)
        && (if built
            then ValidationOutcome(mid, after, exchange, markets.value, listable, validatable, done, validation)
            else after == mid && !done && validation == NOTHING_VALIDATED)
        && build == if done then counted else NOTHING_BUILT
  }

  /** A sync: a build and, if it completed, a validation; an unreadable input or a blank exchange leaves
      the table alone. */
  ghost predicate Synced(before: Table, after: Table, exchange: string, markets: Option<map<string, Market>>,
                         coins: Option<seq<Coin>>, done: bool) {
    if exchange == "" || markets.None? || coins.None? then after == before && !done
    else exists mid, built :: Built(before, mid, exchange, markets.value, coins.value, built)
                              && if built then Validated(mid, after, exchange, markets.value, done)
                                 else after == mid && !done
  }

  function RowsOf(table: Table, exchange: string): set<RowKey> {
    set k | k in table && k.exchange == NormalizeExchange(exchange)
  }

  function CountActive(keys: seq<RowKey>, status: RowKey -> Status): nat {
    if keys == [] then 0
    else CountActive(keys[..|keys| - 1], status) + if status(keys[|keys| - 1]) == Active then 1 else 0
  }

  class Service {
    var table: Table

    constructor ()
      ensures table == map[]
    {
      table := map[];
    }

    /** Inserts the row, or overwrites the one with its exchange and symbol. */
    method UpsertMapping(k: RowKey, row: Row)
      modifies this
      ensures table == old(table)[k := row]
    {
      table := table[k := row];
    }

    /** Upserts the candidates, under the keys and as the rows given, until the write after the first
        `writable` ones fails. */
    method UpsertCandidates(key: Candidate -> RowKey, row: Candidate -> Row, cs: seq<Candidate>, writable: nat)
      returns (ok: bool, ghost n: nat)
      modifies this
      ensures n <= |cs| && ok == (n == |cs|) && n <= writable && (ok || n == writable)
      ensures table == WriteAll(old(table), key, row, cs[..n])
    {
      var i := 0;
      while i < |cs| && i < writable
        invariant 0 <= i <= |cs| && i <= writable
        invariant table == WriteAll(old(table), key, row, cs[..i])
      {
        UpsertMapping(key(cs[i]), row(cs[i]));
        assert cs[..i + 1][..i] == cs[..i];
        i := i + 1;
      }
      n := i;
      ok := i == |cs|;
    }

    /** Builds mappings from the markets, visited in arbitrary order; the counts of a completed build add up to
        the markets. */
    method BuildFromMarkets(exchange: string, markets: map<string, Market>, coins: seq<Coin>, writable: nat)
      returns (ok: bool, result: BuildResult)
      modifies this
      ensures Built(old(table), table, exchange, markets, coins, ok)
      ensures BuildOutcome(old(table), table, exchange, markets, coins, writable, ok, result)
    {
      var coinBySymbol := IndexCoins(coins);
      var order := IterationOrder(markets.Keys);
      var ms := InOrder(markets, order);
      var candidates, skipped, unmatched := CollectCandidates(coinBySymbol, ms);
      var primaries := ChoosePrimaryMappings(exchange, candidates);
      ghost var n;
      ok, n := UpsertCandidates(KeyOf(exchange), RowOf(exchange, primaries), candidates, writable);
      assert BuiltWith(old(table), table, exchange, coins, ok, ms, primaries, n);
      result := if ok then BuildResult(|candidates|, skipped, unmatched) else NOTHING_BUILT;
      assert AreBuildCounts(ms, n, ok, result);
    }

    method SetMappingStatus(k: RowKey, status: Status)
      modifies this
      ensures table == SetStatus(old(table), k, status)
    {
      if k in table {
        table := table[k := table[k].(status := status)];
      }
    }

    /** Updates the status of each row until the update after the first `writable` ones fails, counting the
        active ones. */
    method UpdateStatuses(keys: seq<RowKey>, available: map<string, bool>, writable: nat)
      returns (ok: bool, active: nat, ghost n: nat)
      modifies this
      ensures n <= |keys| && ok == (n == |keys|) && n <= writable && (ok || n == writable)
      ensures table == SetAll(old(table), keys[..n], StatusOf(available))
      ensures active == CountActive(keys[..n], StatusOf(available)) <= n
    {
      var i := 0;
      active := 0;
      while i < |keys| && i < writable
        invariant 0 <= i <= |keys| && i <= writable
        invariant table == SetAll(old(table), keys[..i], StatusOf(available))
        invariant active == CountActive(keys[..i], StatusOf(available)) <= i
      {
        var isActive := keys[i].symbol in available && available[keys[i].symbol];
        SetMappingStatus(keys[i], if isActive then Active else Delisted);
        assert keys[..i + 1][..i] == keys[..i];
        if isActive {
          active := active + 1;
        }
        i := i + 1;
      }
      n := i;
      ok := i == |keys|;
    }

    /** Sets the status of every row that the exchange had, until an update fails; the counts of a completed
        validation add up to those rows. */
    method ValidateExchangeMarkets(exchange: string, markets: map<string, Market>, listable: bool, writable: nat)
      returns (ok: bool, result: ValidationResult)
      modifies this
      ensures Validated(old(table), table, exchange, markets, ok)
      ensures ValidationOutcome(old(table), table, exchange, markets, listable, writable, ok, result)
    {
      var order := IterationOrder(markets.Keys);
      var ms := InOrder(markets, order);
      var available := CollectAvailable(ms, IsListed, SymbolOf, IsMarketActive);
      var keys := IterationOrder(RowsOf(table, exchange));
      var active: nat;
      ghost var n;
      ok, active, n := UpdateStatuses(keys, available, if listable then writable else 0);
      ok := ok && listable;
      assert ValidatedWith(old(table), table, ms, ok, keys, available, n);
      assert keys[..|keys|] == keys;
      result := if ok then ValidationResult(active, |keys| - active, |keys|) else NOTHING_VALIDATED;
    }

    /** Builds, then validates. */
    method SyncExchange(rawExchange: string, markets: Option<map<string, Market>>, coins: Option<seq<Coin>>,
                        buildable: nat, listable: bool, validatable: nat)
      returns (done: bool, build: BuildResult, validation: ValidationResult)
      modifies this
      ensures Synced(old(table), table, NormalizeExchange(rawExchange), markets, coins, done)
      ensures SyncOutcome(old(table), table, NormalizeExchange(rawExchange), markets, coins, buildable, listable,
                          validatable, done, build, validation)
    {
      var exchange := NormalizeExchange(rawExchange);
      if exchange == "" || markets.None? || coins.None? {
        return false, NOTHING_BUILT, NOTHING_VALIDATED;
      }
      var built;
      built, build := BuildFromMarkets(exchange, markets.value, coins.value, buildable);
      ghost var mid, counted := table, build;
      assert BuildOutcome(old(table), mid, exchange, markets.value, coins.value, buildable, built, counted);
      if !built {
        return false, NOTHING_BUILT, NOTHING_VALIDATED;
      }
      done, validation := ValidateExchangeMarkets(exchange, markets.value, listable, validatable);
      assert Built(old(table), mid, exchange, markets.value, coins.value, built);
      if !done {
        build := NOTHING_BUILT;
      }
    }
  }

  method IndexCoins(coins: seq<Coin>) returns (r: map<string, string>)
    ensures r == CoinBySymbol(coins)
  {
    r := map[];
    for i := 0 to |coins|
      invariant r == CoinBySymbol(coins[..i])
    {
      assert coins[..i + 1][..i] == coins[..i];
      var symbol := NormalizeSymbol(coins[i].symbol);
      if symbol != "" && symbol !in r {
        r := r[symbol := coins[i].coinID];
      }
    }
    assert coins[..|coins|] == coins;
  }

  /** Collects the candidates; every market becomes one, is passed over, or has an unlisted base. */
  method CollectCandidates(coinBySymbol: map<string, string>, ms: seq<Market>)
    returns (cs: seq<Candidate>, skipped: nat, unmatched: nat)
    ensures cs == CandidatesOf(coinBySymbol, ms)
    ensures |cs| + skipped + unmatched == |ms| && skipped == CountPassedOver(ms)
  {
    cs, skipped, unmatched := [], 0, 0;
    for i := 0 to |ms|
      invariant cs == CandidatesOf(coinBySymbol, ms[..i])
      invariant |cs| + skipped + unmatched == i && skipped == CountPassedOver(ms[..i])
    {
      assert ms[..i + 1][..i] == ms[..i];
      var m := ms[i];
      PassedOverIff(m);
      if !IsSpotMarket(m) {
        skipped := skipped + 1;
        continue;
      }
      var base, quote, symbol := UpperOf(m.base), UpperOf(m.quote), Trim(TextOf(m.symbol));
      if base == "" || quote == "" || symbol == "" {
        skipped := skipped + 1;
        continue;
      }
      if base !in coinBySymbol {
        unmatched := unmatched + 1;
        continue;
      }
      cs := cs + [Candidate(coinBySymbol[base], symbol, base, quote)];
    }
    assert ms[..|ms|] == ms;
  }

  method CollectAvailable(ms: seq<Market>, listed: Market -> bool, sym: Market -> string, active: Market -> bool)
    returns (available: map<string, bool>)
    ensures IsAvailability(ms, listed, sym, active, available)
  {
    available := map[];
    for i := 0 to |ms|
      invariant IsAvailability(ms[..i], listed, sym, active, available)
    {
      assert ms[..i + 1] == ms[..i] + [ms[i]];
      AvailabilityOneMore(ms[..i], listed, sym, active, available, ms[i]);
      if !listed(ms[i]) {
        continue;
      }
      available := available[sym(ms[i]) := active(ms[i])];
    }
    assert ms[..|ms|] == ms;
  }

  lemma AvailabilityOneMore(ms: seq<Market>, listed: Market -> bool, sym: Market -> string, active: Market -> bool,
                            available: map<string, bool>, m: Market)
    requires IsAvailability(ms, listed, sym, active, available)
    ensures IsAvailability(ms + [m], listed, sym, active,
                           if listed(m) then available[sym(m) := active(m)] else available)
  {
    var ms' := ms + [m];
    var available' := if listed(m) then available[sym(m) := active(m)] else available;
    forall s | s in available'
      ensures exists i :: 0 <= i < |ms'| && listed(ms'[i]) && sym(ms'[i]) == s && active(ms'[i]) == available'[s]
    {
      if listed(m) && s == sym(m) {
        assert ms'[|ms|] == m;
      } else {
        var i :| 0 <= i < |ms| && listed(ms[i]) && sym(ms[i]) == s && active(ms[i]) == available[s];
        assert ms'[i] == ms[i];
      }
    }
  }

  // ----- How markets, coins and quotes are read -----

  /** A market is taken for spot when it says so, or when it says neither that nor being a contract nor inactive. */
  predicate CountsAsSpot(m: Market) {
    m.spot == Some(true) || (m.spot.None? && m.contract != Some(true) && m.active != Some(false))
  }

  predicate IsGiven(text: Option<string>) {
    text.Some? && Trim(text.value) != ""
  }

  lemma GivenIff(text: Option<string>)
    ensures IsGiven(text) <==> UpperOf(text) != ""
    ensures text.Some? ==> UpperOf(text) == Upper(Trim(text.value))
  {
    assert Trim("") == "";
  }

  lemma PassedOverIff(m: Market)
    ensures IsPassedOver(m) <==>
            !IsSpotMarket(m) || UpperOf(m.base) == "" || UpperOf(m.quote) == "" || Trim(TextOf(m.symbol)) == ""
  {
    GivenIff(m.base);
    GivenIff(m.quote);
    assert Trim("") == "";
  }

  /** The first coin whose symbol is this one, up to case and white space at the ends. */
  ghost predicate IsFirstCoin(coins: seq<Coin>, symbol: string, i: nat) {
    && i < |coins| && Upper(Trim(coins[i].symbol)) == symbol
    && forall j :: 0 <= j < i ==> Upper(Trim(coins[j].symbol)) != symbol
  }

  /** With one coin more, the first coin of a symbol is the one before, or the new one when there was none. */
  lemma FirstOneMore(coins: seq<Coin>, before: seq<Coin>, symbol: string, i: nat)
    requires coins != [] && before == coins[..|coins| - 1]
    ensures IsFirstCoin(coins, symbol, i) <==>
            IsFirstCoin(before, symbol, i)
            || (i == |before| && Upper(Trim(coins[i].symbol)) == symbol
                && forall j :: 0 <= j < i ==> Upper(Trim(before[j].symbol)) != symbol)
  {
    assert forall j :: 0 <= j < |before| ==> before[j] == coins[j];
  }

  /** The symbol stands for the first coin listed under it, and a blank one for none. */
  ghost predicate FirstWins(coins: seq<Coin>, index: map<string, string>, symbol: string) {
    && (symbol in index ==> symbol != "" && exists i: nat :: IsFirstCoin(coins, symbol, i)
                                                             && index[symbol] == coins[i].coinID)
    && (symbol !in index && symbol != "" ==>
          forall j :: 0 <= j < |coins| ==> Upper(Trim(coins[j].symbol)) != symbol)
  }

  lemma {:induction false} FirstCoinWins(coins: seq<Coin>, symbol: string)
    ensures FirstWins(coins, CoinBySymbol(coins), symbol)
  {
    if coins == [] {
    } else {
      var n := |coins| - 1;
      FirstCoinWins(coins[..n], symbol);
      OneCoinMore(coins, coins[..n], CoinBySymbol(coins[..n]), symbol);
    }
  }

  lemma OneCoinMore(coins: seq<Coin>, before: seq<Coin>, index: map<string, string>, symbol: string)
    requires coins != [] && before == coins[..|coins| - 1] && FirstWins(before, index, symbol)
    ensures var c := coins[|before|];
            var key := Upper(Trim(c.symbol));
            FirstWins(coins, if key == "" || key in index then index else index[key := c.coinID], symbol)
  {
    assert forall j :: 0 <= j < |before| ==> before[j] == coins[j];
    if symbol in index {
      var i: nat :| IsFirstCoin(before, symbol, i) && index[symbol] == before[i].coinID;
      FirstOneMore(coins, before, symbol, i);
    } else if symbol == Upper(Trim(coins[|before|].symbol)) && symbol != "" {
      FirstOneMore(coins, before, symbol, |before|);
    }
  }

  /** A market becomes a candidate if and only if it counts as spot, gives base, quote and symbol, and its base is some
      coin's symbol; the candidate names the first such coin. */
  lemma CandidateIff(coins: seq<Coin>, m: Market)
    ensures CandidateOf(CoinBySymbol(coins), m).Some? <==>
            && CountsAsSpot(m) && IsGiven(m.base) && IsGiven(m.quote) && IsGiven(m.symbol)
            && exists j :: 0 <= j < |coins| && Upper(Trim(coins[j].symbol)) == Upper(Trim(m.base.value))
    ensures CandidateOf(CoinBySymbol(coins), m).Some? ==>
              var c := CandidateOf(CoinBySymbol(coins), m).value;
              && c.symbol == Trim(m.symbol.value) && c.base == Upper(Trim(m.base.value))
              && c.quote == Upper(Trim(m.quote.value))
              && exists i: nat :: IsFirstCoin(coins, c.base, i) && c.coinID == coins[i].coinID
  {
    GivenIff(m.base);
    GivenIff(m.quote);
    GivenIff(m.symbol);
    assert Trim("") == "";
    FirstCoinWins(coins, UpperOf(m.base));
  }

  /** A market counts as active when it says so, or says nothing and is of the spot kind or of none. */
  lemma ActiveIff(m: Market)
    ensures IsMarketActive(m) <==>
            m.active == Some(true)
            || (m.active.None? && (m.kind.None? || Lower(Trim(m.kind.value)) == "spot"))
  {
  }

  /** A market is available to the validation when it counts as spot and gives a symbol. */
  lemma ListedIff(m: Market)
    ensures IsListed(m) <==> CountsAsSpot(m) && IsGiven(m.symbol)
    ensures IsListed(m) ==> SymbolOf(m) == Upper(Trim(m.symbol.value))
  {
    GivenIff(m.symbol);
  }

  const PREFERRED_QUOTES := ["USDT", "USDC", "BUSD", "BTC", "ETH"]

  /** `text` is listed, and `other` neither before nor at its place. */
  ghost predicate ComesBefore(listed: seq<string>, text: string, other: string) {
    exists i :: 0 <= i < |listed| && text == listed[i] && forall j :: 0 <= j <= i ==> other != listed[j]
  }

  /** When ranks are places in a list, and all that is not listed ranks behind, ranking is coming before. */
  lemma RanksAsListed(listed: seq<string>, text: string, other: string, m: nat, n: nat)
    requires forall i :: 0 <= i < |listed| ==> (text == listed[i] <==> m == i) && (other == listed[i] <==> n == i)
    requires (m < |listed| || m == 100) && (n < |listed| || n == 100) && |listed| < 100
    ensures m < n <==> ComesBefore(listed, text, other)
  {
    if m < n {
      assert text == listed[m] && forall j :: 0 <= j <= m ==> other != listed[j];
    }
    assert n < |listed| ==> other == listed[n];
  }

  /** Quotes rank as the list of preferred ones does, all others together behind them. */
  lemma QuotesRank(a: Candidate, b: Candidate)
    ensures Rank(a) < Rank(b) <==> ComesBefore(PREFERRED_QUOTES, Upper(Trim(a.quote)), Upper(Trim(b.quote)))
  {
    RankIsPlace(a);
    RankIsPlace(b);
    RanksAsListed(PREFERRED_QUOTES, Upper(Trim(a.quote)), Upper(Trim(b.quote)), Rank(a), Rank(b));
  }

  lemma RankIsPlace(c: Candidate)
    ensures forall i :: 0 <= i < |PREFERRED_QUOTES| ==>
                          (Upper(Trim(c.quote)) == PREFERRED_QUOTES[i] <==> Rank(c) == i)
    ensures Rank(c) < |PREFERRED_QUOTES| || Rank(c) == 100
  {
  }
}
