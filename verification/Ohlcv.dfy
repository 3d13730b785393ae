/** Incremental candle synchronisation (engine/market/ohlcv): one call reads the newest stored
    timestamp of a series, refetches from there and upserts what the exchange answered. */
module Ohlcv {
  import opened Text

  /** Go's zero time in Unix milliseconds. */
  const ZERO_TIME: int := -62135596800000

  datatype Prices = Prices(open: real, high: real, low: real, close: real, volume: real)

  /** One candle as the exchange reports it. */
  datatype RawCandle = RawCandle(timestamp: int, prices: Prices)

  datatype Candle = Candle(timestamp: int, coinID: string, exchange: string, symbol: string, timeframe: string,
                           prices: Prices, isClosed: bool)

  datatype SyncRequest = SyncRequest(coinID: string, exchange: string, timeframe: string, since: int, limit: int)

  datatype Series = Series(coinID: string, exchange: string, timeframe: string)

  /** The conflict target of the ohlcv table. */
  datatype RowKey = RowKey(time: int, series: Series)

  datatype Row = Row(symbol: string, prices: Prices, isClosed: bool)

  type Table = map<RowKey, Row>

  datatype Error = LatestFailed | MissingFields | Unresolved | PollFailed
                   | UnsupportedTimeframe | ZeroTimestamp | UpsertFailed

  datatype Result<+T> = Ok(value: T) | Err(error: Error)

  /** What the outside world answers during one call: whether the timestamp query works, the resolved
      symbol, the exchange, the clock, and how many statements of the upsert batch take effect. */
  datatype Env = Env(latestOk: bool, symbol: Option<string>,
                     poll: (string, string, string, int, int) -> Option<seq<RawCandle>>, now: int, written: nat)

  /** The length of each supported timeframe in milliseconds. */
  const TIMEFRAMES: map<string, int> :=
    map["1m" := 60000, "5m" := 5 * 60000, "15m" := 15 * 60000, "1h" := 3600000, "4h" := 4 * 3600000,
        "1d" := 24 * 3600000, "1w" := 7 * 24 * 3600000]

  function TimeframeDuration(timeframe: string): (r: Result<int>)
    ensures r.Ok? ==> r.value > 0
  {
    var key := NormalizeExchange(timeframe);
    if key in TIMEFRAMES then Ok(TIMEFRAMES[key]) else Err(UnsupportedTimeframe)
  }

  function NormalizeRequest(req: SyncRequest): SyncRequest {
    req.(coinID := Trim(req.coinID), exchange := NormalizeExchange(req.exchange),
         timeframe := NormalizeExchange(req.timeframe))
  }

  function SeriesOf(req: SyncRequest): Series {
    Series(Trim(req.coinID), NormalizeExchange(req.exchange), NormalizeExchange(req.timeframe))
  }

  function KeyOf(c: Candle): RowKey {
    RowKey(c.timestamp, Series(Trim(c.coinID), NormalizeExchange(c.exchange), NormalizeExchange(c.timeframe)))
  }

  function RowOf(c: Candle): Row {
    Row(Trim(c.symbol), c.prices, c.isClosed)
  }

  /** The candle a raw candle becomes at time `now`. */
  function ToCandle(req: SyncRequest, symbol: string, duration: int, item: RawCandle, now: int): Candle {
    Candle(item.timestamp, req.coinID, req.exchange, symbol, req.timeframe, item.prices,
           item.timestamp + duration <= now)
  }

  function Normalize(req: SyncRequest, symbol: string, raw: seq<RawCandle>, now: int): Result<seq<Candle>> {
    match TimeframeDuration(req.timeframe)
    case Err(e) => Err(e)
    case Ok(duration) =>
      if exists i :: 0 <= i < |raw| && raw[i].timestamp == ZERO_TIME then Err(ZeroTimestamp)
      else Ok(seq(|raw|, i requires 0 <= i < |raw| => ToCandle(req, symbol, duration, raw[i], now)))
  }

  /** The table after `INSERT … ON CONFLICT DO UPDATE` of each candle in turn. */
  function Upsert(rows: Table, candles: seq<Candle>): Table {
    if candles == [] then rows
    else
      var last := candles[|candles| - 1];
      Upsert(rows, candles[..|candles| - 1])[KeyOf(last) := RowOf(last)]
  }

  lemma {:induction false} UpsertOneMore(rows: Table, candles: seq<Candle>, i: nat)
    requires i < |candles|
    ensures Upsert(rows, candles[..i + 1]) == Upsert(rows, candles[..i])[KeyOf(candles[i]) := RowOf(candles[i])]
  {
    assert candles[..i + 1][..i] == candles[..i];
  }

  /** `t` is what the newest-timestamp query answers for series `s`. */
  ghost predicate IsLatest(rows: Table, s: Series, t: int) {
    if exists u :: RowKey(u, s) in rows
    then RowKey(t, s) in rows && forall u :: RowKey(u, s) in rows ==> u <= t
    else t == ZERO_TIME
  }

  /** The normalised candles one call obtains from the exchange, or why it gives up before writing. */
  function Fetch(request: SyncRequest, since: int, env: Env): Result<seq<Candle>> {
    var req := NormalizeRequest(request);
    if req.coinID == "" || req.exchange == "" || req.timeframe == "" then Err(MissingFields)
    else if env.symbol.None? then Err(Unresolved)
    else
      match env.poll(req.exchange, env.symbol.value, req.timeframe, since, req.limit)
      case None => Err(PollFailed)
      case Some(raw) => Normalize(req, env.symbol.value, raw, env.now)
  }

  /** The reply and the table after storing what was fetched, when `written` statements take effect. */
  function Store(rows: Table, fetched: Result<seq<Candle>>, written: nat): (Result<seq<Candle>>, Table) {
    match fetched
    case Err(e) => (Err(e), rows)
    case Ok(candles) =>
      if written < |candles| then (Err(UpsertFailed), Upsert(rows, candles[..written]))
      else (Ok(candles), Upsert(rows, candles))
  }

  /** One synchronisation from `since`: the reply and the table it leaves. */
  function SyncFrom(rows: Table, req: SyncRequest, since: int, env: Env): (Result<seq<Candle>>, Table) {
    Store(rows, Fetch(req, since, env), env.written)
  }

  /** `outcome` is what IncrementalSync may do to `rows`. */
  ghost predicate Synced(rows: Table, req: SyncRequest, env: Env, outcome: (Result<seq<Candle>>, Table)) {
    if !env.latestOk then outcome == (Err(LatestFailed), rows)
    else exists latest :: IsLatest(rows, SeriesOf(req), latest)
                          && outcome == SyncFrom(rows, req, if latest == ZERO_TIME then req.since else latest, env)
  }

  class Service {
    var rows: Table

    constructor ()
      ensures rows == map[]
    {
      rows := map[];
    }

    /** The newest stored time of a series, the zero time when there is none. */
    method LatestTimestamp(s: Series) returns (t: int)
      ensures IsLatest(rows, s, t)
    {
      var keys := rows.Keys;
      var best: Option<int> := None;
      while keys != {}
        invariant keys <= rows.Keys
        invariant best.None? ==> forall u :: RowKey(u, s) in rows ==> RowKey(u, s) in keys
        invariant best.Some? ==> RowKey(best.value, s) in rows
        invariant best.Some? ==> forall u :: RowKey(u, s) in rows && RowKey(u, s) !in keys ==> u <= best.value
        decreases |keys|
      {
        var k :| k in keys;
        keys := keys - {k};
        if k.series == s && (best.None? || best.value < k.time) {
          best := Some(k.time);
        }
      }
      t := if best.Some? then best.value else ZERO_TIME;
    }

    method NormalizeCandles(req: SyncRequest, symbol: string, raw: seq<RawCandle>, now: int)
      returns (r: Result<seq<Candle>>)
      ensures r == Normalize(req, symbol, raw, now)
    {
      var duration := TimeframeDuration(req.timeframe);
      if duration.Err? {
        return Err(duration.error);
      }
      var candles: seq<Candle> := [];
      for i := 0 to |raw|
        invariant forall j :: 0 <= j < i ==> raw[j].timestamp != ZERO_TIME
        invariant candles == seq(i, j requires 0 <= j < i => ToCandle(req, symbol, duration.value, raw[j], now))
      {
        if raw[i].timestamp == ZERO_TIME {
          return Err(ZeroTimestamp);
        }
        candles := candles + [ToCandle(req, symbol, duration.value, raw[i], now)];
      }
      r := Ok(candles);
    }

    /** Writes the batch; only the first `written` statements take effect. */
    method UpsertCandles(candles: seq<Candle>, written: nat) returns (ok: bool)
      modifies this
      ensures ok == (|candles| <= written)
      ensures rows == Upsert(old(rows), if ok then candles else candles[..written])
    {
      var i := 0;
      while i < |candles| && i < written
        invariant 0 <= i <= |candles| && i <= written
        invariant rows == Upsert(old(rows), candles[..i])
      {
        UpsertOneMore(old(rows), candles, i);
        rows := rows[KeyOf(candles[i]) := RowOf(candles[i])];
        i := i + 1;
      }
      ok := i == |candles|;
      assert candles[..|candles|] == candles;
    }

    method Sync(request: SyncRequest, since: int, env: Env) returns (r: Result<seq<Candle>>)
      modifies this
      ensures (r, rows) == SyncFrom(old(rows), request, since, env)
    {
      var req := NormalizeRequest(request);
      if req.coinID == "" || req.exchange == "" || req.timeframe == "" {
        return Err(MissingFields);
      }
      if env.symbol.None? {
        return Err(Unresolved);
      }
      var raw := env.poll(req.exchange, env.symbol.value, req.timeframe, since, req.limit);
      if raw.None? {
        return Err(PollFailed);
      }
      r := NormalizeCandles(req, env.symbol.value, raw.value, env.now);
      if r.Err? || |r.value| == 0 {
        return;
      }
      var ok := UpsertCandles(r.value, env.written);
      if !ok {
        r := Err(UpsertFailed);
      }
    }

    method IncrementalSync(req: SyncRequest, env: Env) returns (r: Result<seq<Candle>>)
      modifies this
      ensures Synced(old(rows), req, env, (r, rows))
    {
      if !env.latestOk {
        return Err(LatestFailed);
      }
      var since := req.since;
      var latest := LatestTimestamp(SeriesOf(req));
      if latest != ZERO_TIME {
        since := latest;
      }
      r := Sync(req, since, env);
    }
  }

  // ----- When a call succeeds, and with what -----

  /** The supported timeframes and their lengths in milliseconds. */
  predicate IsLength(timeframe: string, length: int) {
    || (timeframe == "1m" && length == 60000)
    || (timeframe == "5m" && length == 300000)
    || (timeframe == "15m" && length == 900000)
    || (timeframe == "1h" && length == 3600000)
    || (timeframe == "4h" && length == 14400000)
    || (timeframe == "1d" && length == 86400000)
    || (timeframe == "1w" && length == 604800000)
  }

  lemma DurationIsLength(timeframe: string, length: int)
    ensures IsLength(NormalizeExchange(timeframe), length) <==> TimeframeDuration(timeframe) == Ok(length)
  {
  }

  lemma SupportedIff(timeframe: string)
    ensures TimeframeDuration(timeframe).Ok? <==> exists length :: IsLength(NormalizeExchange(timeframe), length)
  {
    var d := TimeframeDuration(timeframe);
    if d.Ok? {
      DurationIsLength(timeframe, d.value);
    }
    forall length | IsLength(NormalizeExchange(timeframe), length)
      ensures d.Ok?
    {
      DurationIsLength(timeframe, length);
    }
  }

  /** The poll of a call that finds `latest` as the newest stored time. */
  function PollAfter(req: SyncRequest, env: Env, latest: int): Option<seq<RawCandle>>
    requires env.symbol.Some?
  {
    env.poll(Lower(Trim(req.exchange)), env.symbol.value, Lower(Trim(req.timeframe)),
             if latest == ZERO_TIME then req.since else latest, req.limit)
  }

  /** The newest stored time is unique, so a call resumes in one way. */
  lemma SyncedFrom(rows: Table, req: SyncRequest, env: Env, out: (Result<seq<Candle>>, Table), latest: int)
    requires Synced(rows, req, env, out) && IsLatest(rows, SeriesOf(req), latest) && env.latestOk
    ensures out == SyncFrom(rows, req, if latest == ZERO_TIME then req.since else latest, env)
  {
    var t :| IsLatest(rows, SeriesOf(req), t)
             && out == SyncFrom(rows, req, if t == ZERO_TIME then req.since else t, env);
    LatestUnique(rows, SeriesOf(req), latest, t);
  }

  lemma LatestUnique(rows: Table, s: Series, t: int, u: int)
    requires IsLatest(rows, s, t) && IsLatest(rows, s, u)
    ensures t == u
  {
  }

  lemma {:induction false} FetchSucceedsIff(req: SyncRequest, since: int, env: Env)
    ensures Fetch(req, since, env).Ok? <==>
            && Trim(req.coinID) != "" && Trim(req.exchange) != ""
            && (exists length :: IsLength(Lower(Trim(req.timeframe)), length))
            && env.symbol.Some? && Polled(env, req, since).Some?
            && forall i :: 0 <= i < |Polled(env, req, since).value| ==>
                             Polled(env, req, since).value[i].timestamp != ZERO_TIME
    ensures Fetch(req, since, env).Ok? ==> |Fetch(req, since, env).value| == |Polled(env, req, since).value|
  {
    NormalizeExchangeIdempotent(req.timeframe);
    SupportedIff(NormalizeExchange(req.timeframe));
  }

  /** A call succeeds exactly when the newest stored time can be read, the coin and the exchange are named, the symbol
      resolves, the poll answers, the timeframe is supported, no candle is without a time, and every statement of the
      batch takes effect. The limit plays no part. */
  lemma {:induction false} SyncSucceedsIff(rows: Table, req: SyncRequest, env: Env,
                                           out: (Result<seq<Candle>>, Table), latest: int)
    requires Synced(rows, req, env, out) && IsLatest(rows, SeriesOf(req), latest)
    ensures out.0.Ok? <==>
            && env.latestOk && Trim(req.coinID) != "" && Trim(req.exchange) != ""
            && (exists length :: IsLength(Lower(Trim(req.timeframe)), length))
            && env.symbol.Some? && PollAfter(req, env, latest).Some?
            && var raw := PollAfter(req, env, latest).value;
               (forall i :: 0 <= i < |raw| ==> raw[i].timestamp != ZERO_TIME) && |raw| <= env.written
  {
    if env.latestOk {
      SyncedFrom(rows, req, env, out, latest);
      FetchSucceedsIff(req, if latest == ZERO_TIME then req.since else latest, env);
    }
  }

  lemma {:induction false} FetchedIsPoll(req: SyncRequest, since: int, env: Env, candles: seq<Candle>, length: int)
    requires Fetch(req, since, env) == Ok(candles) && IsLength(Lower(Trim(req.timeframe)), length)
    ensures env.symbol.Some? && Polled(env, req, since).Some? && |candles| == |Polled(env, req, since).value|
    ensures forall i :: 0 <= i < |candles| ==>
                          IsNormalForm(req, env, Polled(env, req, since).value[i], length, candles[i])
  {
    NormalizeExchangeIdempotent(req.timeframe);
    DurationIsLength(NormalizeExchange(req.timeframe), length);
  }

  /** The candle is the exchange's, under the request's names and the resolved symbol, and closed exactly when its
      timeframe has passed. */
  ghost predicate IsNormalForm(req: SyncRequest, env: Env, item: RawCandle, length: int, c: Candle) {
    && c.timestamp == item.timestamp && c.prices == item.prices
    && c.coinID == Trim(req.coinID) && c.exchange == Lower(Trim(req.exchange))
    && env.symbol == Some(c.symbol) && c.timeframe == Lower(Trim(req.timeframe))
    && (c.isClosed <==> item.timestamp + length <= env.now)
  }

  /** The reply holds the exchange's candles, in order. */
  lemma {:induction false} ReplyIsPoll(rows: Table, req: SyncRequest, env: Env, out: (Result<seq<Candle>>, Table),
                                       latest: int, length: int)
    requires Synced(rows, req, env, out) && IsLatest(rows, SeriesOf(req), latest) && out.0.Ok?
    requires IsLength(Lower(Trim(req.timeframe)), length)
    ensures env.symbol.Some? && PollAfter(req, env, latest).Some?
    ensures var raw := PollAfter(req, env, latest).value;
            && |out.0.value| == |raw|
            && forall i :: 0 <= i < |raw| ==> IsNormalForm(req, env, raw[i], length, out.0.value[i])
  {
    SyncedFrom(rows, req, env, out, latest);
    FetchedIsPoll(req, if latest == ZERO_TIME then req.since else latest, env, out.0.value, length);
  }

  /** The last candle of a batch under some key is the row there; keys without one keep their row. */
  lemma {:induction false} UpsertHolds(rows: Table, candles: seq<Candle>, i: nat)
    requires i < |candles| && forall j :: i < j < |candles| ==> KeyOf(candles[j]) != KeyOf(candles[i])
    ensures KeyOf(candles[i]) in Upsert(rows, candles) && Upsert(rows, candles)[KeyOf(candles[i])] == RowOf(candles[i])
  {
    var n := |candles| - 1;
    if i < n {
      var before := candles[..n];
      assert forall j :: 0 <= j < n ==> before[j] == candles[j];
      UpsertHolds(rows, before, i);
      assert KeyOf(candles[n]) != KeyOf(candles[i]);
    }
  }

  /** A successful call stores every candle of its reply under the request's series, the last one for each time. */
  lemma ReplyIsStored(rows: Table, req: SyncRequest, env: Env, out: (Result<seq<Candle>>, Table), latest: int,
                      length: int, i: nat)
    requires Synced(rows, req, env, out) && IsLatest(rows, SeriesOf(req), latest) && out.0.Ok?
    requires IsLength(Lower(Trim(req.timeframe)), length) && i < |out.0.value|
    requires forall j :: i < j < |out.0.value| ==> out.0.value[j].timestamp != out.0.value[i].timestamp
    ensures var c := out.0.value[i];
            var s := Series(Trim(req.coinID), Lower(Trim(req.exchange)), Lower(Trim(req.timeframe)));
            var k := RowKey(c.timestamp, s);
            k in out.1 && out.1[k] == Row(Trim(c.symbol), c.prices, c.isClosed)
  {
    ReplyIsPoll(rows, req, env, out, latest, length);
    TrimIdempotent(req.coinID);
    NormalizeExchangeIdempotent(req.exchange);
    NormalizeExchangeIdempotent(req.timeframe);
    var candles := out.0.value;
    forall j | i < j < |candles|
      ensures KeyOf(candles[j]) != KeyOf(candles[i])
    {
      assert KeyOf(candles[j]).time == candles[j].timestamp;
    }
    UpsertHolds(rows, candles, i);
  }

  /** A failing call leaves the table as it was, unless its batch fails: then exactly the statements that took effect
      are stored. */
  lemma {:induction false} FailedCallStores(rows: Table, req: SyncRequest, env: Env,
                                            out: (Result<seq<Candle>>, Table), latest: int, length: int)
    requires Synced(rows, req, env, out) && IsLatest(rows, SeriesOf(req), latest) && out.0.Err?
    requires IsLength(Lower(Trim(req.timeframe)), length)
    ensures out.0 != Err(UpsertFailed) ==> out.1 == rows
    ensures out.0 == Err(UpsertFailed) ==>
              && env.symbol.Some? && PollAfter(req, env, latest).Some?
              && var raw := PollAfter(req, env, latest).value;
                 && env.written < |raw|
                 && exists candles :: ArePolled(req, env, raw, length, candles)
                                      && out.1 == Upsert(rows, candles[..env.written])
  {
    if env.latestOk {
      var since := if latest == ZERO_TIME then req.since else latest;
      SyncedFrom(rows, req, env, out, latest);
      var fetched := Fetch(req, since, env);
      if fetched.Ok? {
        FetchedIsPoll(req, since, env, fetched.value, length);
        assert ArePolled(req, env, Polled(env, req, since).value, length, fetched.value);
      }
    }
  }

  /** Why a call whose newest stored time was read fails: the first reason in this order. */
  ghost function Reason(req: SyncRequest, env: Env, since: int): Error {
    if Trim(req.coinID) == "" || Trim(req.exchange) == "" || Trim(req.timeframe) == "" then MissingFields
    else if env.symbol.None? then Unresolved
    else if Polled(env, req, since).None? then PollFailed
    else if forall length :: !IsLength(Lower(Trim(req.timeframe)), length) then UnsupportedTimeframe
    else if exists i :: 0 <= i < |Polled(env, req, since).value|
                        && Polled(env, req, since).value[i].timestamp == ZERO_TIME then ZeroTimestamp
    else UpsertFailed
  }

  lemma {:induction false} FetchFails(req: SyncRequest, since: int, env: Env)
    ensures Fetch(req, since, env).Err? ==> Fetch(req, since, env).error == Reason(req, env, since)
    ensures Fetch(req, since, env).Ok? ==> Reason(req, env, since) == UpsertFailed
  {
    var tf := NormalizeExchange(req.timeframe);
    NormalizeExchangeIdempotent(req.timeframe);
    SupportedIff(tf);
    assert (forall length :: !IsLength(tf, length)) <==> TimeframeDuration(tf).Err?;
  }

  /** The error of a failing call says its first reason. */
  lemma {:induction false} FailureSays(rows: Table, req: SyncRequest, env: Env, out: (Result<seq<Candle>>, Table),
                                       latest: int)
    requires Synced(rows, req, env, out) && IsLatest(rows, SeriesOf(req), latest) && out.0.Err?
    ensures out.0.error
            == if env.latestOk then Reason(req, env, if latest == ZERO_TIME then req.since else latest)
               else LatestFailed
  {
    if env.latestOk {
      var since := if latest == ZERO_TIME then req.since else latest;
      SyncedFrom(rows, req, env, out, latest);
      FetchFails(req, since, env);
    }
  }

  ghost predicate ArePolled(req: SyncRequest, env: Env, raw: seq<RawCandle>, length: int, candles: seq<Candle>) {
    |candles| == |raw| && forall i :: 0 <= i < |raw| ==> IsNormalForm(req, env, raw[i], length, candles[i])
  }

  // ----- The exchange -----

  /** Candles of a series start at least one timeframe apart. */
  ghost predicate WellSpaced(up: seq<RawCandle>, duration: int) {
    forall i, j :: 0 <= i < j < |up| ==> up[i].timestamp + duration <= up[j].timestamp
  }

  /** Candles come in time order, and those of a supported timeframe are spaced by it. */
  ghost predicate SpacedFor(timeframe: string, up: seq<RawCandle>) {
    var d := TimeframeDuration(timeframe);
    WellSpaced(up, if d.Ok? then d.value else 1)
  }

  /** The exchange appends candles and changes only its newest one, never that one's start. */
  ghost predicate Evolves(up: seq<RawCandle>, next: seq<RawCandle>) {
    && |up| <= |next|
    && (forall i :: 0 <= i < |up| - 1 ==> next[i] == up[i])
    && (|up| > 0 ==> next[|up| - 1].timestamp == up[|up| - 1].timestamp)
  }

  /** `raw` is the stretch of `n` candles from index `k`: the first at or after `since`, oldest first,
      cut anywhere but never beyond `limit`. Without a start the exchange chooses `k`. */
  ghost predicate AnswersAt(up: seq<RawCandle>, since: int, limit: int, raw: seq<RawCandle>, k: nat, n: nat) {
    && k + n <= |up|
    && raw == up[k..k + n]
    && (since != ZERO_TIME ==> (forall i :: 0 <= i < k ==> up[i].timestamp < since)
                               && (k < |up| ==> since <= up[k].timestamp))
    && (limit > 0 ==> n <= limit)
  }

  /** What the exchange answers to the poll of a call that resumes at `since`. */
  function Polled(env: Env, req: SyncRequest, since: int): Option<seq<RawCandle>>
    requires env.symbol.Some?
  {
    env.poll(NormalizeExchange(req.exchange), env.symbol.value, NormalizeExchange(req.timeframe), since, req.limit)
  }

  ghost predicate Answers(up: seq<RawCandle>, env: Env, req: SyncRequest) {
    env.symbol.Some? ==>
      forall since :: var raw := Polled(env, req, since);
                      raw.Some? ==> exists k: nat, n: nat :: AnswersAt(up, since, req.limit, raw.value, k, n)
  }

  /** `candles` is the normalised form of the stretch `k..k+n` with which the exchange answered. */
  ghost predicate Delivered(up: seq<RawCandle>, req: SyncRequest, since: int, env: Env, candles: seq<Candle>,
                            duration: int, k: nat, n: nat) {
    && duration > 0 && WellSpaced(up, duration) && env.symbol.Some?
    && k + n <= |up| && AnswersAt(up, since, req.limit, up[k..k + n], k, n)
    && |candles| == n
    && (forall i :: 0 <= i < n ==>
          candles[i] == ToCandle(NormalizeRequest(req), env.symbol.value, duration, up[k + i], env.now))
    && (forall i :: k <= i < k + n ==> up[i].timestamp != ZERO_TIME)
  }

  // ----- The store follows the exchange -----

  /** The rows of series `s` are exactly the candles `lo..hi` of the exchange; all but the newest of
      them hold the exchange's value and are marked closed. */
  ghost predicate Tracks(rows: Table, s: Series, up: seq<RawCandle>, lo: nat, hi: nat) {
    && lo <= hi <= |up|
    && RowKey(ZERO_TIME, s) !in rows
    && (forall t :: RowKey(t, s) in rows ==> exists i :: lo <= i < hi && up[i].timestamp == t)
    && (forall i :: lo <= i < hi ==> RowKey(up[i].timestamp, s) in rows)
    && (forall i :: lo <= i < hi - 1 ==>
          var row := rows[RowKey(up[i].timestamp, s)]; row.prices == up[i].prices && row.isClosed)
  }

  /** The row of the exchange's candle `i` holds its current value. */
  ghost predicate HoldsAt(rows: Table, s: Series, up: seq<RawCandle>, i: nat) {
    && i < |up|
    && RowKey(up[i].timestamp, s) in rows
    && rows[RowKey(up[i].timestamp, s)].prices == up[i].prices
  }

  lemma {:induction false} UpsertKeepsOthers(rows: Table, candles: seq<Candle>, k: RowKey)
    requires forall i :: 0 <= i < |candles| ==> KeyOf(candles[i]) != k
    ensures k in Upsert(rows, candles) <==> k in rows
    ensures k in rows ==> Upsert(rows, candles)[k] == rows[k]
  {
    if candles == [] {
    } else {
      UpsertKeepsOthers(rows, candles[..|candles| - 1], k);
    }
  }

  lemma {:induction false} UpsertStores(rows: Table, candles: seq<Candle>, i: nat)
    requires i < |candles|
    requires forall j :: i < j < |candles| ==> KeyOf(candles[j]) != KeyOf(candles[i])
    ensures KeyOf(candles[i]) in Upsert(rows, candles)
    ensures Upsert(rows, candles)[KeyOf(candles[i])] == RowOf(candles[i])
  {
    if i < |candles| - 1 {
      UpsertStores(rows, candles[..|candles| - 1], i);
    }
  }

  lemma CandleKey(req: SyncRequest, symbol: string, duration: int, item: RawCandle, now: int)
    ensures KeyOf(ToCandle(NormalizeRequest(req), symbol, duration, item, now)) == RowKey(item.timestamp, SeriesOf(req))
  {
    TrimIdempotent(req.coinID);
    NormalizeExchangeIdempotent(req.exchange);
    NormalizeExchangeIdempotent(req.timeframe);
  }

  /** After writing the stretch `k..k+w` of the exchange, its rows hold those candles and the other rows
      of the series are untouched. */
  lemma WrittenRows(rows: Table, req: SyncRequest, symbol: string, duration: int, now: int,
                    up: seq<RawCandle>, k: nat, w: nat, candles: seq<Candle>)
    requires duration > 0 && WellSpaced(up, duration)
    requires k + w <= |up| && |candles| == w
    requires forall i :: 0 <= i < w ==> candles[i] == ToCandle(NormalizeRequest(req), symbol, duration, up[k + i], now)
    ensures forall i :: k <= i < k + w ==> var key := RowKey(up[i].timestamp, SeriesOf(req));
                                           key in Upsert(rows, candles)
                                           && Upsert(rows, candles)[key].prices == up[i].prices
                                           && Upsert(rows, candles)[key].isClosed == (up[i].timestamp + duration <= now)
    ensures forall t {:trigger RowKey(t, SeriesOf(req))} ::
              (forall i :: k <= i < k + w ==> up[i].timestamp != t) ==>
                var key := RowKey(t, SeriesOf(req));
                && (key in Upsert(rows, candles) <==> key in rows)
                && (key in rows ==> Upsert(rows, candles)[key] == rows[key])
  {
    var s := SeriesOf(req);
    forall i | 0 <= i < w
      ensures KeyOf(candles[i]) == RowKey(up[k + i].timestamp, s)
    {
      CandleKey(req, symbol, duration, up[k + i], now);
    }
    forall i | k <= i < k + w
      ensures var key := RowKey(up[i].timestamp, s);
              key in Upsert(rows, candles) && Upsert(rows, candles)[key] == RowOf(candles[i - k])
    {
      UpsertStores(rows, candles, i - k);
    }
    forall t {:trigger RowKey(t, SeriesOf(req))} | forall i :: k <= i < k + w ==> up[i].timestamp != t
      ensures var key := RowKey(t, s);
              && (key in Upsert(rows, candles) <==> key in rows)
              && (key in rows ==> Upsert(rows, candles)[key] == rows[key])
    {
      UpsertKeepsOthers(rows, candles, RowKey(t, s));
    }
  }

  /** At time `now` every candle but the newest is over. */
  ghost predicate AllClosedBut(up: seq<RawCandle>, duration: int, now: int) {
    forall i :: 0 <= i < |up| - 1 ==> up[i].timestamp + duration <= now
  }

  lemma OlderCandlesOver(up: seq<RawCandle>, duration: int, now: int)
    requires WellSpaced(up, duration) && (|up| > 0 ==> up[|up| - 1].timestamp <= now)
    ensures AllClosedBut(up, duration, now)
  {
    forall i | 0 <= i < |up| - 1
      ensures up[i].timestamp + duration <= now
    {
      assert up[i].timestamp + duration <= up[|up| - 1].timestamp;
    }
  }

  /** Writing a stretch that extends or refreshes the stored stretch keeps it gap-free. */
  lemma WriteTracks(rows: Table, req: SyncRequest, symbol: string, duration: int, now: int,
                    up: seq<RawCandle>, lo: nat, hi: nat, k: nat, w: nat, candles: seq<Candle>) returns (hi': nat)
    requires duration > 0 && WellSpaced(up, duration)
    requires AllClosedBut(up, duration, now)
    requires Tracks(rows, SeriesOf(req), up, lo, hi)
    requires k + w <= |up| && (lo < hi ==> k == hi - 1) && (lo == hi ==> lo == k)
    requires forall i :: k <= i < k + w ==> up[i].timestamp != ZERO_TIME
    requires |candles| == w
    requires forall i :: 0 <= i < w ==> candles[i] == ToCandle(NormalizeRequest(req), symbol, duration, up[k + i], now)
    ensures hi' == if w == 0 then hi else k + w
    ensures hi <= hi' && Tracks(Upsert(rows, candles), SeriesOf(req), up, lo, hi')
    ensures w > 0 ==> HoldsAt(Upsert(rows, candles), SeriesOf(req), up, hi' - 1)
  {
    hi' := if w == 0 then hi else k + w;
    if w > 0 {
      var s, rows' := SeriesOf(req), Upsert(rows, candles);
      WrittenRows(rows, req, symbol, duration, now, up, k, w, candles);
      forall i | lo <= i < hi'
        ensures RowKey(up[i].timestamp, s) in rows'
        ensures i < hi' - 1 ==> var row := rows'[RowKey(up[i].timestamp, s)]; row.prices == up[i].prices && row.isClosed
      {
        if i < k {
          assert forall j :: k <= j < k + w ==> up[j].timestamp != up[i].timestamp;
        }
      }
      forall t | RowKey(t, s) in rows'
        ensures exists i :: lo <= i < hi' && up[i].timestamp == t
      {
        if !exists i :: k <= i < k + w && up[i].timestamp == t {
          assert RowKey(t, s) in rows;
        }
      }
    }
  }

  /** The latest stored time of a tracked, non-empty series is that of its newest candle. */
  lemma LatestOfTracked(rows: Table, s: Series, up: seq<RawCandle>, duration: int, lo: nat, hi: nat, t: int)
    requires duration > 0 && WellSpaced(up, duration) && Tracks(rows, s, up, lo, hi) && IsLatest(rows, s, t)
    ensures lo == hi ==> t == ZERO_TIME
    ensures lo < hi ==> t == up[hi - 1].timestamp && t != ZERO_TIME
  {
    if lo < hi {
      assert RowKey(up[hi - 1].timestamp, s) in rows;
      assert up[hi - 1].timestamp <= t;
    }
  }

  /** What a call fetches is a stretch `k..k+n` of the exchange, normalised. */
  lemma FetchDelivers(req: SyncRequest, since: int, env: Env, up: seq<RawCandle>)
    returns (duration: int, k: nat, n: nat)
    requires Fetch(req, since, env).Ok? && Answers(up, env, req) && SpacedFor(req.timeframe, up)
    ensures Delivered(up, req, since, env, Fetch(req, since, env).value, duration, k, n)
  {
    var raw := Polled(env, req, since).value;
    NormalizeExchangeIdempotent(req.timeframe);
    duration := TimeframeDuration(NormalizeExchange(req.timeframe)).value;
    k, n :| AnswersAt(up, since, req.limit, raw, k, n);
    forall i | k <= i < k + n
      ensures up[i].timestamp != ZERO_TIME
    {
      assert raw[i - k] == up[i];
    }
  }

  /** Everything a call fetches belongs to the requested series. */
  lemma FetchedSeries(req: SyncRequest, since: int, env: Env, i: nat)
    requires Fetch(req, since, env).Ok? && i < |Fetch(req, since, env).value|
    ensures KeyOf(Fetch(req, since, env).value[i]).series == SeriesOf(req)
  {
    var item, duration := FetchedCandle(req, since, env, i);
    CandleKey(req, env.symbol.value, duration, item, env.now);
  }

  lemma FetchedCandle(req: SyncRequest, since: int, env: Env, i: nat) returns (item: RawCandle, duration: int)
    requires Fetch(req, since, env).Ok? && i < |Fetch(req, since, env).value|
    ensures env.symbol.Some?
    ensures Fetch(req, since, env).value[i]
            == ToCandle(NormalizeRequest(req), env.symbol.value, duration, item, env.now)
  {
    var n := NormalizeRequest(req);
    item := env.poll(n.exchange, env.symbol.value, n.timeframe, since, n.limit).value[i];
    duration := TimeframeDuration(n.timeframe).value;
  }

  /** Asked from the start of its candle `hi - 1`, the exchange answers from that very candle. */
  lemma StretchStartsAtNewest(up: seq<RawCandle>, duration: int, limit: int, k: nat, n: nat, hi: nat)
    requires duration > 0 && WellSpaced(up, duration) && 0 < hi <= |up|
    requires up[hi - 1].timestamp != ZERO_TIME
    requires k + n <= |up| && AnswersAt(up, up[hi - 1].timestamp, limit, up[k..k + n], k, n)
    ensures k == hi - 1
  {
  }

  /** Writing what the exchange answered from the newest stored candle on. */
  lemma DeliveryTracks(rows: Table, req: SyncRequest, env: Env, duration: int, latest: int, up: seq<RawCandle>,
                       lo: nat, hi: nat, k: nat, n: nat, w: nat, candles: seq<Candle>) returns (lo': nat, hi': nat)
    requires |up| > 0 ==> up[|up| - 1].timestamp <= env.now
    requires Tracks(rows, SeriesOf(req), up, lo, hi) && IsLatest(rows, SeriesOf(req), latest)
    requires Delivered(up, req, if latest == ZERO_TIME then req.since else latest, env, candles, duration, k, n)
    requires w <= n
    ensures Tracks(Upsert(rows, candles[..w]), SeriesOf(req), up, lo', hi')
    ensures lo < hi ==> lo' == lo && hi <= hi' <= hi + w && (w > 0 ==> hi' < hi + w)
    ensures w > 0 ==> && hi' == (if lo < hi then hi - 1 else lo') + w
                      && lo' < hi'
                      && HoldsAt(Upsert(rows, candles[..w]), SeriesOf(req), up, hi' - 1)
  {
    lo', hi' := lo, hi;
    OlderCandlesOver(up, duration, env.now);
    LatestOfTracked(rows, SeriesOf(req), up, duration, lo, hi, latest);
    if lo < hi {
      StretchStartsAtNewest(up, duration, req.limit, k, n, hi);
    } else {
      lo', hi' := k, k;
    }
    hi' := WriteTracks(rows, req, env.symbol.value, duration, env.now, up, lo', hi', k, w, candles[..w]);
  }

  /** Storing a delivery keeps the stretch gap-free and ends it where the delivery ended. */
  lemma StoreTracks(rows: Table, req: SyncRequest, env: Env, latest: int, fetched: Result<seq<Candle>>,
                    up: seq<RawCandle>, lo: nat, hi: nat, duration: int, k: nat, n: nat) returns (lo': nat, hi': nat)
    requires |up| > 0 ==> up[|up| - 1].timestamp <= env.now
    requires Tracks(rows, SeriesOf(req), up, lo, hi) && IsLatest(rows, SeriesOf(req), latest)
    requires fetched.Ok? ==>
               Delivered(up, req, if latest == ZERO_TIME then req.since else latest, env, fetched.value, duration, k, n)
    ensures StretchAfter(Store(rows, fetched, env.written), SeriesOf(req), req.limit, up, lo, hi, lo', hi')
  {
    lo', hi' := lo, hi;
    if fetched.Ok? {
      var w := if env.written < n then env.written else n;
      lo', hi' := DeliveryTracks(rows, req, env, duration, latest, up, lo, hi, k, n, w, fetched.value);
      StoredPrefix(rows, fetched, env.written, n);
    }
  }

  /** Storing writes the prefix of the batch that takes effect, and succeeds when that is all of it. */
  lemma StoredPrefix(rows: Table, fetched: Result<seq<Candle>>, written: nat, n: nat)
    requires fetched.Ok? && n == |fetched.value|
    ensures var w := if written < n then written else n;
            Store(rows, fetched, written).1 == Upsert(rows, fetched.value[..w])
            && (Store(rows, fetched, written).0.Ok? ==> w == n && Store(rows, fetched, written).0 == fetched)
  {
    assert fetched.value[..n] == fetched.value;
  }

  /** The stored stretch `lo'..hi'` after a call that found `lo..hi`: gap-free, its start fixed, its end
      never moving back nor by `limit` or more, and after a success ending exactly where the reply ended, with
      current value there. */
  ghost predicate StretchAfter(out: (Result<seq<Candle>>, Table), s: Series, limit: int, up: seq<RawCandle>,
                               lo: nat, hi: nat, lo': nat, hi': nat) {
    && Tracks(out.1, s, up, lo', hi')
    && (lo < hi ==> lo' == lo && hi <= hi' && (limit > 0 ==> hi' < hi + limit))
    && (out.0.Ok? && out.0.value != [] ==>
          && hi' == (if lo < hi then hi - 1 else lo') + |out.0.value|
          && lo' < hi'
          && HoldsAt(out.1, s, up, hi' - 1))
  }

  /** One call keeps the stored stretch gap-free. */
  lemma SyncTracks(rows: Table, req: SyncRequest, env: Env, out: (Result<seq<Candle>>, Table), up: seq<RawCandle>,
                   lo: nat, hi: nat) returns (lo': nat, hi': nat)
    requires Synced(rows, req, env, out)
    requires Tracks(rows, SeriesOf(req), up, lo, hi)
    requires SpacedFor(req.timeframe, up) && Answers(up, env, req)
    requires |up| > 0 ==> up[|up| - 1].timestamp <= env.now
    ensures StretchAfter(out, SeriesOf(req), req.limit, up, lo, hi, lo', hi')
  {
    lo', hi' := lo, hi;
    if env.latestOk {
      var latest :| IsLatest(rows, SeriesOf(req), latest)
                    && out == SyncFrom(rows, req, if latest == ZERO_TIME then req.since else latest, env);
      var since := if latest == ZERO_TIME then req.since else latest;
      var duration, k, n := 0, 0, 0;
      if Fetch(req, since, env).Ok? {
        duration, k, n := FetchDelivers(req, since, env, up);
      }
      lo', hi' := StoreTracks(rows, req, env, latest, Fetch(req, since, env), up, lo, hi, duration, k, n);
    }
  }

  lemma StoreKeepsOthers(rows: Table, fetched: Result<seq<Candle>>, written: nat, key: RowKey)
    requires fetched.Ok? ==> forall i :: 0 <= i < |fetched.value| ==> KeyOf(fetched.value[i]) != key
    ensures var rows' := Store(rows, fetched, written).1;
            (key in rows' <==> key in rows) && (key in rows ==> rows'[key] == rows[key])
  {
    if fetched.Ok? {
      UpsertKeepsOthers(rows, if written < |fetched.value| then fetched.value[..written] else fetched.value, key);
    }
  }

  /** A call leaves the rows of every other series alone. */
  lemma SyncKeepsOtherSeries(rows: Table, req: SyncRequest, env: Env, out: (Result<seq<Candle>>, Table), key: RowKey)
    requires Synced(rows, req, env, out) && key.series != SeriesOf(req)
    ensures key in out.1 <==> key in rows
    ensures key in rows ==> out.1[key] == rows[key]
  {
    if env.latestOk {
      var latest :| IsLatest(rows, SeriesOf(req), latest)
                    && out == SyncFrom(rows, req, if latest == ZERO_TIME then req.since else latest, env);
      var since := if latest == ZERO_TIME then req.since else latest;
      var fetched := Fetch(req, since, env);
      if fetched.Ok? {
        forall i | 0 <= i < |fetched.value|
          ensures KeyOf(fetched.value[i]) != key
        {
          FetchedSeries(req, since, env, i);
        }
      }
      StoreKeepsOthers(rows, fetched, env.written, key);
    }
  }

  // ----- Runs -----

  /** Either the exchange changes one series at time `at`, or a synchronisation call runs. */
  datatype Event = Upstream(series: Series, up: seq<RawCandle>, at: int) | Sync(req: SyncRequest, env: Env)

  datatype World = World(rows: Table, ups: map<Series, seq<RawCandle>>, clock: int)

  ghost function UpOf(w: World, s: Series): seq<RawCandle> {
    if s in w.ups then w.ups[s] else []
  }

  /** One event: the exchange evolves and never lists a candle that has not begun, or a call is answered
      by the exchange; the clock does not go back. */
  ghost predicate Step(w: World, e: Event, w': World) {
    match e
    case Upstream(s, up, at) =>
      && w.clock <= at && Evolves(UpOf(w, s), up) && Listed(s, up, at)
      && w' == World(w.rows, w.ups[s := up], at)
    case Sync(req, env) =>
      && w.clock <= env.now && Answers(UpOf(w, SeriesOf(req)), env, req)
      && w'.ups == w.ups && w'.clock == env.now
      && exists r :: Synced(w.rows, req, env, (r, w'.rows))
  }

  /** The worlds of a run that starts with an empty store and an empty exchange. */
  ghost predicate Run(ws: seq<World>, es: seq<Event>) {
    && |ws| == |es| + 1
    && ws[0].rows == map[] && ws[0].ups == map[]
    && forall i :: 0 <= i < |es| ==> Step(ws[i], es[i], ws[i + 1])
  }

  /** A series of the exchange is spaced by its timeframe and has begun by `clock`. */
  ghost predicate Listed(s: Series, up: seq<RawCandle>, clock: int) {
    SpacedFor(s.timeframe, up) && (|up| > 0 ==> up[|up| - 1].timestamp <= clock)
  }

  ghost predicate UpstreamOk(w: World) {
    forall s :: Listed(s, UpOf(w, s), w.clock)
  }

  /** The rows of `s` are some gap-free stretch of `up`, final and closed but for its newest candle. */
  ghost predicate Follows(rows: Table, s: Series, up: seq<RawCandle>) {
    exists lo: nat, hi: nat :: Tracks(rows, s, up, lo, hi)
  }

  ghost predicate StoreFollows(w: World) {
    forall s :: Follows(w.rows, s, UpOf(w, s))
  }

  lemma EvolvedTracks(rows: Table, s: Series, up: seq<RawCandle>, next: seq<RawCandle>, lo: nat, hi: nat)
    requires Tracks(rows, s, up, lo, hi) && Evolves(up, next)
    ensures Tracks(rows, s, next, lo, hi)
  {
    assert forall i :: 0 <= i < |up| ==> next[i].timestamp == up[i].timestamp;
  }

  lemma UpstreamStep(w: World, e: Event, w': World, s: Series)
    requires Step(w, e, w') && UpstreamOk(w)
    ensures UpstreamOk(w') && Evolves(UpOf(w, s), UpOf(w', s))
  {
    forall r
      ensures Listed(r, UpOf(w', r), w'.clock)
    {
      assert Listed(r, UpOf(w, r), w.clock);
    }
  }

  lemma OtherSeriesTracks(rows: Table, req: SyncRequest, env: Env, out: (Result<seq<Candle>>, Table), s: Series,
                          up: seq<RawCandle>, lo: nat, hi: nat)
    requires Synced(rows, req, env, out) && s != SeriesOf(req) && Tracks(rows, s, up, lo, hi)
    ensures Tracks(out.1, s, up, lo, hi)
  {
    forall key: RowKey | key.series == s
      ensures key in out.1 <==> key in rows
      ensures key in rows ==> out.1[key] == rows[key]
    {
      SyncKeepsOtherSeries(rows, req, env, out, key);
    }
  }

  lemma OwnSeriesTracks(rows: Table, req: SyncRequest, env: Env, out: (Result<seq<Candle>>, Table), up: seq<RawCandle>,
                        lo: nat, hi: nat) returns (lo': nat, hi': nat)
    requires Synced(rows, req, env, out) && Answers(up, env, req) && Listed(SeriesOf(req), up, env.now)
    requires Tracks(rows, SeriesOf(req), up, lo, hi)
    ensures StretchAfter(out, SeriesOf(req), req.limit, up, lo, hi, lo', hi')
  {
    NormalizeExchangeIdempotent(req.timeframe);
    lo', hi' := SyncTracks(rows, req, env, out, up, lo, hi);
  }

  lemma SyncStepTracks(w: World, e: Event, w': World, s: Series, lo: nat, hi: nat) returns (lo': nat, hi': nat)
    requires Step(w, e, w') && e.Sync? && Listed(s, UpOf(w, s), w.clock) && Tracks(w.rows, s, UpOf(w, s), lo, hi)
    ensures Tracks(w'.rows, s, UpOf(w, s), lo', hi')
    ensures lo < hi ==> lo' == lo && hi <= hi'
    ensures lo < hi && (SeriesOf(e.req) == s ==> e.req.limit == 1) ==> hi' == hi
  {
    lo', hi' := lo, hi;
    var r :| Synced(w.rows, e.req, e.env, (r, w'.rows));
    if SeriesOf(e.req) == s {
      lo', hi' := OwnSeriesTracks(w.rows, e.req, e.env, (r, w'.rows), UpOf(w, s), lo, hi);
    } else {
      OtherSeriesTracks(w.rows, e.req, e.env, (r, w'.rows), s, UpOf(w, s), lo, hi);
    }
  }

  lemma StepTracks(w: World, e: Event, w': World, s: Series, lo: nat, hi: nat) returns (lo': nat, hi': nat)
    requires Step(w, e, w') && UpstreamOk(w) && Tracks(w.rows, s, UpOf(w, s), lo, hi)
    ensures Tracks(w'.rows, s, UpOf(w', s), lo', hi')
    ensures lo < hi ==> lo' == lo && hi <= hi'
    ensures lo < hi && (e.Sync? && SeriesOf(e.req) == s ==> e.req.limit == 1) ==> hi' == hi
  {
    if e.Sync? {
      assert Listed(s, UpOf(w, s), w.clock);
      lo', hi' := SyncStepTracks(w, e, w', s, lo, hi);
    } else {
      lo', hi' := lo, hi;
      UpstreamStep(w, e, w', s);
      EvolvedTracks(w.rows, s, UpOf(w, s), UpOf(w', s), lo, hi);
    }
  }

  lemma StepFollows(w: World, e: Event, w': World)
    requires Step(w, e, w') && UpstreamOk(w) && StoreFollows(w)
    ensures UpstreamOk(w') && StoreFollows(w')
  {
    UpstreamStep(w, e, w', Series("", "", ""));
    forall s
      ensures Follows(w'.rows, s, UpOf(w', s))
    {
      assert Follows(w.rows, s, UpOf(w, s));
      var lo: nat, hi: nat :| Tracks(w.rows, s, UpOf(w, s), lo, hi);
      var lo', hi' := StepTracks(w, e, w', s, lo, hi);
    }
  }

  /** In every world of every run the store is, series by series, a gap-free stretch of the exchange's
      candles in which all but the newest are final and closed. */
  lemma {:induction false} StoreAlwaysFollows(ws: seq<World>, es: seq<Event>, i: nat)
    requires Run(ws, es) && i < |ws|
    ensures UpstreamOk(ws[i]) && StoreFollows(ws[i])
  {
    if i == 0 {
      forall s
        ensures Follows(ws[0].rows, s, UpOf(ws[0], s)) && Listed(s, UpOf(ws[0], s), ws[0].clock)
      {
        assert Tracks(ws[0].rows, s, UpOf(ws[0], s), 0, 0);
      }
    } else {
      StoreAlwaysFollows(ws, es, i - 1);
      StepFollows(ws[i - 1], es[i - 1], ws[i]);
    }
  }

  /** Row `t` of series `s` holds `prices`, is closed, has a newer row `u` beside it, and the exchange still
      reports exactly `prices` for it. */
  ghost predicate Settled(w: World, s: Series, t: int, u: int, prices: Prices) {
    && t < u && RowKey(u, s) in w.rows && RowKey(t, s) in w.rows
    && w.rows[RowKey(t, s)].prices == prices && w.rows[RowKey(t, s)].isClosed
    && RawCandle(t, prices) in UpOf(w, s)
  }

  /** The places on the exchange of two tracked rows. */
  lemma TrackedPlaces(rows: Table, s: Series, up: seq<RawCandle>, lo: nat, hi: nat, t: int, u: int)
    returns (m: nat, v: nat)
    requires SpacedFor(s.timeframe, up) && Tracks(rows, s, up, lo, hi)
    requires RowKey(t, s) in rows && RowKey(u, s) in rows && t < u
    ensures lo <= m < v < hi && up[m].timestamp == t && up[v].timestamp == u
    ensures rows[RowKey(t, s)].prices == up[m].prices && rows[RowKey(t, s)].isClosed
  {
    m :| lo <= m < hi && up[m].timestamp == t;
    v :| lo <= v < hi && up[v].timestamp == u;
  }

  lemma SettledAt(w: World, s: Series, lo: nat, hi: nat, m: nat, v: nat)
    requires Tracks(w.rows, s, UpOf(w, s), lo, hi) && lo <= m < v < hi
    requires UpOf(w, s)[m].timestamp < UpOf(w, s)[v].timestamp
    ensures Settled(w, s, UpOf(w, s)[m].timestamp, UpOf(w, s)[v].timestamp, UpOf(w, s)[m].prices)
  {
    var c := UpOf(w, s)[m];
    assert c == RawCandle(c.timestamp, c.prices);
  }

  lemma StepSettled(w: World, e: Event, w': World, s: Series, t: int, u: int, prices: Prices)
    requires Step(w, e, w') && UpstreamOk(w) && StoreFollows(w)
    requires Settled(w, s, t, u, prices)
    ensures Settled(w', s, t, u, prices)
  {
    assert Follows(w.rows, s, UpOf(w, s)) && Listed(s, UpOf(w, s), w.clock);
    var lo: nat, hi: nat :| Tracks(w.rows, s, UpOf(w, s), lo, hi);
    var m, v := TrackedPlaces(w.rows, s, UpOf(w, s), lo, hi, t, u);
    var lo', hi' := StepTracks(w, e, w', s, lo, hi);
    UpstreamStep(w, e, w', s);
    SettledAt(w', s, lo', hi', m, v);
  }

  lemma SettledNow(w: World, s: Series, t: int, u: int)
    requires UpstreamOk(w) && StoreFollows(w)
    requires RowKey(t, s) in w.rows && RowKey(u, s) in w.rows && t < u
    ensures Settled(w, s, t, u, w.rows[RowKey(t, s)].prices)
  {
    assert Follows(w.rows, s, UpOf(w, s)) && Listed(s, UpOf(w, s), w.clock);
    var lo: nat, hi: nat :| Tracks(w.rows, s, UpOf(w, s), lo, hi);
    var m, v := TrackedPlaces(w.rows, s, UpOf(w, s), lo, hi, t, u);
    SettledAt(w, s, lo, hi, m, v);
  }

  /** What every step of a stretch of a sequence keeps lasts to its end. */
  lemma {:induction false} Persists<T>(ws: seq<T>, p: T -> bool, i: nat, j: nat)
    requires i <= j < |ws| && p(ws[i])
    requires forall k :: i <= k < j && p(ws[k]) ==> p(ws[k + 1])
    ensures p(ws[j])
  {
    if i == j {
    } else {
      Persists(ws, p, i, j - 1);
    }
  }

  lemma StepOfRun(ws: seq<World>, es: seq<Event>, i: nat)
    requires Run(ws, es) && i < |es|
    ensures Step(ws[i], es[i], ws[i + 1]) && UpstreamOk(ws[i]) && StoreFollows(ws[i])
  {
    StoreAlwaysFollows(ws, es, i);
  }

  /** A stored candle with a newer one stored beside it is settled for the rest of the run: no later event
      changes its value or its closed mark, nor what the exchange reports for it. */
  lemma SettledForever(ws: seq<World>, es: seq<Event>, i: nat, j: nat, s: Series, t: int, u: int)
    requires Run(ws, es) && i <= j < |ws|
    requires RowKey(t, s) in ws[i].rows && RowKey(u, s) in ws[i].rows && t < u
    ensures Settled(ws[j], s, t, u, ws[i].rows[RowKey(t, s)].prices)
  {
    var prices := ws[i].rows[RowKey(t, s)].prices;
    StoreAlwaysFollows(ws, es, i);
    SettledNow(ws[i], s, t, u);
    forall k | i <= k < j && Settled(ws[k], s, t, u, prices)
      ensures Settled(ws[k + 1], s, t, u, prices)
    {
      StepOfRun(ws, es, k);
      StepSettled(ws[k], es[k], ws[k + 1], s, t, u, prices);
    }
    Persists(ws, w => Settled(w, s, t, u, prices), i, j);
  }

  /** The rows of `s` are exactly the exchange's candles from `lo` on, all with their current value. */
  ghost predicate UpToDate(rows: Table, s: Series, up: seq<RawCandle>, lo: nat) {
    && lo < |up|
    && (forall i :: lo <= i < |up| ==> HoldsAt(rows, s, up, i))
    && (forall t :: RowKey(t, s) in rows ==> exists i :: lo <= i < |up| && up[i].timestamp == t)
  }

  lemma NewestHeldIsUpToDate(rows: Table, s: Series, up: seq<RawCandle>, lo: nat, hi: nat)
    requires SpacedFor(s.timeframe, up) && Tracks(rows, s, up, lo, hi) && lo < hi && HoldsAt(rows, s, up, hi - 1)
    requires RowKey(up[|up| - 1].timestamp, s) in rows
    ensures UpToDate(rows, s, up, lo)
  {
    var m :| lo <= m < hi && up[m].timestamp == up[|up| - 1].timestamp;
    LastByTime(up, s.timeframe, m);
    forall i | lo <= i < |up|
      ensures HoldsAt(rows, s, up, i)
    {
    }
  }

  lemma LastByTime(up: seq<RawCandle>, timeframe: string, m: nat)
    requires SpacedFor(timeframe, up) && m < |up| && up[m].timestamp == up[|up| - 1].timestamp
    ensures m == |up| - 1
  {
  }

  /** When a successful reply reaches the exchange's newest candle, the store holds the exchange's current
      value of every candle from its first one on, the newest included. */
  lemma CompleteReplyCatchesUp(rows: Table, req: SyncRequest, env: Env, out: (Result<seq<Candle>>, Table),
                               up: seq<RawCandle>)
    returns (lo: nat)
    requires Synced(rows, req, env, out) && Follows(rows, SeriesOf(req), up)
    requires SpacedFor(SeriesOf(req).timeframe, up) && Answers(up, env, req)
    requires |up| > 0 && up[|up| - 1].timestamp <= env.now
    requires out.0.Ok? && out.0.value != []
    requires RowKey(up[|up| - 1].timestamp, SeriesOf(req)) in out.1
    ensures UpToDate(out.1, SeriesOf(req), up, lo)
  {
    var lo0: nat, hi0: nat :| Tracks(rows, SeriesOf(req), up, lo0, hi0);
    NormalizeExchangeIdempotent(req.timeframe);
    var hi: nat;
    lo, hi := SyncTracks(rows, req, env, out, up, lo0, hi0);
    NewestHeldIsUpToDate(out.1, SeriesOf(req), up, lo, hi);
  }

  ghost predicate IsNewest(w: World, s: Series, t: int) {
    RowKey(t, s) in w.rows && IsLatest(w.rows, s, t)
  }

  /** With a limit of one the store stops growing once it holds a candle: every later call refetches the
      newest stored candle alone, however far the exchange moves on. */
  lemma LimitOneNeverAdvances(ws: seq<World>, es: seq<Event>, i: nat, j: nat, s: Series, t: int)
    requires Run(ws, es) && i <= j < |ws| && IsNewest(ws[i], s, t)
    requires forall n :: i <= n < j && es[n].Sync? && SeriesOf(es[n].req) == s ==> es[n].req.limit == 1
    ensures IsNewest(ws[j], s, t)
  {
    forall k | i <= k < j && IsNewest(ws[k], s, t)
      ensures IsNewest(ws[k + 1], s, t)
    {
      StepOfRun(ws, es, k);
      LimitOneStays(ws[k], es[k], ws[k + 1], s, t);
    }
    Persists(ws, w => IsNewest(w, s, t), i, j);
  }

  lemma LimitOneStays(w: World, e: Event, w': World, s: Series, t: int)
    requires Step(w, e, w') && UpstreamOk(w) && StoreFollows(w)
    requires IsNewest(w, s, t) && (e.Sync? && SeriesOf(e.req) == s ==> e.req.limit == 1)
    ensures IsNewest(w', s, t)
  {
    assert Follows(w.rows, s, UpOf(w, s)) && Listed(s, UpOf(w, s), w.clock);
    var lo: nat, hi: nat :| Tracks(w.rows, s, UpOf(w, s), lo, hi);
    var lo', hi' := StepTracks(w, e, w', s, lo, hi);
    UpstreamStep(w, e, w', s);
    assert Listed(s, UpOf(w', s), w'.clock);
    NewestTracked(w.rows, s, UpOf(w, s), lo, hi, t);
    NewestTracked(w'.rows, s, UpOf(w', s), lo', hi', t);
  }

  lemma NoneAboveNewest(rows: Table, s: Series, up: seq<RawCandle>, lo: nat, hi: nat, u: int)
    requires SpacedFor(s.timeframe, up) && Tracks(rows, s, up, lo, hi) && RowKey(u, s) in rows
    ensures u <= up[hi - 1].timestamp
  {
    var i :| lo <= i < hi && up[i].timestamp == u;
    if i < hi - 1 {
      assert up[i].timestamp < up[hi - 1].timestamp;
    }
  }

  /** The newest row of a tracked series is the last candle of its stretch. */
  lemma NewestTracked(rows: Table, s: Series, up: seq<RawCandle>, lo: nat, hi: nat, t: int)
    requires SpacedFor(s.timeframe, up) && Tracks(rows, s, up, lo, hi) && lo < hi
    ensures RowKey(t, s) in rows && IsLatest(rows, s, t) <==> t == up[hi - 1].timestamp
  {
    var newest := up[hi - 1].timestamp;
    assert RowKey(newest, s) in rows;
    forall u | RowKey(u, s) in rows
      ensures u <= newest
    {
      NoneAboveNewest(rows, s, up, lo, hi, u);
    }
  }

  // ----- Catching up with a still exchange -----

  /** The exchange answers every request with at least `page` candles, or with all it has from there on. */
  ghost predicate AnswersPages(up: seq<RawCandle>, env: Env, req: SyncRequest, page: nat) {
    && env.symbol.Some?
    && forall since :: IsPage(up, since, req.limit, page, Polled(env, req, since))
  }

  ghost predicate IsPage(up: seq<RawCandle>, since: int, limit: int, page: nat, raw: Option<seq<RawCandle>>) {
    raw.Some? && exists k: nat, n: nat :: AnswersAt(up, since, limit, raw.value, k, n) && (n >= page || k + n == |up|)
  }

  /** A successful call that found the rows in `before`, while the exchange reports `up`. */
  ghost predicate SuccessfulCall(before: Table, after: Table, req: SyncRequest, env: Env, up: seq<RawCandle>,
                                 page: nat) {
    && env.latestOk && AnswersPages(up, env, req, page) && (|up| > 0 ==> up[|up| - 1].timestamp <= env.now)
    && exists candles :: Synced(before, req, env, (Ok(candles), after))
  }

  /** Nothing but the outside world decides whether a call succeeds: one for a named series of a supported timeframe
      does whenever every read, the poll and every write work. */
  lemma WorkingCallSucceeds(before: Table, req: SyncRequest, env: Env, out: (Result<seq<Candle>>, Table),
                            up: seq<RawCandle>, page: nat, length: int)
    requires Synced(before, req, env, out) && env.latestOk && AnswersPages(up, env, req, page)
    requires Trim(req.coinID) != "" && Trim(req.exchange) != "" && IsLength(Lower(Trim(req.timeframe)), length)
    requires |up| > 0 ==> up[|up| - 1].timestamp <= env.now
    requires |up| <= env.written && forall i :: 0 <= i < |up| ==> up[i].timestamp != ZERO_TIME
    ensures SuccessfulCall(before, out.1, req, env, up, page)
  {
    var latest :| IsLatest(before, SeriesOf(req), latest);
    var since := if latest == ZERO_TIME then req.since else latest;
    assert IsPage(up, since, req.limit, page, Polled(env, req, since));
    SyncSucceedsIff(before, req, env, out, latest);
  }

  lemma PageIsAnswer(up: seq<RawCandle>, env: Env, req: SyncRequest, page: nat)
    requires AnswersPages(up, env, req, page)
    ensures Answers(up, env, req)
  {
    forall since
      ensures var raw := Polled(env, req, since);
              raw.Some? ==> exists k: nat, n: nat :: AnswersAt(up, since, req.limit, raw.value, k, n)
    {
      var raw := Polled(env, req, since);
      assert IsPage(up, since, req.limit, page, raw);
    }
  }

  /** The answer from the newest stored candle on is not empty, and has a page's length or reaches the exchange's
      newest. */
  lemma PageReply(req: SyncRequest, env: Env, up: seq<RawCandle>, page: nat, hi: nat, candles: seq<Candle>)
    requires SpacedFor(req.timeframe, up) && AnswersPages(up, env, req, page) && 0 < hi <= |up| && page > 0
    requires up[hi - 1].timestamp != ZERO_TIME && Fetch(req, up[hi - 1].timestamp, env) == Ok(candles)
    ensures 0 < |candles| && (|candles| >= page || hi - 1 + |candles| == |up|)
  {
    var since := up[hi - 1].timestamp;
    var raw := Polled(env, req, since);
    assert IsPage(up, since, req.limit, page, raw);
    var k: nat, n: nat :| AnswersAt(up, since, req.limit, raw.value, k, n) && (n >= page || k + n == |up|);
    NormalizeExchangeIdempotent(req.timeframe);
    StretchStartsAtNewest(up, TimeframeDuration(req.timeframe).value, req.limit, k, n, hi);
  }

  /** The stretch from `lo` ends at `hi` and is not empty. */
  ghost predicate Reaches(rows: Table, s: Series, up: seq<RawCandle>, lo: nat, hi: nat) {
    lo < hi && Tracks(rows, s, up, lo, hi)
  }

  /** The stretch ends `gain` candles or more behind `hi`, or at the exchange's newest candle. */
  predicate Gained(up: seq<RawCandle>, hi: nat, gain: nat, hi': nat) {
    hi' == |up| || hi + gain <= hi'
  }

  /** What a successful call with a page of at least two leaves: all but one of the page's candles are gained. */
  lemma CallGains(before: Table, after: Table, req: SyncRequest, env: Env, up: seq<RawCandle>, page: nat, lo: nat,
                  hi: nat) returns (hi': nat)
    requires SpacedFor(req.timeframe, up) && SuccessfulCall(before, after, req, env, up, page) && page >= 2
    requires Reaches(before, SeriesOf(req), up, lo, hi)
    ensures Reaches(after, SeriesOf(req), up, lo, hi') && Gained(up, hi, page - 1, hi')
    ensures HoldsAt(after, SeriesOf(req), up, hi' - 1)
  {
    var candles :| Synced(before, req, env, (Ok(candles), after));
    ReplyLength(before, after, req, env, up, page, lo, hi, candles);
    PageIsAnswer(up, env, req, page);
    var lo';
    lo', hi' := SyncTracks(before, req, env, (Ok(candles), after), up, lo, hi);
  }

  lemma ReplyLength(before: Table, after: Table, req: SyncRequest, env: Env, up: seq<RawCandle>, page: nat, lo: nat,
                    hi: nat, candles: seq<Candle>)
    requires SpacedFor(req.timeframe, up) && AnswersPages(up, env, req, page) && env.latestOk && page > 0
    requires Reaches(before, SeriesOf(req), up, lo, hi) && Synced(before, req, env, (Ok(candles), after))
    ensures 0 < |candles| && (|candles| >= page || hi - 1 + |candles| == |up|)
  {
    var latest :| IsLatest(before, SeriesOf(req), latest)
                  && (Ok(candles), after)
                     == SyncFrom(before, req, if latest == ZERO_TIME then req.since else latest, env);
    NewestIsLatest(before, req, up, lo, hi, latest);
    PageReply(req, env, up, page, hi, candles);
  }

  lemma NewestIsLatest(rows: Table, req: SyncRequest, up: seq<RawCandle>, lo: nat, hi: nat, latest: int)
    requires SpacedFor(req.timeframe, up) && Tracks(rows, SeriesOf(req), up, lo, hi) && lo < hi
    requires IsLatest(rows, SeriesOf(req), latest)
    ensures latest == up[hi - 1].timestamp && latest != ZERO_TIME
  {
    NormalizeExchangeIdempotent(req.timeframe);
    var d := TimeframeDuration(req.timeframe);
    LatestOfTracked(rows, SeriesOf(req), up, if d.Ok? then d.value else 1, lo, hi, latest);
  }

  /** Successful calls for one series, one after the other, while the exchange stands still. */
  ghost predicate SteadyCalls(tables: seq<Table>, req: SyncRequest, envs: seq<Env>, up: seq<RawCandle>, page: nat) {
    && |tables| == |envs| + 1
    && forall i {:trigger envs[i]} :: 0 <= i < |envs| ==>
                                        SuccessfulCall(tables[i], tables[i + 1], req, envs[i], up, page)
  }

  lemma SteadyCallGains(tables: seq<Table>, req: SyncRequest, envs: seq<Env>, up: seq<RawCandle>, page: nat, lo: nat,
                        hi: nat, n: nat) returns (hi': nat)
    requires SpacedFor(req.timeframe, up) && SteadyCalls(tables, req, envs, up, page) && page >= 2 && n < |envs|
    requires Reaches(tables[n], SeriesOf(req), up, lo, hi)
    ensures Reaches(tables[n + 1], SeriesOf(req), up, lo, hi') && Gained(up, hi, page - 1, hi')
    ensures HoldsAt(tables[n + 1], SeriesOf(req), up, hi' - 1)
  {
    assert SuccessfulCall(tables[n], tables[n + 1], req, envs[n], up, page);
    hi' := CallGains(tables[n], tables[n + 1], req, envs[n], up, page, lo, hi);
  }

  /** One more of the calls, when `n` of them gained what they could. */
  lemma NextCallGains(tables: seq<Table>, req: SyncRequest, envs: seq<Env>, up: seq<RawCandle>, page: nat, lo: nat,
                      hi: nat, n: nat, mid: nat) returns (hi': nat)
    requires SpacedFor(req.timeframe, up) && SteadyCalls(tables, req, envs, up, page) && page >= 2 && n < |envs|
    requires Reaches(tables[n], SeriesOf(req), up, lo, mid) && Gained(up, hi, n * (page - 1), mid)
    ensures Reaches(tables[n + 1], SeriesOf(req), up, lo, hi') && Gained(up, hi, (n + 1) * (page - 1), hi')
    ensures HoldsAt(tables[n + 1], SeriesOf(req), up, hi' - 1)
  {
    hi' := SteadyCallGains(tables, req, envs, up, page, lo, mid, n);
    assert (n + 1) * (page - 1) == n * (page - 1) + (page - 1);
  }

  lemma {:induction false} CallsGain(tables: seq<Table>, req: SyncRequest, envs: seq<Env>, up: seq<RawCandle>,
                                     page: nat, lo: nat, hi: nat, n: nat) returns (hi': nat)
    requires SpacedFor(req.timeframe, up) && SteadyCalls(tables, req, envs, up, page) && page >= 2 && n <= |envs|
    requires Reaches(tables[0], SeriesOf(req), up, lo, hi)
    ensures Reaches(tables[n], SeriesOf(req), up, lo, hi') && Gained(up, hi, n * (page - 1), hi')
  {
    if n == 0 {
      hi' := hi;
    } else {
      var mid := CallsGain(tables, req, envs, up, page, lo, hi, n - 1);
      hi' := NextCallGains(tables, req, envs, up, page, lo, hi, n - 1, mid);
    }
  }

  /** A still exchange that answers in pages of at least two candles, whatever the limit asked for and without one,
      is caught up with after a bounded number of successful calls: once they could have gained every missing candle,
      the store holds the exchange's current value of every candle from its first one on. */
  lemma StillExchangeIsReached(tables: seq<Table>, req: SyncRequest, envs: seq<Env>, up: seq<RawCandle>, page: nat,
                               lo: nat, hi: nat)
    requires SpacedFor(req.timeframe, up) && SteadyCalls(tables, req, envs, up, page) && page >= 2 && envs != []
    requires Reaches(tables[0], SeriesOf(req), up, lo, hi)
    requires |up| - hi <= |envs| * (page - 1)
    ensures UpToDate(tables[|envs|], SeriesOf(req), up, lo)
  {
    var n := |envs| - 1;
    var mid := CallsGain(tables, req, envs, up, page, lo, hi, n);
    var hi' := NextCallGains(tables, req, envs, up, page, lo, hi, n, mid);
    NormalizeExchangeIdempotent(req.timeframe);
    NewestHeldIsUpToDate(tables[|envs|], SeriesOf(req), up, lo, hi');
  }

  // ----- An instance of a stalled series -----

  /** The first candle that begins at or after `since`, alone. */
  function FirstFrom(up: seq<RawCandle>, since: int): seq<RawCandle> {
    if up == [] then [] else if since <= up[0].timestamp then [up[0]] else FirstFrom(up[1..], since)
  }

  lemma {:induction false} FirstFromAnswers(up: seq<RawCandle>, since: int) returns (k: nat, n: nat)
    requires WellSpaced(up, 1)
    ensures AnswersAt(up, since, 1, FirstFrom(up, since), k, n)
  {
    if up == [] {
      k, n := 0, 0;
    } else if since <= up[0].timestamp {
      k, n := 0, 1;
    } else {
      k, n := FirstFromAnswers(up[1..], since);
      assert up[1..][k..k + n] == up[k + 1..k + 1 + n];
      k := k + 1;
    }
  }

  function OneAtATime(up: seq<RawCandle>): (string, string, string, int, int) -> Option<seq<RawCandle>> {
    (_: string, _: string, _: string, since: int, _: int) => Some(FirstFrom(up, since))
  }

  const STALLED := Series("c", "e", "1m")

  function StalledRequest(): SyncRequest {
    SyncRequest("c", "e", "1m", 60000, 1)
  }

  function CandleAt(time: int): RawCandle {
    RawCandle(time, Prices(1.0, 1.0, 1.0, 1.0, 1.0))
  }

  function StalledEnv(up: seq<RawCandle>, now: int): Env {
    Env(true, Some("C/USDT"), OneAtATime(up), now, 1)
  }

  lemma StalledNames()
    ensures SeriesOf(StalledRequest()) == STALLED && TimeframeDuration("1m") == Ok(60000)
  {
    assert Trim("c") == "c" && Trim("e") == "e" && Trim("1m") == "1m";
    assert Lower("e") == "e" && Lower("1m") == "1m";
  }

  /** A call at the stalled exchange has some outcome, and the exchange's answers are legal. */
  lemma StalledCall(rows: Table, up: seq<RawCandle>, now: int, latest: int) returns (out: (Result<seq<Candle>>, Table))
    requires SpacedFor("1m", up) && IsLatest(rows, STALLED, latest)
    ensures Answers(up, StalledEnv(up, now), StalledRequest())
    ensures Synced(rows, StalledRequest(), StalledEnv(up, now), out)
    ensures out == SyncFrom(rows, StalledRequest(), if latest == ZERO_TIME then 60000 else latest, StalledEnv(up, now))
  {
    StalledNames();
    var req, env := StalledRequest(), StalledEnv(up, now);
    forall since
      ensures var raw := Polled(env, req, since);
              raw.Some? ==> exists k: nat, n: nat :: AnswersAt(up, since, req.limit, raw.value, k, n)
    {
      var k, n := FirstFromAnswers(up, since);
    }
    out := SyncFrom(rows, req, if latest == ZERO_TIME then req.since else latest, env);
  }

  lemma StalledReply(up: seq<RawCandle>, env: Env)
    requires up == [CandleAt(60000)] && env == StalledEnv(up, 60000)
    ensures var out := SyncFrom(map[], StalledRequest(), 60000, env); out.0.Ok? && |out.0.value| == 1
  {
    StalledNames();
    var fetched := Fetch(StalledRequest(), 60000, env);
    assert env.poll(NormalizeExchange("e"), "C/USDT", NormalizeExchange("1m"), 60000, 1) == Some(up);
    assert fetched.Ok? && |fetched.value| == 1;
  }

  /** The first call stores the exchange's only candle. */
  lemma StalledFirstCall(up: seq<RawCandle>) returns (rows: Table)
    requires up == [CandleAt(60000)]
    ensures Answers(up, StalledEnv(up, 60000), StalledRequest())
    ensures exists r :: Synced(map[], StalledRequest(), StalledEnv(up, 60000), (r, rows))
    ensures RowKey(60000, STALLED) in rows && IsLatest(rows, STALLED, 60000)
  {
    StalledNames();
    var req, env := StalledRequest(), StalledEnv(up, 60000);
    var out := StalledCall(map[], up, 60000, ZERO_TIME);
    rows := out.1;
    StalledReply(up, env);
    assert Tracks(map[], STALLED, up, 0, 0);
    var lo, hi := SyncTracks(map[], req, env, out, up, 0, 0);
    NewestTracked(rows, STALLED, up, lo, hi, 60000);
  }

  lemma SyncIsStep(w: World, req: SyncRequest, env: Env, rows: Table)
    requires w.clock <= env.now && Answers(UpOf(w, SeriesOf(req)), env, req)
    requires exists r :: Synced(w.rows, req, env, (r, rows))
    ensures Step(w, Event.Sync(req, env), World(rows, w.ups, env.now))
  {
  }

  lemma UpstreamIsStep(w: World, s: Series, up: seq<RawCandle>, at: int)
    requires w.clock <= at && Evolves(UpOf(w, s), up) && Listed(s, up, at)
    ensures Step(w, Upstream(s, up, at), World(w.rows, w.ups[s := up], at))
  {
  }

  lemma RunOfFour(ws: seq<World>, es: seq<Event>)
    requires |es| == 4 && |ws| == 5 && ws[0].rows == map[] && ws[0].ups == map[]
    requires Step(ws[0], es[0], ws[1]) && Step(ws[1], es[1], ws[2]) && Step(ws[2], es[2], ws[3])
    requires Step(ws[3], es[3], ws[4])
    ensures Run(ws, es)
  {
    forall i | 0 <= i < 4
      ensures Step(ws[i], es[i], ws[i + 1])
    {
      assert i == 0 || i == 1 || i == 2 || i == 3;
    }
  }

  const ONE_CANDLE := [CandleAt(60000)]
  const TWO_CANDLES := [CandleAt(60000), CandleAt(120000)]

  function FirstEnv(): Env {
    StalledEnv(ONE_CANDLE, 60000)
  }

  function SecondEnv(): Env {
    StalledEnv(TWO_CANDLES, 120000)
  }

  function StalledWorlds(rows: Table, last: Table): seq<World> {
    [World(map[], map[], 0),
     World(map[], map[STALLED := ONE_CANDLE], 60000),
     World(rows, map[STALLED := ONE_CANDLE], 60000),
     World(rows, map[STALLED := TWO_CANDLES], 120000),
     World(last, map[STALLED := TWO_CANDLES], 120000)]
  }

  function StalledEvents(): seq<Event> {
    [Upstream(STALLED, ONE_CANDLE, 60000), Event.Sync(StalledRequest(), FirstEnv()),
     Upstream(STALLED, TWO_CANDLES, 120000), Event.Sync(StalledRequest(), SecondEnv())]
  }

  lemma StalledListed()
    ensures Listed(STALLED, ONE_CANDLE, 60000) && Listed(STALLED, TWO_CANDLES, 120000)
    ensures SpacedFor("1m", TWO_CANDLES)
    ensures Evolves([], ONE_CANDLE) && Evolves(ONE_CANDLE, TWO_CANDLES)
  {
    StalledNames();
  }

  lemma StalledUpstream(rows: Table, last: Table)
    ensures var ws, es := StalledWorlds(rows, last), StalledEvents();
            Step(ws[0], es[0], ws[1]) && Step(ws[2], es[2], ws[3])
  {
    StalledListed();
    var ws := StalledWorlds(rows, last);
    UpstreamIsStep(ws[0], STALLED, ONE_CANDLE, 60000);
    UpstreamIsStep(ws[2], STALLED, TWO_CANDLES, 120000);
    assert ws[2].ups[STALLED := TWO_CANDLES] == ws[3].ups;
  }

  lemma FirstSyncIsStep(rows: Table, last: Table)
    requires Answers(ONE_CANDLE, FirstEnv(), StalledRequest())
    requires exists r :: Synced(map[], StalledRequest(), FirstEnv(), (r, rows))
    ensures var ws, es := StalledWorlds(rows, last), StalledEvents(); Step(ws[1], es[1], ws[2])
  {
    StalledNames();
    SyncIsStep(StalledWorlds(rows, last)[1], StalledRequest(), FirstEnv(), rows);
  }

  lemma SecondSyncIsStep(rows: Table, last: Table)
    requires Answers(TWO_CANDLES, SecondEnv(), StalledRequest())
    requires exists r :: Synced(rows, StalledRequest(), SecondEnv(), (r, last))
    ensures var ws, es := StalledWorlds(rows, last), StalledEvents(); Step(ws[3], es[3], ws[4])
  {
    StalledNames();
    SyncIsStep(StalledWorlds(rows, last)[3], StalledRequest(), SecondEnv(), last);
  }

  lemma StalledRows() returns (rows: Table, last: Table)
    ensures var ws, es := StalledWorlds(rows, last), StalledEvents();
            Step(ws[1], es[1], ws[2]) && Step(ws[3], es[3], ws[4])
    ensures IsNewest(StalledWorlds(rows, last)[2], STALLED, 60000)
  {
    StalledListed();
    rows := StalledFirstCall(ONE_CANDLE);
    var out := StalledCall(rows, TWO_CANDLES, 120000, 60000);
    last := out.1;
    FirstSyncIsStep(rows, last);
    SecondSyncIsStep(rows, last);
  }

  /** An instance: the exchange has two candles and two calls with a limit of one run, yet the store holds the
      first candle as its newest. */
  lemma StalledInstance() returns (ws: seq<World>, es: seq<Event>)
    ensures Run(ws, es) && |es| == 4 && es == StalledEvents()
    ensures UpOf(ws[4], STALLED) == TWO_CANDLES && IsNewest(ws[4], STALLED, 60000)
  {
    var rows, last := StalledRows();
    ws, es := StalledWorlds(rows, last), StalledEvents();
    StalledUpstream(rows, last);
    RunOfFour(ws, es);
    LimitOneNeverAdvances(ws, es, 2, 4, STALLED, 60000);
  }
}
