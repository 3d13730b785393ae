/** Labelling candles with the macro points around them (quant/src/quant/events.py). */
module MacroLabels {
  import opened Text

  /** A value is None where the program holds NaN. */
  datatype MacroPoint = MacroPoint(seriesID: string, timestamp: int, value: Option<real>)

  datatype Candle = Candle(timestamp: Option<int>, symbol: string, timeframe: string)

  datatype Row = Row(timestamp: int, symbol: string, timeframe: string)

  datatype Label = Label(timestamp: int, symbol: string, timeframe: string, rateDirection: string, rateRegime: string,
                         cpiTrend: string, hoursToEvent: real, proximity: string)

  // ----- Stable sorting -----

  /** Puts `x` behind every element whose key is not greater. */
  function InsertBy<T>(key: T -> int, xs: seq<T>, x: T): seq<T> {
    if xs == [] || key(xs[|xs| - 1]) <= key(x) then xs + [x]
    else InsertBy(key, xs[..|xs| - 1], x) + [xs[|xs| - 1]]
  }

  function SortBy<T>(key: T -> int, xs: seq<T>): seq<T> {
    if xs == [] then [] else InsertBy(key, SortBy(key, xs[..|xs| - 1]), xs[|xs| - 1])
  }

  function Filter<T>(keep: T -> bool, xs: seq<T>): seq<T> {
    if xs == [] then []
    else Filter(keep, xs[..|xs| - 1]) + if keep(xs[|xs| - 1]) then [xs[|xs| - 1]] else []
  }

  ghost predicate SortedBy<T>(key: T -> int, xs: seq<T>) {
    forall i, j :: 0 <= i < j < |xs| ==> key(xs[i]) <= key(xs[j])
  }

  lemma {:induction false} InsertKeepsElements<T>(key: T -> int, xs: seq<T>, x: T)
    ensures multiset(InsertBy(key, xs, x)) == multiset(xs) + multiset{x}
  {
    if xs != [] && key(xs[|xs| - 1]) > key(x) {
      InsertKeepsElements(key, xs[..|xs| - 1], x);
      assert xs == xs[..|xs| - 1] + [xs[|xs| - 1]];
    }
  }

  ghost predicate AtMost<T>(key: T -> int, xs: seq<T>, bound: int) {
    forall i :: 0 <= i < |xs| ==> key(xs[i]) <= bound
  }

  lemma {:induction false} InsertAtMost<T>(key: T -> int, xs: seq<T>, x: T, bound: int)
    requires AtMost(key, xs, bound) && key(x) <= bound
    ensures AtMost(key, InsertBy(key, xs, x), bound)
  {
    if xs != [] && key(xs[|xs| - 1]) > key(x) {
      InsertAtMost(key, xs[..|xs| - 1], x, bound);
    }
  }

  lemma {:induction false} InsertSorts<T>(key: T -> int, xs: seq<T>, x: T)
    requires SortedBy(key, xs)
    ensures SortedBy(key, InsertBy(key, xs, x))
  {
    if xs != [] && key(xs[|xs| - 1]) > key(x) {
      InsertSorts(key, xs[..|xs| - 1], x);
      InsertAtMost(key, xs[..|xs| - 1], x, key(xs[|xs| - 1]));
    }
  }

  lemma {:induction false} SortKeepsElements<T>(key: T -> int, xs: seq<T>)
    ensures multiset(SortBy(key, xs)) == multiset(xs)
  {
    if xs == [] {
    } else {
      var init, last := xs[..|xs| - 1], xs[|xs| - 1];
      SortKeepsElements(key, init);
      InsertKeepsElements(key, SortBy(key, init), last);
      LastAndRest(xs);
    }
  }

  lemma LastAndRest<T>(xs: seq<T>)
    requires xs != []
    ensures multiset(xs) == multiset(xs[..|xs| - 1]) + multiset{xs[|xs| - 1]}
  {
    assert xs == xs[..|xs| - 1] + [xs[|xs| - 1]];
  }

  lemma {:induction false} SortOrders<T>(key: T -> int, xs: seq<T>)
    ensures SortedBy(key, SortBy(key, xs))
  {
    if xs == [] {
    } else {
      SortOrders(key, xs[..|xs| - 1]);
      InsertSorts(key, SortBy(key, xs[..|xs| - 1]), xs[|xs| - 1]);
    }
  }

  /** Sorting orders by key and keeps every element. */
  lemma {:induction false} SortSorts<T>(key: T -> int, xs: seq<T>)
    ensures SortedBy(key, SortBy(key, xs))
    ensures multiset(SortBy(key, xs)) == multiset(xs)
  {
    SortOrders(key, xs);
    SortKeepsElements(key, xs);
  }

  lemma FilterOneMore<T>(keep: T -> bool, xs: seq<T>, x: T)
    ensures Filter(keep, xs + [x]) == Filter(keep, xs) + if keep(x) then [x] else []
  {
    assert (xs + [x])[..|xs|] == xs;
  }

  lemma {:induction false} FilterInserted<T>(keep: T -> bool, key: T -> int, xs: seq<T>, x: T)
    requires SortedBy(key, xs)
    ensures Filter(keep, InsertBy(key, xs, x))
                == if keep(x) then InsertBy(key, Filter(keep, xs), x) else Filter(keep, xs)
  {
    if xs == [] || key(xs[|xs| - 1]) <= key(x) {
      FilterOneMore(keep, xs, x);
      AllBelow(keep, key, xs, key(x));
    } else {
      var init, last := xs[..|xs| - 1], xs[|xs| - 1];
      FilterInserted(keep, key, init, x);
      FilterOneMore(keep, InsertBy(key, init, x), last);
      var kept := Filter(keep, init);
      assert (kept + [last])[..|kept|] == kept;
      assert kept + [] == kept;
    }
  }

  lemma {:induction false} AllBelow<T>(keep: T -> bool, key: T -> int, xs: seq<T>, bound: int)
    requires AtMost(key, xs, bound)
    ensures AtMost(key, Filter(keep, xs), bound)
  {
    if xs == [] {
    } else {
      AllBelow(keep, key, xs[..|xs| - 1], bound);
    }
  }

  /** Sorting is stable: it commutes with keeping any part of the elements. */
  lemma {:induction false} FilterSorted<T>(keep: T -> bool, key: T -> int, xs: seq<T>)
    ensures Filter(keep, SortBy(key, xs)) == SortBy(key, Filter(keep, xs))
  {
    if xs == [] {
    } else {
      var init, last := xs[..|xs| - 1], xs[|xs| - 1];
      FilterSorted(keep, key, init);
      SortOrders(key, init);
      FilterInserted(keep, key, SortBy(key, init), last);
      var kept := Filter(keep, init);
      assert (kept + [last])[..|kept|] == kept;
      assert kept + [] == kept;
    }
  }

  lemma {:induction false} FilterTwice<T>(p: T -> bool, q: T -> bool, both: T -> bool, xs: seq<T>)
    requires forall x :: x in xs ==> both(x) == (p(x) && q(x))
    ensures Filter(p, Filter(q, xs)) == Filter(both, xs)
  {
    if xs == [] {
    } else {
      var init, last := xs[..|xs| - 1], xs[|xs| - 1];
      FilterTwice(p, q, both, init);
      if q(last) {
        FilterOneMore(p, Filter(q, init), last);
      } else {
        assert Filter(q, init) + [] == Filter(q, init);
      }
    }
  }

  // ----- Classifiers -----

  function ClassifyRateRegime(rate: Option<real>): string {
    if rate.None? then "low_zirp"
    else if rate.value >= 5.0 then "very_high"
    else if rate.value >= 3.0 then "high"
    else if rate.value >= 1.0 then "medium"
    else "low_zirp"
  }

  /** The values that are numbers. */
  function Numbers(values: seq<Option<real>>): seq<real> {
    if values == [] then [] else (if values[0].Some? then [values[0].value] else []) + Numbers(values[1..])
  }

  function ClassifyRateDirection(series: seq<Option<real>>): string {
    var values := Numbers(series);
    if |values| < 2 then "paused"
    else if values[|values| - 1] > values[0] then "hiking"
    else if values[|values| - 1] < values[0] then "cutting"
    else "paused"
  }

  /** The slope of the least-squares line through three values at 0, 1 and 2. */
  function LeastSquaresSlope(a: real, b: real, c: real): real {
    var mean := (a + b + c) / 3.0;
    ((0.0 - 1.0) * (a - mean) + 0.0 * (b - mean) + 1.0 * (c - mean)) / 2.0
  }

  function ClassifyCpiTrend(series: seq<Option<real>>): string {
    var values := Numbers(series);
    var n := |values|;
    if n < 3 then "stable"
    else
      var slope := LeastSquaresSlope(values[n - 3], values[n - 2], values[n - 1]);
      if slope > 0.2 then "accelerating" else if slope > -0.2 then "stable" else "cooling"
  }

  function ClassifyProximity(hours: real): string {
    if -4.0 <= hours < 0.0 then "imminent"
    else if -24.0 <= hours < -4.0 then "pre_near"
    else if -72.0 <= hours < -24.0 then "pre_far"
    else if 0.0 <= hours < 4.0 then "post_near"
    else if 4.0 <= hours < 24.0 then "post_mid"
    else if 24.0 <= hours < 72.0 then "post_far"
    else "neutral"
  }

  // ----- Labels -----

  function Time(p: MacroPoint): int {
    p.timestamp
  }

  function RowTime(r: Row): int {
    r.timestamp
  }

  function OfSeries(id: string): MacroPoint -> bool {
    (p: MacroPoint) => p.seriesID == id
  }

  function UpTo(cutoff: int): MacroPoint -> bool {
    (p: MacroPoint) => p.timestamp <= cutoff
  }

  /** The points of the given series up to the cutoff, in time order. */
  function SeriesValuesBefore(lookup: map<string, seq<MacroPoint>>, ids: seq<string>, cutoff: int): seq<MacroPoint> {
    SortBy(Time, Gather(lookup, ids, cutoff))
  }

  function Gather(lookup: map<string, seq<MacroPoint>>, ids: seq<string>, cutoff: int): seq<MacroPoint> {
    if ids == [] then []
    else
      var n := |ids| - 1;
      Gather(lookup, ids[..n], cutoff) + OneSeries(lookup, ids[n], cutoff)
  }

  function Last3(values: seq<MacroPoint>): seq<Option<real>> {
    var last := if |values| > 3 then values[|values| - 3..] else values;
    seq(|last|, i requires 0 <= i < |last| => last[i].value)
  }

  /** Hours from the first time to the second; times are in seconds. */
  function HoursDelta(start: int, end: int): real {
    (end - start) as real / 3600.0
  }

  function Distance(p: MacroPoint, cutoff: int): int {
    if p.timestamp < cutoff then cutoff - p.timestamp else p.timestamp - cutoff
  }

  /** The first of the points nearest to the cutoff. */
  function Nearest(points: seq<MacroPoint>, cutoff: int): Option<MacroPoint> {
    if points == [] then None
    else
      var best := Nearest(points[..|points| - 1], cutoff);
      var p := points[|points| - 1];
      if best.None? || Distance(p, cutoff) < Distance(best.value, cutoff) then Some(p) else best
  }

  function LabelRow(lookup: map<string, seq<MacroPoint>>, all: seq<MacroPoint>, row: Row): Label {
    var rates := SeriesValuesBefore(lookup, ["FEDFUNDS", "DFF"], row.timestamp);
    var cpi := SeriesValuesBefore(lookup, ["CPIAUCSL"], row.timestamp);
    var nearest := Nearest(all, row.timestamp);
    var hours := if nearest.Some? then HoursDelta(nearest.value.timestamp, row.timestamp) else 0.0;
    Label(row.timestamp, row.symbol, row.timeframe,
          ClassifyRateDirection(Last3(rates)),
          ClassifyRateRegime(if rates == [] then Some(0.0) else rates[|rates| - 1].value),
          ClassifyCpiTrend(Last3(cpi)),
          hours, ClassifyProximity(hours))
  }

  function NormalizeCandles(candles: seq<Candle>): seq<Row> {
    SortBy(RowTime, DatedRows(candles))
  }

  function DatedRows(candles: seq<Candle>): seq<Row> {
    if candles == [] then []
    else
      var c := candles[|candles| - 1];
      DatedRows(candles[..|candles| - 1])
      + if c.timestamp.Some? then [Row(c.timestamp.value, Trim(c.symbol), Lower(Trim(c.timeframe)))] else []
  }

  /** The points of each series, in time order. */
  ghost predicate IsLookup(lookup: map<string, seq<MacroPoint>>, sorted: seq<MacroPoint>) {
    forall id :: (if id in lookup then lookup[id] else []) == Filter(OfSeries(id), sorted)
  }

  method BuildLookup(sorted: seq<MacroPoint>) returns (lookup: map<string, seq<MacroPoint>>)
    ensures IsLookup(lookup, sorted)
  {
    lookup := map[];
    for i := 0 to |sorted|
      invariant IsLookup(lookup, sorted[..i])
    {
      var p := sorted[i];
      assert sorted[..i + 1] == sorted[..i] + [p];
      forall id
        ensures Filter(OfSeries(id), sorted[..i + 1])
                        == Filter(OfSeries(id), sorted[..i]) + if p.seriesID == id then [p] else []
      {
        FilterOneMore(OfSeries(id), sorted[..i], p);
      }
      if p.seriesID !in lookup {
        lookup := lookup[p.seriesID := []];
      }
      lookup := lookup[p.seriesID := lookup[p.seriesID] + [p]];
    }
    assert sorted[..|sorted|] == sorted;
  }

  /** The labelling loop, for any way of labelling one row. */
  method LabelRows(rows: seq<Row>, f: Row -> Label) returns (labels: seq<Label>)
    ensures |labels| == |rows| && forall i :: 0 <= i < |rows| ==> labels[i] == f(rows[i])
  {
    labels := [];
    for i := 0 to |rows|
      invariant |labels| == i && forall j :: 0 <= j < i ==> labels[j] == f(rows[j])
    {
      labels := labels + [f(rows[i])];
    }
  }

  /** One label for each row, in order, by some lookup of the sorted points. */
  ghost predicate IsLabelling(labels: seq<Label>, rows: seq<Row>, lookup: map<string, seq<MacroPoint>>,
                              sorted: seq<MacroPoint>) {
    && IsLookup(lookup, sorted)
    && |labels| == |rows| && forall i :: 0 <= i < |rows| ==> labels[i] == LabelRow(lookup, sorted, rows[i])
  }

  method LabelCandleEvents(candles: seq<Candle>, points: seq<MacroPoint>) returns (labels: seq<Label>)
    ensures exists lookup :: IsLabelling(labels, NormalizeCandles(candles), lookup, SortBy(Time, points))
  {
    var rows := NormalizeCandles(candles);
    var sorted := SortBy(Time, points);
    var lookup := BuildLookup(sorted);
    labels := LabelRows(rows, row => LabelRow(lookup, sorted, row));
    assert IsLabelling(labels, rows, lookup, sorted);
  }

  // ----- Later points do not change the rate and CPI labels -----

  /** One series up to a cutoff depends only on the points up to it. */
  lemma SeriesUpTo(points: seq<MacroPoint>, id: string, cutoff: int)
    ensures Filter(UpTo(cutoff), Filter(OfSeries(id), SortBy(Time, points)))
            == SortBy(Time, Filter(OfSeries(id), Filter(UpTo(cutoff), points)))
  {
    var both := (p: MacroPoint) => p.seriesID == id && p.timestamp <= cutoff;
    FilterTwice(UpTo(cutoff), OfSeries(id), both, SortBy(Time, points));
    FilterSorted(both, Time, points);
    FilterTwice(OfSeries(id), UpTo(cutoff), both, points);
  }

  /** What one series contributes up to a cutoff. */
  function OneSeries(lookup: map<string, seq<MacroPoint>>, id: string, cutoff: int): seq<MacroPoint> {
    Filter(UpTo(cutoff), if id in lookup then lookup[id] else [])
  }

  lemma OneSeriesDependsOnPast(a: seq<MacroPoint>, b: seq<MacroPoint>, la: map<string, seq<MacroPoint>>,
                               lb: map<string, seq<MacroPoint>>, id: string, cutoff: int)
    requires IsLookup(la, SortBy(Time, a)) && IsLookup(lb, SortBy(Time, b))
    requires Filter(UpTo(cutoff), a) == Filter(UpTo(cutoff), b)
    ensures OneSeries(la, id, cutoff) == OneSeries(lb, id, cutoff)
  {
    SeriesUpTo(a, id, cutoff);
    SeriesUpTo(b, id, cutoff);
  }

  lemma {:induction false} GatherDependsOnPast(a: seq<MacroPoint>, b: seq<MacroPoint>, la: map<string, seq<MacroPoint>>,
                                               lb: map<string, seq<MacroPoint>>, ids: seq<string>, cutoff: int)
    requires IsLookup(la, SortBy(Time, a)) && IsLookup(lb, SortBy(Time, b))
    requires Filter(UpTo(cutoff), a) == Filter(UpTo(cutoff), b)
    ensures Gather(la, ids, cutoff) == Gather(lb, ids, cutoff)
  {
    if ids == [] {
    } else {
      GatherDependsOnPast(a, b, la, lb, ids[..|ids| - 1], cutoff);
      OneSeriesDependsOnPast(a, b, la, lb, ids[|ids| - 1], cutoff);
    }
  }

  /** Two inputs with the same points up to a candle's time give it the same rate direction, rate regime and
      CPI trend, however the later points differ and wherever they stand. */
  lemma LabelsDependOnPast(a: seq<MacroPoint>, b: seq<MacroPoint>, la: map<string, seq<MacroPoint>>,
                           lb: map<string, seq<MacroPoint>>, row: Row)
    requires IsLookup(la, SortBy(Time, a)) && IsLookup(lb, SortBy(Time, b))
    requires Filter(UpTo(row.timestamp), a) == Filter(UpTo(row.timestamp), b)
    ensures var x, y := LabelRow(la, SortBy(Time, a), row), LabelRow(lb, SortBy(Time, b), row);
            x.rateDirection == y.rateDirection && x.rateRegime == y.rateRegime && x.cpiTrend == y.cpiTrend
  {
    GatherDependsOnPast(a, b, la, lb, ["FEDFUNDS", "DFF"], row.timestamp);
    GatherDependsOnPast(a, b, la, lb, ["CPIAUCSL"], row.timestamp);
  }

  /** Two outputs of the labelling for the same candles agree on the three labels of every candle up to whose
      time the points are the same. */
  lemma OutputsDependOnPast(candles: seq<Candle>, a: seq<MacroPoint>, b: seq<MacroPoint>, xs: seq<Label>,
                            ys: seq<Label>, i: nat)
    requires exists lookup :: IsLabelling(xs, NormalizeCandles(candles), lookup, SortBy(Time, a))
    requires exists lookup :: IsLabelling(ys, NormalizeCandles(candles), lookup, SortBy(Time, b))
    requires i < |NormalizeCandles(candles)|
    requires var cutoff := NormalizeCandles(candles)[i].timestamp; Filter(UpTo(cutoff), a) == Filter(UpTo(cutoff), b)
    ensures i < |xs| == |ys| && xs[i].rateDirection == ys[i].rateDirection
            && xs[i].rateRegime == ys[i].rateRegime && xs[i].cpiTrend == ys[i].cpiTrend
  {
    var la :| IsLabelling(xs, NormalizeCandles(candles), la, SortBy(Time, a));
    var lb :| IsLabelling(ys, NormalizeCandles(candles), lb, SortBy(Time, b));
    LabelsDependOnPast(a, b, la, lb, NormalizeCandles(candles)[i]);
  }

  /** Putting a point later than the cutoff anywhere into the input leaves its past as it was. */
  lemma {:induction false} LaterPointInvisible(before: seq<MacroPoint>, p: MacroPoint, after: seq<MacroPoint>,
                                               cutoff: int)
    requires p.timestamp > cutoff
    ensures Filter(UpTo(cutoff), before + [p] + after) == Filter(UpTo(cutoff), before + after)
  {
    if after == [] {
      FilterOneMore(UpTo(cutoff), before, p);
      assert before + [p] + after == before + [p] && before + after == before;
    } else {
      var n := |after| - 1;
      LaterPointInvisible(before, p, after[..n], cutoff);
      FilterOneMore(UpTo(cutoff), before + [p] + after[..n], after[n]);
      FilterOneMore(UpTo(cutoff), before + after[..n], after[n]);
      assert before + [p] + after == before + [p] + after[..n] + [after[n]];
      assert before + after == before + after[..n] + [after[n]];
    }
  }

  // ----- What the labels are -----

  lemma {:induction false} FilterCount<T>(keep: T -> bool, xs: seq<T>, x: T)
    ensures multiset(Filter(keep, xs))[x] == if keep(x) then multiset(xs)[x] else 0
  {
    if xs == [] {
    } else {
      FilterCount(keep, xs[..|xs| - 1], x);
      LastAndRest(xs);
    }
  }

  /** FEDFUNDS comes before the other series. */
  function Rank(p: MacroPoint): int {
    if p.seriesID == "FEDFUNDS" then 0 else 1
  }

  /** The place of a point by time and, at equal times, by its series. */
  function Place(p: MacroPoint): int {
    2 * p.timestamp + Rank(p)
  }

  /** `recent` holds the newest points, at most three, of the given series up to the cutoff, each of them once in the
      input and in order of place; every other such point comes before three of them. */
  ghost predicate IsNewest(points: seq<MacroPoint>, ids: seq<string>, cutoff: int, recent: seq<MacroPoint>) {
    && |recent| <= 3
    && (forall i :: 0 <= i < |recent| ==> multiset(points)[recent[i]] == 1 && recent[i].seriesID in ids
                                          && recent[i].timestamp <= cutoff)
    && (forall i, j :: 0 <= i < j < |recent| ==> Place(recent[i]) < Place(recent[j]))
    && (forall p :: p in points && p.seriesID in ids && p.timestamp <= cutoff && p !in recent ==>
          |recent| == 3 && Place(p) < Place(recent[0]))
  }

  lemma {:induction false} InsertPlace(xs: seq<MacroPoint>, x: MacroPoint)
    requires SortedBy(Place, xs) && forall y :: y in xs ==> Rank(y) <= Rank(x)
    ensures SortedBy(Place, InsertBy(Time, xs, x))
    ensures forall y :: y in InsertBy(Time, xs, x) ==> y == x || y in xs
  {
    if xs == [] || Time(xs[|xs| - 1]) <= Time(x) {
      assert xs != [] ==> xs[|xs| - 1] in xs;
    } else {
      var init, last := xs[..|xs| - 1], xs[|xs| - 1];
      assert forall y :: y in init ==> y in xs;
      InsertPlace(init, x);
      forall y | y in InsertBy(Time, init, x)
        ensures Place(y) <= Place(last)
      {
        if y in init {
          var i :| 0 <= i < |init| && init[i] == y;
          assert Place(xs[i]) <= Place(xs[|xs| - 1]);
        }
      }
    }
  }

  /** Sorting points that come series by series puts them in order of place. */
  lemma {:induction false} SortPlaces(xs: seq<MacroPoint>)
    requires forall i, j :: 0 <= i < j < |xs| ==> Rank(xs[i]) <= Rank(xs[j])
    ensures SortedBy(Place, SortBy(Time, xs)) && forall y :: y in SortBy(Time, xs) ==> y in xs
  {
    if xs == [] {
    } else {
      var n := |xs| - 1;
      SortPlaces(xs[..n]);
      forall y | y in SortBy(Time, xs[..n])
        ensures Rank(y) <= Rank(xs[n])
      {
        var i :| 0 <= i < n && xs[..n][i] == y;
        assert Rank(xs[i]) <= Rank(xs[n]);
      }
      InsertPlace(SortBy(Time, xs[..n]), xs[n]);
    }
  }

  lemma {:induction false} FilterKeeps<T>(keep: T -> bool, xs: seq<T>)
    ensures forall x :: x in Filter(keep, xs) ==> x in xs && keep(x)
  {
    if xs == [] {
    } else {
      FilterKeeps(keep, xs[..|xs| - 1]);
    }
  }

  lemma OneSeriesRanks(points: seq<MacroPoint>, lookup: map<string, seq<MacroPoint>>, id: string, cutoff: int)
    requires IsLookup(lookup, SortBy(Time, points))
    ensures forall p :: p in OneSeries(lookup, id, cutoff) ==> p.seriesID == id
  {
    FilterKeeps(OfSeries(id), SortBy(Time, points));
    FilterKeeps(UpTo(cutoff), Filter(OfSeries(id), SortBy(Time, points)));
  }

  lemma {:induction false} GatherUnfolded(lookup: map<string, seq<MacroPoint>>, a: string, b: string, cutoff: int)
    ensures Gather(lookup, [a], cutoff) == OneSeries(lookup, a, cutoff)
    ensures Gather(lookup, [a, b], cutoff) == OneSeries(lookup, a, cutoff) + OneSeries(lookup, b, cutoff)
  {
    assert [a][..0] == [] && [a, b][..1] == [a];
    assert Gather(lookup, [], cutoff) == [];
  }

  lemma RanksInOrder(xs: seq<MacroPoint>, ys: seq<MacroPoint>, a: string, b: string)
    requires (forall p :: p in xs ==> p.seriesID == a) && (forall p :: p in ys ==> p.seriesID == b)
    requires a == "FEDFUNDS" || ys == []
    ensures forall i, j :: 0 <= i < j < |xs + ys| ==> Rank((xs + ys)[i]) <= Rank((xs + ys)[j])
  {
    forall i, j | 0 <= i < j < |xs + ys|
      ensures Rank((xs + ys)[i]) <= Rank((xs + ys)[j])
    {
      assert i < |xs| ==> (xs + ys)[i] == xs[i] && xs[i] in xs;
      assert j < |xs| ==> (xs + ys)[j] == xs[j] && xs[j] in xs;
      assert i >= |xs| ==> (xs + ys)[i] == ys[i - |xs|] && ys[i - |xs|] in ys;
      assert j >= |xs| ==> (xs + ys)[j] == ys[j - |xs|] && ys[j - |xs|] in ys;
    }
  }

  lemma {:induction false} ValuesInPlace(points: seq<MacroPoint>, lookup: map<string, seq<MacroPoint>>,
                                         ids: seq<string>, cutoff: int)
    requires IsLookup(lookup, SortBy(Time, points)) && (ids == ["FEDFUNDS", "DFF"] || ids == ["CPIAUCSL"])
    ensures SortedBy(Place, SeriesValuesBefore(lookup, ids, cutoff))
  {
    var first, second := OneSeries(lookup, ids[0], cutoff), OneSeries(lookup, "DFF", cutoff);
    OneSeriesRanks(points, lookup, ids[0], cutoff);
    OneSeriesRanks(points, lookup, "DFF", cutoff);
    GatherUnfolded(lookup, ids[0], "DFF", cutoff);
    var rest := if |ids| == 2 then second else [];
    assert Gather(lookup, ids, cutoff) == first + rest;
    RanksInOrder(first, rest, ids[0], "DFF");
    SortPlaces(first + rest);
  }

  /** `recent` is in order of place, its elements occur once in `values`, and all others there come before. */
  ghost predicate AreNewestOf(values: seq<MacroPoint>, recent: seq<MacroPoint>) {
    && (forall i :: 0 <= i < |recent| ==> multiset(values)[recent[i]] == 1)
    && (forall i, j :: 0 <= i < j < |recent| ==> Place(recent[i]) < Place(recent[j]))
    && (forall p :: p in values && p !in recent ==> BeforeAll(p, recent))
  }

  ghost predicate BeforeAll(p: MacroPoint, recent: seq<MacroPoint>) {
    forall i :: 0 <= i < |recent| ==> Place(p) < Place(recent[i])
  }

  lemma {:induction false} NewestIsLast(values: seq<MacroPoint>, recent: seq<MacroPoint>)
    requires SortedBy(Place, values) && AreNewestOf(values, recent) && recent != []
    ensures values != [] && values[|values| - 1] == recent[|recent| - 1]
  {
    var last := recent[|recent| - 1];
    assert multiset(values)[last] == 1;
    assert last in multiset(values);
    var k :| 0 <= k < |values| && values[k] == last;
    var p := values[|values| - 1];
    assert Place(values[k]) <= Place(p);
    assert p !in recent ==> BeforeAll(p, recent);
  }

  lemma NewestOfRest(values: seq<MacroPoint>, recent: seq<MacroPoint>)
    requires AreNewestOf(values, recent) && recent != [] && values != []
    requires values[|values| - 1] == recent[|recent| - 1]
    ensures AreNewestOf(values[..|values| - 1], recent[..|recent| - 1])
  {
    var rest, less, last := values[..|values| - 1], recent[..|recent| - 1], values[|values| - 1];
    LastAndRest(values);
    assert recent == less + [last];
    assert multiset(values)[last] == 1;
    assert multiset(rest)[last] == 0;
    forall i | 0 <= i < |less|
      ensures multiset(rest)[less[i]] == 1
    {
      assert recent[i] == less[i] && multiset(values)[recent[i]] == 1;
      assert Place(recent[i]) < Place(last);
    }
    forall p | p in rest && p !in less
      ensures BeforeAll(p, less)
    {
      assert p in multiset(rest);
      assert p in values && p !in recent;
      assert BeforeAll(p, recent);
    }
  }

  lemma EndTogether(values: seq<MacroPoint>, rest: seq<MacroPoint>, recent: seq<MacroPoint>, less: seq<MacroPoint>)
    requires values != [] && recent != [] && values[|values| - 1] == recent[|recent| - 1]
    requires rest == values[..|values| - 1] && less == recent[..|recent| - 1]
    requires |less| <= |rest| && rest[|rest| - |less|..] == less
    ensures |recent| <= |values| && values[|values| - |recent|..] == recent
  {
    assert values == rest + [values[|values| - 1]] && recent == less + [values[|values| - 1]];
  }

  /** A sorted sequence ends with its newest elements. */
  lemma {:induction false} EndsWith(values: seq<MacroPoint>, recent: seq<MacroPoint>)
    requires SortedBy(Place, values) && AreNewestOf(values, recent)
    ensures |recent| <= |values| && values[|values| - |recent|..] == recent
  {
    if recent == [] {
    } else {
      NewestIsLast(values, recent);
      NewestOfRest(values, recent);
      var rest, less := values[..|values| - 1], recent[..|recent| - 1];
      EndsWith(rest, less);
      EndTogether(values, rest, recent, less);
    }
  }

  lemma OneSeriesCount(points: seq<MacroPoint>, lookup: map<string, seq<MacroPoint>>, id: string, cutoff: int,
                       p: MacroPoint)
    requires IsLookup(lookup, SortBy(Time, points))
    ensures multiset(OneSeries(lookup, id, cutoff))[p]
            == if p.seriesID == id && p.timestamp <= cutoff then multiset(points)[p] else 0
  {
    var sorted := SortBy(Time, points);
    SortKeepsElements(Time, points);
    FilterCount(OfSeries(id), sorted, p);
    FilterCount(UpTo(cutoff), Filter(OfSeries(id), sorted), p);
  }

  /** The points of the series up to the cutoff, with their multiplicities. */
  lemma {:induction false} GatherCount(points: seq<MacroPoint>, lookup: map<string, seq<MacroPoint>>,
                                       ids: seq<string>, cutoff: int, p: MacroPoint)
    requires IsLookup(lookup, SortBy(Time, points)) && (ids == ["FEDFUNDS", "DFF"] || ids == ["CPIAUCSL"])
    ensures multiset(Gather(lookup, ids, cutoff))[p]
            == if p.seriesID in ids && p.timestamp <= cutoff then multiset(points)[p] else 0
  {
    OneSeriesCount(points, lookup, ids[0], cutoff, p);
    GatherUnfolded(lookup, ids[0], "DFF", cutoff);
    if |ids| == 2 {
      OneSeriesCount(points, lookup, "DFF", cutoff, p);
      assert ids == [ids[0], "DFF"] && ids[0][0] != "DFF"[0];
      assert Gather(lookup, ids, cutoff) == OneSeries(lookup, ids[0], cutoff) + OneSeries(lookup, "DFF", cutoff);
    } else {
      assert ids == [ids[0]];
    }
  }

  /** `values` holds the points of the series up to the cutoff, in order of place. */
  ghost predicate AreValues(points: seq<MacroPoint>, ids: seq<string>, cutoff: int, values: seq<MacroPoint>) {
    && SortedBy(Place, values)
    && forall p: MacroPoint :: multiset(values)[p]
                               == if p.seriesID in ids && p.timestamp <= cutoff then multiset(points)[p] else 0
  }

  lemma SeriesValuesAre(points: seq<MacroPoint>, lookup: map<string, seq<MacroPoint>>, ids: seq<string>, cutoff: int)
    requires IsLookup(lookup, SortBy(Time, points)) && (ids == ["FEDFUNDS", "DFF"] || ids == ["CPIAUCSL"])
    ensures AreValues(points, ids, cutoff, SeriesValuesBefore(lookup, ids, cutoff))
  {
    SortSorts(Time, Gather(lookup, ids, cutoff));
    ValuesInPlace(points, lookup, ids, cutoff);
    forall p: MacroPoint
      ensures multiset(Gather(lookup, ids, cutoff))[p]
              == if p.seriesID in ids && p.timestamp <= cutoff then multiset(points)[p] else 0
    {
      GatherCount(points, lookup, ids, cutoff, p);
    }
  }

  lemma NewestOfValues(points: seq<MacroPoint>, ids: seq<string>, cutoff: int, values: seq<MacroPoint>,
                       recent: seq<MacroPoint>)
    requires AreValues(points, ids, cutoff, values) && IsNewest(points, ids, cutoff, recent)
    ensures AreNewestOf(values, recent) && (|recent| < 3 ==> forall p :: p in values ==> p in recent)
  {
    forall p | p in values && p !in recent
      ensures |recent| == 3 && BeforeAll(p, recent)
    {
      assert p in multiset(values) && p in multiset(points);
      assert Place(p) < Place(recent[0]);
    }
  }

  /** The values end with `recent`, and are no more if those are less than three. */
  ghost predicate EndsIn(values: seq<MacroPoint>, recent: seq<MacroPoint>) {
    && |recent| <= 3 && |recent| <= |values| && values[|values| - |recent|..] == recent
    && (|recent| < 3 ==> values == recent)
  }

  /** The series values of a candle end with the newest points. */
  lemma NewestAreLast(points: seq<MacroPoint>, ids: seq<string>, cutoff: int, values: seq<MacroPoint>,
                      recent: seq<MacroPoint>)
    requires AreValues(points, ids, cutoff, values) && IsNewest(points, ids, cutoff, recent)
    ensures EndsIn(values, recent)
  {
    NewestOfValues(points, ids, cutoff, values, recent);
    EndsWith(values, recent);
    if |recent| < 3 {
      SameElementsOnce(values, recent);
    }
  }

  lemma SameElementsOnce(values: seq<MacroPoint>, recent: seq<MacroPoint>)
    requires AreNewestOf(values, recent) && forall p :: p in values ==> p in recent
    ensures |values| == |recent|
  {
    forall p
      ensures multiset(values)[p] == multiset(recent)[p]
    {
      if p in recent {
        OccursOnce(recent, p);
      }
    }
    assert multiset(values) == multiset(recent);
    assert |multiset(values)| == |values| && |multiset(recent)| == |recent|;
  }

  lemma {:induction false} OccursOnce(recent: seq<MacroPoint>, p: MacroPoint)
    requires p in recent && forall i, j :: 0 <= i < j < |recent| ==> Place(recent[i]) < Place(recent[j])
    ensures multiset(recent)[p] == 1
  {
    LastAndRest(recent);
    var rest := recent[..|recent| - 1];
    if p == recent[|recent| - 1] {
      assert p !in rest;
      assert p !in multiset(rest);
    } else {
      assert recent == rest + [recent[|recent| - 1]];
      OccursOnce(rest, p);
    }
  }

  /** The first and the last of the points that carry a number. */
  predicate AreEnds(recent: seq<MacroPoint>, i: nat, j: nat) {
    && i <= j < |recent| && recent[i].value.Some? && recent[j].value.Some?
    && (forall k :: 0 <= k < i ==> recent[k].value.None?) && (forall k :: j < k < |recent| ==> recent[k].value.None?)
  }

  function OneNumber(value: Option<real>): seq<real> {
    if value.Some? then [value.value] else []
  }

  lemma {:induction false} NumbersUnfolded(values: seq<Option<real>>)
    ensures |values| == 1 ==> Numbers(values) == OneNumber(values[0])
    ensures |values| == 2 ==> Numbers(values) == OneNumber(values[0]) + OneNumber(values[1])
    ensures |values| == 3 ==> Numbers(values) == OneNumber(values[0]) + OneNumber(values[1]) + OneNumber(values[2])
    decreases |values|
  {
    if 0 < |values| <= 3 {
      NumbersUnfolded(values[1..]);
    }
  }

  /** The numbers among at most three points begin and end with those at the ends. */
  lemma {:induction false} NumbersEnd(recent: seq<MacroPoint>, values: seq<Option<real>>, i: nat, j: nat)
    requires |recent| <= 3 && |values| == |recent| && forall i :: 0 <= i < |recent| ==> values[i] == recent[i].value
    requires AreEnds(recent, i, j)
    ensures var v := Numbers(values);
            v != [] && v[0] == recent[i].value.value && v[|v| - 1] == recent[j].value.value && (|v| == 1 <==> i == j)
  {
    NumbersUnfolded(values);
  }

  lemma {:induction false} NoNumbers(recent: seq<MacroPoint>, values: seq<Option<real>>)
    requires |recent| <= 3 && |values| == |recent| && forall i :: 0 <= i < |recent| ==> values[i] == recent[i].value
    ensures Numbers(values) == [] <==> forall i: nat, j: nat :: !AreEnds(recent, i, j)
  {
    NumbersUnfolded(values);
    if i :| 0 <= i < |recent| && recent[i].value.Some? {
      EndsExist(recent);
    }
  }

  lemma {:induction false} AllNumbers(recent: seq<MacroPoint>, values: seq<Option<real>>)
    requires |recent| <= 3 && |values| == |recent| && forall i :: 0 <= i < |recent| ==> values[i] == recent[i].value
    ensures var v := Numbers(values);
            && |v| <= 3 && (|v| == 3 <==> |recent| == 3 && forall i :: 0 <= i < 3 ==> recent[i].value.Some?)
            && (|v| == 3 ==> forall i :: 0 <= i < 3 ==> v[i] == recent[i].value.value)
  {
    NumbersUnfolded(values);
  }

  lemma {:induction false} EndsExist(recent: seq<MacroPoint>)
    requires |recent| <= 3 && exists i :: 0 <= i < |recent| && recent[i].value.Some?
    ensures exists i: nat, j: nat :: AreEnds(recent, i, j)
  {
    var i := if recent[0].value.Some? then 0 else if recent[1].value.Some? then 1 else 2;
    var n := |recent| - 1;
    var j := if recent[n].value.Some? then n else if recent[n - 1].value.Some? then n - 1 else 0;
    assert AreEnds(recent, i, j);
  }

  /** The direction that goes with the newest points. */
  ghost predicate IsDirection(recent: seq<MacroPoint>, direction: string) {
    && (direction == "hiking" <==>
          exists i: nat, j: nat :: AreEnds(recent, i, j) && recent[j].value.value > recent[i].value.value)
    && (direction == "cutting" <==>
          exists i: nat, j: nat :: AreEnds(recent, i, j) && recent[j].value.value < recent[i].value.value)
    && (direction == "hiking" || direction == "cutting" || direction == "paused")
  }

  /** The regime that goes with the newest point. */
  predicate IsRegime(recent: seq<MacroPoint>, regime: string) {
    var rate := if recent == [] then None else recent[|recent| - 1].value;
    && (regime == "very_high" <==> rate.Some? && rate.value >= 5.0)
    && (regime == "high" <==> rate.Some? && 3.0 <= rate.value < 5.0)
    && (regime == "medium" <==> rate.Some? && 1.0 <= rate.value < 3.0)
    && (regime == "low_zirp" <==> rate.Some? ==> rate.value < 1.0)
  }

  /** What the rate labels are: the direction compares the last with the first number among the three newest points of
      FEDFUNDS and DFF up to the candle, the regime is the class of the newest one. */
  lemma {:induction false} RateLabels(points: seq<MacroPoint>, lookup: map<string, seq<MacroPoint>>, row: Row,
                                      recent: seq<MacroPoint>)
    requires IsLookup(lookup, SortBy(Time, points))
    requires IsNewest(points, ["FEDFUNDS", "DFF"], row.timestamp, recent)
    ensures var x := LabelRow(lookup, SortBy(Time, points), row);
            IsDirection(recent, x.rateDirection) && IsRegime(recent, x.rateRegime)
  {
    var rates := SeriesValuesBefore(lookup, ["FEDFUNDS", "DFF"], row.timestamp);
    SeriesValuesAre(points, lookup, ["FEDFUNDS", "DFF"], row.timestamp);
    NewestAreLast(points, ["FEDFUNDS", "DFF"], row.timestamp, rates, recent);
    LastThreeAre(rates, recent);
    DirectionOf(recent, Last3(rates));
    RegimeOf(rates, recent);
  }

  lemma {:induction false} RegimeOf(rates: seq<MacroPoint>, recent: seq<MacroPoint>)
    requires EndsIn(rates, recent)
    ensures IsRegime(recent, ClassifyRateRegime(if rates == [] then Some(0.0) else rates[|rates| - 1].value))
  {
    assert recent != [] ==> recent[|recent| - 1] == rates[|rates| - 1];
  }

  /** The values of the last three elements are those of the newest points. */
  lemma LastThreeAre(values: seq<MacroPoint>, recent: seq<MacroPoint>)
    requires EndsIn(values, recent)
    ensures |Last3(values)| == |recent| && forall i :: 0 <= i < |recent| ==> Last3(values)[i] == recent[i].value
  {
    assert |values| == 3 ==> values[0..] == values;
  }

  lemma {:induction false} DirectionOf(recent: seq<MacroPoint>, values: seq<Option<real>>)
    requires |recent| <= 3 && |values| == |recent| && forall i :: 0 <= i < |recent| ==> values[i] == recent[i].value
    ensures IsDirection(recent, ClassifyRateDirection(values))
  {
    NoNumbers(recent, values);
    var direction := ClassifyRateDirection(values);
    forall i: nat, j: nat | AreEnds(recent, i, j)
      ensures direction == "hiking" <==> recent[j].value.value > recent[i].value.value
      ensures direction == "cutting" <==> recent[j].value.value < recent[i].value.value
    {
      NumbersEnd(recent, values, i, j);
    }
  }

  /** The CPI label that goes with the newest points. */
  ghost predicate IsCpiLabel(recent: seq<MacroPoint>, trend: string) {
    var known := |recent| == 3 && forall i :: 0 <= i < 3 ==> recent[i].value.Some?;
    && (trend == "accelerating" <==> known && (recent[2].value.value - recent[0].value.value) / 2.0 > 0.2)
    && (trend == "cooling" <==> known && (recent[2].value.value - recent[0].value.value) / 2.0 <= -0.2)
    && (trend == "accelerating" || trend == "cooling" || trend == "stable")
  }

  /** What the CPI label is: with numbers at the three newest points, half of the last minus the first is the slope of
      the line through them. */
  lemma {:induction false} CpiLabel(points: seq<MacroPoint>, lookup: map<string, seq<MacroPoint>>, row: Row,
                                    recent: seq<MacroPoint>)
    requires IsLookup(lookup, SortBy(Time, points)) && IsNewest(points, ["CPIAUCSL"], row.timestamp, recent)
    ensures IsCpiLabel(recent, LabelRow(lookup, SortBy(Time, points), row).cpiTrend)
  {
    var cpi := SeriesValuesBefore(lookup, ["CPIAUCSL"], row.timestamp);
    SeriesValuesAre(points, lookup, ["CPIAUCSL"], row.timestamp);
    NewestAreLast(points, ["CPIAUCSL"], row.timestamp, cpi, recent);
    CpiLabelOf(cpi, recent);
  }

  lemma {:induction false} CpiLabelOf(cpi: seq<MacroPoint>, recent: seq<MacroPoint>)
    requires EndsIn(cpi, recent)
    ensures IsCpiLabel(recent, ClassifyCpiTrend(Last3(cpi)))
  {
    LastThreeAre(cpi, recent);
    AllNumbers(recent, Last3(cpi));
    var v := Numbers(Last3(cpi));
    if |v| == 3 {
      SlopeIsHalf(v[0], v[1], v[2]);
    }
  }

  lemma SlopeIsHalf(a: real, b: real, c: real)
    ensures LeastSquaresSlope(a, b, c) == (c - a) / 2.0
  {
  }

  /** The rows to label: one for each candle with a time, under trimmed names, in time order. */
  lemma {:induction false} RowsOfCandles(candles: seq<Candle>)
    ensures var rows := NormalizeCandles(candles);
            && SortedBy(RowTime, rows)
            && |rows| == |Filter((c: Candle) => c.timestamp.Some?, candles)|
            && (forall c :: c in candles && c.timestamp.Some? ==>
                              Row(c.timestamp.value, Trim(c.symbol), Lower(Trim(c.timeframe))) in rows)
            && (forall r :: r in rows ==>
                              exists c :: c in candles && c.timestamp == Some(r.timestamp) && r.symbol == Trim(c.symbol)
                                          && r.timeframe == Lower(Trim(c.timeframe)))
  {
    DatedAre(candles);
    SortSorts(RowTime, DatedRows(candles));
    var rows, dated := NormalizeCandles(candles), DatedRows(candles);
    assert |multiset(rows)| == |multiset(dated)|;
    forall r
      ensures r in rows <==> r in dated
    {
      assert r in multiset(rows) <==> r in multiset(dated);
    }
  }

  lemma {:induction false} DatedAre(candles: seq<Candle>)
    ensures var rows := DatedRows(candles);
            && |rows| == |Filter((c: Candle) => c.timestamp.Some?, candles)|
            && (forall c :: c in candles && c.timestamp.Some? ==>
                              Row(c.timestamp.value, Trim(c.symbol), Lower(Trim(c.timeframe))) in rows)
            && (forall r :: r in rows ==>
                              exists c :: c in candles && c.timestamp == Some(r.timestamp) && r.symbol == Trim(c.symbol)
                                          && r.timeframe == Lower(Trim(c.timeframe)))
  {
    if candles == [] {
    } else {
      DatedAre(candles[..|candles| - 1]);
    }
  }

  // ----- The proximity label does look ahead -----

  /** `q` is nearest to the cutoff among the points and, of the nearest ones, earliest. */
  ghost predicate IsNearest(points: multiset<MacroPoint>, cutoff: int, q: MacroPoint) {
    && q in points
    && forall r :: r in points ==> Distance(q, cutoff) < Distance(r, cutoff)
                                   || (Distance(q, cutoff) == Distance(r, cutoff) && q.timestamp <= r.timestamp)
  }

  lemma NearestOneMore(points: multiset<MacroPoint>, cutoff: int, q: MacroPoint, p: MacroPoint)
    requires IsNearest(points, cutoff, q) && forall r: MacroPoint :: r in points ==> r.timestamp <= p.timestamp
    ensures IsNearest(points + multiset{p}, cutoff, if Distance(p, cutoff) < Distance(q, cutoff) then p else q)
  {
  }

  lemma LastIsLatest(points: seq<MacroPoint>, r: MacroPoint)
    requires SortedBy(Time, points) && points != [] && r in multiset(points[..|points| - 1])
    ensures r.timestamp <= points[|points| - 1].timestamp
  {
    var n := |points| - 1;
    assert r in points[..n];
    var i :| 0 <= i < n && points[..n][i] == r;
    assert Time(points[i]) <= Time(points[n]);
  }

  lemma {:induction false} NearestIsNearest(points: seq<MacroPoint>, cutoff: int)
    requires SortedBy(Time, points) && points != []
    ensures Nearest(points, cutoff).Some? && IsNearest(multiset(points), cutoff, Nearest(points, cutoff).value)
  {
    var init, p := points[..|points| - 1], points[|points| - 1];
    LastAndRest(points);
    if init == [] {
      assert multiset(points) == multiset{p};
    } else {
      NearestIsNearest(init, cutoff);
      forall r: MacroPoint | r in multiset(init)
        ensures r.timestamp <= p.timestamp
      {
        LastIsLatest(points, r);
      }
      NearestOneMore(multiset(init), cutoff, Nearest(init, cutoff).value, p);
    }
  }

  /** The hours of a label are those from the nearest point. */
  lemma HoursAreNearest(points: seq<MacroPoint>, lookup: map<string, seq<MacroPoint>>, row: Row) returns (q: MacroPoint)
    requires points != []
    ensures IsNearest(multiset(points), row.timestamp, q)
    ensures var x := LabelRow(lookup, SortBy(Time, points), row);
            x.hoursToEvent == HoursDelta(q.timestamp, row.timestamp) && x.proximity == ClassifyProximity(x.hoursToEvent)
  {
    SortSorts(Time, points);
    assert |SortBy(Time, points)| == |multiset(points)|;
    NearestIsNearest(SortBy(Time, points), row.timestamp);
    q := Nearest(SortBy(Time, points), row.timestamp).value;
  }

  /** What the proximity label is: the class of the seconds from the candle to a nearest point. */
  lemma ProximityLabel(points: seq<MacroPoint>, lookup: map<string, seq<MacroPoint>>, row: Row) returns (q: MacroPoint)
    requires points != []
    ensures q in points
    ensures forall p :: p in points ==> var d, e := q.timestamp - row.timestamp, p.timestamp - row.timestamp;
                                        (0 <= e ==> -e <= d <= e) && (e <= 0 ==> e <= d <= -e)
    ensures var x, ahead := LabelRow(lookup, SortBy(Time, points), row), q.timestamp - row.timestamp;
            && x.hoursToEvent * 3600.0 == -(ahead as real)
            && (x.proximity == "imminent" <==> 0 < ahead <= 14400)
            && (x.proximity == "pre_near" <==> 14400 < ahead <= 86400)
            && (x.proximity == "pre_far" <==> 86400 < ahead <= 259200)
            && (x.proximity == "post_near" <==> -14400 < ahead <= 0)
            && (x.proximity == "post_mid" <==> -86400 < ahead <= -14400)
            && (x.proximity == "post_far" <==> -259200 < ahead <= -86400)
            && (x.proximity == "neutral" <==> ahead > 259200 || ahead <= -259200)
  {
    q := HoursAreNearest(points, lookup, row);
    assert forall p :: p in points <==> p in multiset(points);
  }

  /** Different times are different hours away. */
  lemma HoursInjective(s: int, t: int, cutoff: int)
    ensures HoursDelta(s, cutoff) == HoursDelta(t, cutoff) <==> s == t
  {
  }

  /** Adding a point later than the candle, anywhere, leaves the hours to the nearest event as they were if and
      only if some other point is at least as near. Otherwise the new point decides both the hours and the
      proximity label. */
  lemma LaterPointMovesHoursIff(points: seq<MacroPoint>, p: MacroPoint, more: seq<MacroPoint>,
                                la: map<string, seq<MacroPoint>>, lb: map<string, seq<MacroPoint>>, row: Row)
    requires multiset(more) == multiset(points) + multiset{p} && p.timestamp > row.timestamp
    ensures var x, y := LabelRow(la, SortBy(Time, points), row), LabelRow(lb, SortBy(Time, more), row);
            var near := exists q :: q in points && Distance(q, row.timestamp) <= Distance(p, row.timestamp);
            && (x.hoursToEvent == y.hoursToEvent <==> near)
            && (near ==> x.proximity == y.proximity)
            && (!near ==> y.hoursToEvent == HoursDelta(p.timestamp, row.timestamp)
                          && y.proximity == ClassifyProximity(y.hoursToEvent))
  {
    assert p in multiset(more);
    var n := HoursAreNearest(more, lb, row);
    if points == [] {
      assert multiset(more) == multiset{p};
      assert HoursDelta(row.timestamp, row.timestamp) == 0.0;
      HoursInjective(row.timestamp, p.timestamp, row.timestamp);
    } else {
      var o := HoursAreNearest(points, la, row);
      HoursInjective(o.timestamp, n.timestamp, row.timestamp);
      NearestWithOneMore(multiset(points), row.timestamp, p, o, n);
      assert forall q :: q in points <==> q in multiset(points);
    }
  }

  /** With one later point more, the nearest time stays if and only if some point was at least as near. */
  lemma NearestWithOneMore(points: multiset<MacroPoint>, cutoff: int, p: MacroPoint, o: MacroPoint, n: MacroPoint)
    requires IsNearest(points, cutoff, o) && IsNearest(points + multiset{p}, cutoff, n) && p.timestamp > cutoff
    ensures var near := exists q :: q in points && Distance(q, cutoff) <= Distance(p, cutoff);
            (o.timestamp == n.timestamp <==> near) && (!near ==> n == p)
  {
    assert o in points + multiset{p} && p in points + multiset{p};
  }

  /** An instance: a point one hour after the only candle makes its label imminent. */
  lemma ProximityLooksAhead(row: Row)
    ensures LabelRow(map[], [], row).proximity == "post_near" && LabelRow(map[], [], row).hoursToEvent == 0.0
    ensures LabelRow(map[], [MacroPoint("X", row.timestamp + 3600, Some(0.0))], row).proximity == "imminent"
  {
    var p := MacroPoint("X", row.timestamp + 3600, Some(0.0));
    assert [p][..0] == [];
    assert Nearest([p], row.timestamp) == Some(p);
    assert HoursDelta(p.timestamp, row.timestamp) == -1.0;
  }
}
