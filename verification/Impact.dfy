/** The news price-impact pipeline (engine/news/impact): one worker that fills in the price at publication
    and three later snapshots, row by row, with writes that may fail or lose their reply anywhere. */
module Impact {
  import opened Text
  import opened Writes

  datatype Key = Key(articleID: int, coinID: string)

  /** A price and its done flag. */
  datatype Snapshot = Snapshot(price: Option<real>, isDone: bool)

  datatype Row = Row(publishedAt: int, priceAtPublish: Option<real>, h1: Snapshot, h4: Snapshot, h24: Snapshot)

  datatype Window = H1 | H4 | H24

  type Table = map<Key, Row>

  /** The impact table, the rows InsertHistory was tried for, in order, and the history rows written. */
  datatype State = State(table: Table, attempts: seq<Key>, history: set<Key>)

  /** A candidate, the price resolved for its publication, and how its upsert goes. */
  datatype Candidate = Candidate(key: Key, publishedAt: int, price: Option<real>, written: Delivery)

  /** What price resolution and the writes do while one pending row is processed. */
  datatype RowEnv = RowEnv(publishPrice: Option<real>, publishWritten: Delivery, price: Window -> Option<real>,
                           written: Window -> Delivery, historyWritten: bool)

  /** One run: its candidates, whether the two list queries work, the pending rows listed, the clock, and
      what happens to each row. */
  datatype Input = Input(candidates: seq<Candidate>, candidatesRead: bool, pendingRead: bool, list: Table -> seq<Key>,
                         now: int, envs: Key -> RowEnv)

  const HOUR: int := 3600

  function Delay(w: Window): int {
    match w
    case H1 => HOUR
    case H4 => 4 * HOUR
    case H24 => 24 * HOUR
  }

  function Get(row: Row, w: Window): Snapshot {
    match w
    case H1 => row.h1
    case H4 => row.h4
    case H24 => row.h24
  }

  function Put(row: Row, w: Window, s: Snapshot): Row {
    match w
    case H1 => row.(h1 := s)
    case H4 => row.(h4 := s)
    case H24 => row.(h24 := s)
  }

  predicate AllDone(row: Row) {
    row.h1.isDone && row.h4.isDone && row.h24.isDone
  }

  predicate Pending(table: Table, k: Key) {
    k in table && !AllDone(table[k])
  }

  // ----- The table operations -----

  /** `INSERT … ON CONFLICT DO UPDATE`: the first price and the earliest publication time win. */
  function Upserted(table: Table, k: Key, publishedAt: int, price: Option<real>): Table {
    if k in table then
      var row := table[k];
      table[k := row.(priceAtPublish := if row.priceAtPublish.Some? then row.priceAtPublish else price,
                      publishedAt := if row.publishedAt <= publishedAt then row.publishedAt else publishedAt)]
    else table[k := Row(publishedAt, price, Snapshot(None, false), Snapshot(None, false), Snapshot(None, false))]
  }

  function SnapshotSet(table: Table, k: Key, w: Window, price: real): Table {
    if k in table then table[k := Put(table[k], w, Snapshot(Some(price), true))] else table
  }

  // ----- One pending row -----

  /** A row as the table stores it and as the worker holds it in memory. */
  datatype Copies = Copies(stored: Row, held: Row)

  function FillPublishPrice(row: Row, env: RowEnv): Copies {
    if row.priceAtPublish.None? && env.publishPrice.Some? then
      var filled := row.(priceAtPublish := env.publishPrice);
      Copies(if TakesEffect(env.publishWritten) then filled else row,
             if env.publishWritten.Delivered? then filled else row)
    else Copies(row, row)
  }

  /** The snapshot is due, not yet done, and its price is found. */
  predicate Takes(row: Row, w: Window, now: int, env: RowEnv) {
    !Get(row, w).isDone && now > row.publishedAt + Delay(w) && env.price(w).Some?
  }

  function TakeSnapshot(c: Copies, w: Window, now: int, env: RowEnv): Copies {
    if Takes(c.held, w, now, env) then
      var s := Snapshot(env.price(w), true);
      Copies(if TakesEffect(env.written(w)) then Put(c.stored, w, s) else c.stored,
             if env.written(w).Delivered? then Put(c.held, w, s) else c.held)
    else c
  }

  function TakeAll(c: Copies, now: int, env: RowEnv): Copies {
    TakeSnapshot(TakeSnapshot(TakeSnapshot(c, H1, now, env), H4, now, env), H24, now, env)
  }

  function Process(row: Row, now: int, env: RowEnv): Copies {
    var filled := FillPublishPrice(row, env);
    if filled.held.priceAtPublish.None? then filled else TakeAll(filled, now, env)
  }

  predicate TriesHistory(held: Row) {
    held.priceAtPublish.Some? && AllDone(held)
  }

  /** The state after processing the pending row `k`. */
  function ProcessKey(st: State, k: Key, now: int, env: RowEnv): State {
    if k !in st.table then st
    else
      var c := Process(st.table[k], now, env);
      var tries := TriesHistory(c.held);
      State(st.table[k := c.stored], if tries then st.attempts + [k] else st.attempts,
            if tries && env.historyWritten then st.history + {k} else st.history)
  }

  function ProcessAll(st: State, keys: seq<Key>, now: int, envs: Key -> RowEnv): State {
    if keys == [] then st
    else var n := |keys| - 1; ProcessKey(ProcessAll(st, keys[..n], now, envs), keys[n], now, envs(keys[n]))
  }

  function UpsertAll(table: Table, candidates: seq<Candidate>): Table {
    if candidates == [] then table
    else
      var c := candidates[|candidates| - 1];
      var before := UpsertAll(table, candidates[..|candidates| - 1]);
      if TakesEffect(c.written) then Upserted(before, c.key, c.publishedAt, c.price) else before
  }

  function Ran(st: State, input: Input): State {
    if !input.candidatesRead then st
    else
      var upserted := st.(table := UpsertAll(st.table, input.candidates));
      if !input.pendingRead then upserted else ProcessAll(upserted, input.list(upserted.table), input.now, input.envs)
  }

  /** The pending query lists pending rows, each once. */
  ghost predicate ListsPending(list: Table -> seq<Key>) {
    forall table :: IsPendingList(table, list(table))
  }

  ghost predicate IsPendingList(table: Table, keys: seq<Key>) {
    && (forall i :: 0 <= i < |keys| ==> Pending(table, keys[i]))
    && (forall i, j :: 0 <= i < j < |keys| ==> keys[i] != keys[j])
  }

  class Service {
    var table: Table
    var attempts: seq<Key>
    ghost var history: set<Key>

    constructor ()
      ensures Current() == State(map[], [], {})
    {
      table, attempts, history := map[], [], {};
    }

    ghost function Current(): State
      reads this
    {
      State(table, attempts, history)
    }

    method UpsertCandidate(k: Key, publishedAt: int, price: Option<real>, d: Delivery) returns (ok: bool)
      modifies this
      ensures ok == d.Delivered?
      ensures Current() == if TakesEffect(d) then old(Current()).(table := Upserted(old(table), k, publishedAt, price))
                           else old(Current())
    {
      if TakesEffect(d) {
        table := Upserted(table, k, publishedAt, price);
      }
      ok := d.Delivered?;
    }

    method UpdateSnapshot(k: Key, w: Window, price: real, d: Delivery) returns (ok: bool)
      modifies this
      ensures ok == d.Delivered?
      ensures Current() == if TakesEffect(d) then old(Current()).(table := SnapshotSet(old(table), k, w, price))
                           else old(Current())
    {
      if TakesEffect(d) {
        table := SnapshotSet(table, k, w, price);
      }
      ok := d.Delivered?;
    }

    /** Takes one snapshot; `before` and `row` are the worker's copy of the row. */
    method SnapshotWindow(k: Key, before: Row, w: Window, now: int, env: RowEnv) returns (row: Row)
      requires k in table
      modifies this
      ensures var c := TakeSnapshot(Copies(old(table[k]), before), w, now, env);
              row == c.held && Current() == old(Current()).(table := old(table)[k := c.stored])
    {
      row := before;
      if !Get(row, w).isDone && now > row.publishedAt + Delay(w) {
        var sample := env.price(w);
        if sample.Some? {
          var ok := UpdateSnapshot(k, w, sample.value, env.written(w));
          if ok {
            row := Put(row, w, Snapshot(sample, true));
          }
        }
      }
      assert table == old(table)[k := TakeSnapshot(Copies(old(table[k]), before), w, now, env).stored];
    }

    /** Fills in the price at publication. */
    method FillRow(k: Key, listed: Row, env: RowEnv) returns (row: Row)
      requires k in table && table[k] == listed
      modifies this
      ensures var c := FillPublishPrice(listed, env);
              row == c.held && Current() == old(Current()).(table := old(table)[k := c.stored])
    {
      row := listed;
      if row.priceAtPublish.None? && env.publishPrice.Some? {
        var ok := UpsertCandidate(k, row.publishedAt, env.publishPrice, env.publishWritten);
        if ok {
          row := row.(priceAtPublish := env.publishPrice);
        }
      }
      assert table == old(table)[k := FillPublishPrice(listed, env).stored];
    }

    /** Takes the three snapshots in turn. */
    method TakeSnapshots(k: Key, before: Row, now: int, env: RowEnv) returns (row: Row)
      requires k in table
      modifies this
      ensures var c := TakeAll(Copies(old(table[k]), before), now, env);
              row == c.held && Current() == old(Current()).(table := old(table)[k := c.stored])
    {
      row := SnapshotWindow(k, before, H1, now, env);
      row := SnapshotWindow(k, row, H4, now, env);
      row := SnapshotWindow(k, row, H24, now, env);
    }

    /** Processes one pending row; the copy that comes back is what the worker saw. */
    method ProcessRow(k: Key, listed: Row, now: int, env: RowEnv) returns (row: Row)
      requires k in table && table[k] == listed
      modifies this
      ensures Current() == ProcessKey(old(Current()), k, now, env)
      ensures row == Process(listed, now, env).held
    {
      row := FillRow(k, listed, env);
      if row.priceAtPublish.None? {
        return;
      }
      row := TakeSnapshots(k, row, now, env);
      assert Copies(table[k], row) == Process(listed, now, env);
      assert table == old(table)[k := table[k]];
      if row.h1.isDone && row.h4.isDone && row.h24.isDone {
        attempts := attempts + [k];
        if env.historyWritten {
          history := history + {k};
        }
      }
    }

    method RunOnce(input: Input) returns (ok: bool)
      requires ListsPending(input.list)
      modifies this
      ensures Current() == Ran(old(Current()), input)
      ensures ok == (input.candidatesRead && input.pendingRead)
    {
      if !input.candidatesRead {
        return false;
      }
      for i := 0 to |input.candidates|
        invariant Current() == old(Current()).(table := UpsertAll(old(table), input.candidates[..i]))
      {
        assert input.candidates[..i + 1][..i] == input.candidates[..i];
        var c := input.candidates[i];
        var _ := UpsertCandidate(c.key, c.publishedAt, c.price, c.written);
      }
      assert input.candidates[..|input.candidates|] == input.candidates;
      if !input.pendingRead {
        return false;
      }
      ProcessListed(input.list(table), input.now, input.envs);
      ok := true;
    }

    /** Processes rows that were all read beforehand; each still mirrors the store when its turn comes. */
    method ProcessListed(keys: seq<Key>, now: int, envs: Key -> RowEnv)
      requires IsPendingList(table, keys)
      modifies this
      ensures Current() == ProcessAll(old(Current()), keys, now, envs)
    {
      var rows := seq(|keys|, i requires 0 <= i < |keys| reads this requires keys[i] in table => table[keys[i]]);
      for i := 0 to |keys|
        invariant Current() == ProcessAll(old(Current()), keys[..i], now, envs)
        invariant forall j :: i <= j < |keys| ==> keys[j] in table && table[keys[j]] == rows[j]
      {
        assert keys[..i + 1][..i] == keys[..i];
        var _ := ProcessRow(keys[i], rows[i], now, envs(keys[i]));
      }
      assert keys[..|keys|] == keys;
    }
  }

  // ----- What every run keeps -----

  /** A done flag comes with its price and the price at publication, and its window has elapsed; a price is
      set only together with its flag. */
  ghost predicate WindowOk(row: Row, w: Window, clock: int) {
    var s := Get(row, w);
    && (s.isDone <==> s.price.Some?)
    && (s.isDone ==> row.priceAtPublish.Some? && clock > row.publishedAt + Delay(w))
  }

  ghost predicate RowOk(row: Row, clock: int) {
    forall w :: WindowOk(row, w, clock)
  }

  /** Nothing that was set in `row` is changed in `next`. */
  ghost predicate Keeps(row: Row, next: Row) {
    && next.publishedAt <= row.publishedAt
    && (row.priceAtPublish.Some? ==> next.priceAtPublish == row.priceAtPublish)
    && (forall w :: Get(row, w).isDone ==> Get(next, w) == Get(row, w))
  }

  lemma KeepsTransitive(a: Row, b: Row, c: Row)
    requires Keeps(a, b) && Keeps(b, c)
    ensures Keeps(a, c)
  {
  }

  /** Both copies have the same snapshot of this window. */
  predicate AgreeAt(c: Copies, w: Window) {
    Get(c.held, w) == Get(c.stored, w)
  }

  lemma TakeSnapshotOk(c: Copies, w: Window, now: int, env: RowEnv)
    requires RowOk(c.stored, now) && c.stored.priceAtPublish.Some? && c.held.publishedAt == c.stored.publishedAt
    requires AgreeAt(c, w)
    ensures var next := TakeSnapshot(c, w, now, env);
            && RowOk(next.stored, now) && Keeps(c.stored, next.stored)
            && next.stored.publishedAt == c.stored.publishedAt && next.held.publishedAt == c.held.publishedAt
            && forall v :: v != w ==> Get(next.stored, v) == Get(c.stored, v) && Get(next.held, v) == Get(c.held, v)
  {
    forall v
      ensures WindowOk(TakeSnapshot(c, w, now, env).stored, v, now)
    {
      assert WindowOk(c.stored, v, now);
    }
  }

  lemma TakeAllOk(c: Copies, now: int, env: RowEnv)
    requires RowOk(c.stored, now) && c.stored.priceAtPublish.Some? && c.held == c.stored
    ensures RowOk(TakeAll(c, now, env).stored, now) && Keeps(c.stored, TakeAll(c, now, env).stored)
  {
    var a := TakeSnapshot(c, H1, now, env);
    var b := TakeSnapshot(a, H4, now, env);
    TakeSnapshotOk(c, H1, now, env);
    TakeSnapshotOk(a, H4, now, env);
    TakeSnapshotOk(b, H24, now, env);
    KeepsTransitive(c.stored, a.stored, b.stored);
    KeepsTransitive(c.stored, b.stored, TakeAll(c, now, env).stored);
  }

  lemma FilledOk(row: Row, now: int, env: RowEnv)
    requires RowOk(row, now)
    ensures var c := FillPublishPrice(row, env);
            RowOk(c.stored, now) && Keeps(row, c.stored) && (c.held.priceAtPublish.Some? ==> c.held == c.stored)
  {
    forall w
      ensures WindowOk(FillPublishPrice(row, env).stored, w, now)
    {
      assert WindowOk(row, w, now);
    }
  }

  lemma ProcessOk(row: Row, now: int, env: RowEnv)
    requires RowOk(row, now)
    ensures RowOk(Process(row, now, env).stored, now) && Keeps(row, Process(row, now, env).stored)
  {
    var filled := FillPublishPrice(row, env);
    FilledOk(row, now, env);
    if filled.held.priceAtPublish.Some? {
      TakeAllOk(filled, now, env);
      KeepsTransitive(row, filled.stored, TakeAll(filled, now, env).stored);
    }
  }

  /** A window is taken in the table when its write takes effect, and in memory when the reply arrives. */
  lemma WindowTaken(c: Copies, now: int, env: RowEnv, w: Window)
    requires c.held == c.stored
    ensures var taken, s, next := Takes(c.held, w, now, env), Snapshot(env.price(w), true), TakeAll(c, now, env);
            && Get(next.stored, w) == (if taken && TakesEffect(env.written(w)) then s else Get(c.stored, w))
            && Get(next.held, w) == (if taken && env.written(w).Delivered? then s else Get(c.held, w))
  {
  }

  /** How long after publication each snapshot is due, in seconds. */
  predicate IsDelay(w: Window, seconds: int) {
    match w
    case H1 => seconds == 3600
    case H4 => seconds == 14400
    case H24 => seconds == 86400
  }

  /** Processing a row whose price at publication is known, or gets known with its reply, does a window in the table
      exactly when it was done before, or its time has come, its price is found and the write takes effect; the price
      stored is then the one found for that very window. Without a known price no window is touched. */
  lemma ProcessedWindow(row: Row, now: int, env: RowEnv, w: Window, seconds: int)
    requires IsDelay(w, seconds)
    ensures var stored := Process(row, now, env).stored;
            var known := row.priceAtPublish.Some? || (env.publishPrice.Some? && env.publishWritten.Delivered?);
            var does := known && !Get(row, w).isDone && now > row.publishedAt + seconds && env.price(w).Some?
                        && TakesEffect(env.written(w));
            Get(stored, w) == if does then Snapshot(env.price(w), true) else Get(row, w)
  {
    var filled := FillPublishPrice(row, env);
    if filled.held.priceAtPublish.Some? {
      WindowTaken(filled, now, env, w);
    }
  }

  /** Processing fills in the price at publication exactly when it was missing, is found and its write takes effect. */
  lemma ProcessedPrice(row: Row, now: int, env: RowEnv)
    ensures var stored := Process(row, now, env).stored;
            && stored.publishedAt == row.publishedAt
            && stored.priceAtPublish == (if row.priceAtPublish.None? && TakesEffect(env.publishWritten)
                                         then env.publishPrice else row.priceAtPublish)
  {
  }

  /** All replies to the snapshots that are still to be done arrive. */
  ghost predicate RepliesArrive(row: Row, env: RowEnv) {
    forall w :: !Get(row, w).isDone ==> env.written(w).Delivered?
  }

  /** Processing that completes a row tries its history exactly when all those replies arrive; the row the worker
      holds is never complete without the stored one. */
  lemma TriesIffRepliesArrive(row: Row, now: int, env: RowEnv)
    requires !AllDone(row)
    ensures var c := Process(row, now, env);
            && (TriesHistory(c.held) ==> AllDone(c.stored))
            && (AllDone(c.stored) ==> (TriesHistory(c.held) <==> RepliesArrive(row, env)))
  {
    var filled := FillPublishPrice(row, env);
    var c := Process(row, now, env);
    forall w
      ensures Get(filled.stored, w) == Get(row, w) == Get(filled.held, w)
      ensures filled.held.priceAtPublish.Some? && AllDone(c.stored) && !Get(row, w).isDone ==>
                (Get(c.held, w).isDone <==> env.written(w).Delivered?)
      ensures filled.held.priceAtPublish.Some? && Get(c.held, w).isDone ==> Get(c.stored, w).isDone
      ensures filled.held.priceAtPublish.Some? && Get(row, w).isDone ==> Get(c.held, w).isDone
    {
      if filled.held.priceAtPublish.Some? {
        WindowTaken(filled, now, env, w);
        assert AllDone(c.stored) ==> Get(c.stored, w).isDone;
      }
    }
    AllDoneIsEach(row);
    AllDoneIsEach(c.held);
    AllDoneIsEach(c.stored);
  }

  lemma AllDoneIsEach(row: Row)
    ensures AllDone(row) <==> forall w :: Get(row, w).isDone
  {
    assert Get(row, H1) == row.h1 && Get(row, H4) == row.h4 && Get(row, H24) == row.h24;
  }

  function CountOf(keys: seq<Key>, k: Key): nat {
    multiset(keys)[k]
  }

  ghost predicate IsCompleted(st: State, k: Key) {
    k in st.table && AllDone(st.table[k])
  }

  /** Every row is in order, and InsertHistory was tried at most once for each completed row and never for another;
      only tried rows have history. */
  ghost predicate Good(st: State, clock: int) {
    && (forall k :: k in st.table ==> RowOk(st.table[k], clock))
    && (forall k :: CountOf(st.attempts, k) <= if IsCompleted(st, k) then 1 else 0)
    && (forall k :: k in st.history ==> k in st.attempts)
  }

  ghost predicate KeepsAll(st: State, next: State) {
    && (forall k :: k in st.table ==> k in next.table && Keeps(st.table[k], next.table[k]))
    && st.attempts <= next.attempts && st.history <= next.history
  }

  lemma UpsertedOk(row: Row, publishedAt: int, price: Option<real>, clock: int)
    requires RowOk(row, clock)
    ensures var next := row.(priceAtPublish := if row.priceAtPublish.Some? then row.priceAtPublish else price,
                             publishedAt := if row.publishedAt <= publishedAt then row.publishedAt else publishedAt);
            RowOk(next, clock) && Keeps(row, next) && (AllDone(next) <==> AllDone(row))
  {
    var next := row.(priceAtPublish := if row.priceAtPublish.Some? then row.priceAtPublish else price,
                     publishedAt := if row.publishedAt <= publishedAt then row.publishedAt else publishedAt);
    forall w
      ensures WindowOk(next, w, clock)
    {
      assert WindowOk(row, w, clock);
    }
  }

  lemma UpsertGood(st: State, k: Key, publishedAt: int, price: Option<real>, clock: int)
    requires Good(st, clock)
    ensures Good(st.(table := Upserted(st.table, k, publishedAt, price)), clock)
    ensures KeepsAll(st, st.(table := Upserted(st.table, k, publishedAt, price)))
  {
    if k in st.table {
      UpsertedOk(st.table[k], publishedAt, price, clock);
    }
  }

  lemma KeepsAllTransitive(a: State, b: State, c: State)
    requires KeepsAll(a, b) && KeepsAll(b, c)
    ensures KeepsAll(a, c)
  {
    forall k | k in a.table
      ensures k in c.table && Keeps(a.table[k], c.table[k])
    {
      KeepsTransitive(a.table[k], b.table[k], c.table[k]);
    }
  }

  lemma {:induction false} UpsertAllGood(st: State, candidates: seq<Candidate>, clock: int)
    requires Good(st, clock)
    ensures Good(st.(table := UpsertAll(st.table, candidates)), clock)
    ensures KeepsAll(st, st.(table := UpsertAll(st.table, candidates)))
  {
    if candidates == [] {
    } else {
      var c, rest := candidates[|candidates| - 1], candidates[..|candidates| - 1];
      UpsertAllGood(st, rest, clock);
      var mid := st.(table := UpsertAll(st.table, rest));
      if TakesEffect(c.written) {
        UpsertGood(mid, c.key, c.publishedAt, c.price, clock);
        KeepsAllTransitive(st, mid, mid.(table := Upserted(mid.table, c.key, c.publishedAt, c.price)));
      }
    }
  }

  lemma ProcessKeyGood(st: State, k: Key, now: int, env: RowEnv)
    requires Good(st, now) && Pending(st.table, k)
    ensures Good(ProcessKey(st, k, now, env), now) && KeepsAll(st, ProcessKey(st, k, now, env))
  {
    var st' := ProcessKey(st, k, now, env);
    ProcessOk(st.table[k], now, env);
    TriesIffRepliesArrive(st.table[k], now, env);
    forall j
      ensures CountOf(st'.attempts, j) <= if IsCompleted(st', j) then 1 else 0
    {
      assert CountOf(st.attempts, j) <= if IsCompleted(st, j) then 1 else 0;
    }
  }

  /** Rows that are not listed are left alone. */
  lemma {:induction false} ProcessAllElsewhere(st: State, keys: seq<Key>, now: int, envs: Key -> RowEnv, k: Key)
    requires k !in keys
    ensures k in ProcessAll(st, keys, now, envs).table <==> k in st.table
    ensures k in st.table ==> ProcessAll(st, keys, now, envs).table[k] == st.table[k]
    ensures k in ProcessAll(st, keys, now, envs).history <==> k in st.history
    ensures CountOf(ProcessAll(st, keys, now, envs).attempts, k) == CountOf(st.attempts, k)
  {
    if keys == [] {
    } else {
      ProcessAllElsewhere(st, keys[..|keys| - 1], now, envs, k);
    }
  }

  lemma {:induction false} ProcessAllGood(st: State, keys: seq<Key>, now: int, envs: Key -> RowEnv)
    requires Good(st, now) && IsPendingList(st.table, keys)
    ensures Good(ProcessAll(st, keys, now, envs), now) && KeepsAll(st, ProcessAll(st, keys, now, envs))
  {
    if keys == [] {
    } else {
      var n := |keys| - 1;
      ProcessAllGood(st, keys[..n], now, envs);
      var mid := ProcessAll(st, keys[..n], now, envs);
      ProcessAllElsewhere(st, keys[..n], now, envs, keys[n]);
      ProcessKeyGood(mid, keys[n], now, envs(keys[n]));
      KeepsAllTransitive(st, mid, ProcessAll(st, keys, now, envs));
    }
  }

  lemma ClockMoves(st: State, before: int, now: int)
    requires Good(st, before) && before <= now
    ensures Good(st, now)
  {
    forall k | k in st.table
      ensures RowOk(st.table[k], now)
    {
      forall w
        ensures WindowOk(st.table[k], w, now)
      {
        assert WindowOk(st.table[k], w, before);
      }
    }
  }

  lemma RanGood(st: State, input: Input, clock: int)
    requires Good(st, clock) && clock <= input.now && ListsPending(input.list)
    ensures Good(Ran(st, input), input.now) && KeepsAll(st, Ran(st, input))
  {
    ClockMoves(st, clock, input.now);
    if input.candidatesRead {
      UpsertAllGood(st, input.candidates, input.now);
      var upserted := st.(table := UpsertAll(st.table, input.candidates));
      if input.pendingRead {
        assert IsPendingList(upserted.table, input.list(upserted.table));
        ProcessAllGood(upserted, input.list(upserted.table), input.now, input.envs);
        KeepsAllTransitive(st, upserted, Ran(st, input));
      }
    }
  }

  const EMPTY := State(map[], [], {})

  /** The state after a sequence of runs from empty tables. */
  function RanAll(inputs: seq<Input>): State {
    if inputs == [] then EMPTY else Ran(RanAll(inputs[..|inputs| - 1]), inputs[|inputs| - 1])
  }

  /** The state after the first `n` runs. */
  function After(inputs: seq<Input>, n: nat): State
    requires n <= |inputs|
  {
    RanAll(inputs[..n])
  }

  ghost predicate Legal(inputs: seq<Input>) {
    && (forall i :: 0 <= i < |inputs| ==> ListsPending(inputs[i].list))
    && (forall i, j :: 0 <= i < j < |inputs| ==> inputs[i].now <= inputs[j].now)
  }

  lemma AfterOneMore(inputs: seq<Input>, n: nat)
    requires n < |inputs|
    ensures After(inputs, n + 1) == Ran(After(inputs, n), inputs[n])
  {
    assert inputs[..n + 1][..n] == inputs[..n];
  }

  /** The time of the last run before run `n`; at the start, any time will do. */
  function ClockBefore(inputs: seq<Input>, n: nat): int
    requires n < |inputs|
  {
    if n == 0 then inputs[0].now else inputs[n - 1].now
  }

  /** One run of a sequence, from a state that is in order. */
  lemma RunIsGood(inputs: seq<Input>, n: nat)
    requires Legal(inputs) && n < |inputs| && Good(After(inputs, n), ClockBefore(inputs, n))
    ensures Good(After(inputs, n + 1), inputs[n].now) && KeepsAll(After(inputs, n), After(inputs, n + 1))
  {
    AfterOneMore(inputs, n);
    RanGood(After(inputs, n), inputs[n], ClockBefore(inputs, n));
  }

  lemma {:induction false} GoodBefore(inputs: seq<Input>, n: nat)
    requires Legal(inputs) && n < |inputs|
    ensures Good(After(inputs, n), ClockBefore(inputs, n))
  {
    if n == 0 {
      assert After(inputs, 0) == EMPTY;
    } else {
      GoodBefore(inputs, n - 1);
      RunIsGood(inputs, n - 1);
    }
  }

  /** After every run: a done flag implies its price and the price at publication are set and its window has
      elapsed, and InsertHistory has been tried at most once for every completed row and never for another. */
  lemma GoodAlways(inputs: seq<Input>)
    requires Legal(inputs)
    ensures inputs == [] || Good(RanAll(inputs), inputs[|inputs| - 1].now)
  {
    if inputs != [] {
      GoodBefore(inputs, |inputs| - 1);
      RunIsGood(inputs, |inputs| - 1);
      assert inputs[..|inputs|] == inputs;
    }
  }

  /** No later run changes a done flag or a set price back. */
  lemma {:induction false} NothingChangesBack(inputs: seq<Input>, i: nat, j: nat)
    requires Legal(inputs) && i <= j <= |inputs|
    ensures KeepsAll(After(inputs, i), After(inputs, j))
  {
    if i == j {
    } else {
      NothingChangesBack(inputs, i, j - 1);
      GoodBefore(inputs, j - 1);
      RunIsGood(inputs, j - 1);
      KeepsAllTransitive(After(inputs, i), After(inputs, j - 1), After(inputs, j));
    }
  }

  // ----- When a completed row has history -----

  lemma CompletedIsKept(st: State, next: State, k: Key)
    requires KeepsAll(st, next) && IsCompleted(st, k)
    ensures IsCompleted(next, k)
  {
    AllDoneIsEach(st.table[k]);
    AllDoneIsEach(next.table[k]);
    assert forall w :: Get(st.table[k], w).isDone ==> Get(next.table[k], w) == Get(st.table[k], w);
  }

  /** A run does not touch the history of a row that is already completed, nor try it again. */
  lemma CompletedLeftAlone(st: State, input: Input, clock: int, k: Key)
    requires Good(st, clock) && clock <= input.now && ListsPending(input.list) && IsCompleted(st, k)
    ensures IsCompleted(Ran(st, input), k)
    ensures k in Ran(st, input).history <==> k in st.history
    ensures CountOf(Ran(st, input).attempts, k) == CountOf(st.attempts, k)
  {
    RanGood(st, input, clock);
    CompletedIsKept(st, Ran(st, input), k);
    ClockMoves(st, clock, input.now);
    UpsertAllGood(st, input.candidates, input.now);
    var upserted := st.(table := UpsertAll(st.table, input.candidates));
    CompletedIsKept(st, upserted, k);
    if input.candidatesRead && input.pendingRead {
      var keys := input.list(upserted.table);
      assert IsPendingList(upserted.table, keys);
      assert k !in keys;
      ProcessAllElsewhere(upserted, keys, input.now, input.envs, k);
    }
  }

  /** Run `i` is the one that completes the row `k`. */
  ghost predicate Completes(inputs: seq<Input>, i: nat, k: Key) {
    i < |inputs| && !IsCompleted(After(inputs, i), k) && IsCompleted(After(inputs, i + 1), k)
  }

  /** The row that an upsert finds or makes, as far as its snapshots go. */
  function RowOr(table: Table, k: Key): Row {
    if k in table then table[k] else Row(0, None, Snapshot(None, false), Snapshot(None, false), Snapshot(None, false))
  }

  lemma {:induction false} UpsertAllSnapshots(table: Table, candidates: seq<Candidate>, k: Key, w: Window)
    ensures Get(RowOr(UpsertAll(table, candidates), k), w) == Get(RowOr(table, k), w)
  {
    if candidates == [] {
    } else {
      UpsertAllSnapshots(table, candidates[..|candidates| - 1], k, w);
    }
  }

  /** A listed row ends as processing it alone leaves it. */
  lemma {:induction false} ProcessAllAt(st: State, keys: seq<Key>, now: int, envs: Key -> RowEnv, k: Key)
    requires IsPendingList(st.table, keys) && k in keys
    ensures var all, one := ProcessAll(st, keys, now, envs), ProcessKey(st, k, now, envs(k));
            && k in all.table && all.table[k] == one.table[k]
            && CountOf(all.attempts, k) == CountOf(one.attempts, k) && (k in all.history <==> k in one.history)
  {
    var n := |keys| - 1;
    if keys[n] == k {
      ProcessAllElsewhere(st, keys[..n], now, envs, k);
    } else {
      assert keys == keys[..n] + [keys[n]];
      ProcessAllAt(st, keys[..n], now, envs, k);
    }
  }

  /** The run that completes a row tries its history if and only if all replies to its last snapshots arrive, and
      leaves it with history if and only if the insert works as well. */
  lemma CompletingRun(st: State, input: Input, clock: int, k: Key)
    requires Good(st, clock) && clock <= input.now && ListsPending(input.list)
    requires !IsCompleted(st, k) && IsCompleted(Ran(st, input), k)
    ensures var arrive := RepliesArrive(RowOr(st.table, k), input.envs(k));
            && CountOf(Ran(st, input).attempts, k) == (if arrive then 1 else 0)
            && (k in Ran(st, input).history <==> arrive && input.envs(k).historyWritten)
  {
    ClockMoves(st, clock, input.now);
    UpsertAllGood(st, input.candidates, input.now);
    var upserted := st.(table := UpsertAll(st.table, input.candidates));
    SnapshotsUpserted(st.table, input.candidates, k, input.envs(k));
    assert !IsCompleted(upserted, k);
    NotTried(upserted, input.now, k);
    var keys := input.list(upserted.table);
    assert IsPendingList(upserted.table, keys);
    if k !in keys {
      ProcessAllElsewhere(upserted, keys, input.now, input.envs, k);
    }
    ProcessAllAt(upserted, keys, input.now, input.envs, k);
    TriesIffRepliesArrive(upserted.table[k], input.now, input.envs(k));
  }

  /** The upserts of a run complete no row and change no snapshot. */
  lemma SnapshotsUpserted(table: Table, candidates: seq<Candidate>, k: Key, env: RowEnv)
    ensures var before, after := RowOr(table, k), RowOr(UpsertAll(table, candidates), k);
            (AllDone(after) <==> AllDone(before)) && (RepliesArrive(after, env) <==> RepliesArrive(before, env))
  {
    var before, after := RowOr(table, k), RowOr(UpsertAll(table, candidates), k);
    forall w
      ensures Get(after, w) == Get(before, w)
    {
      UpsertAllSnapshots(table, candidates, k, w);
    }
    AllDoneIsEach(before);
    AllDoneIsEach(after);
  }

  lemma NotTried(st: State, clock: int, k: Key)
    requires Good(st, clock) && !IsCompleted(st, k)
    ensures CountOf(st.attempts, k) == 0 && k !in st.history
  {
    assert k in st.attempts <==> k in multiset(st.attempts);
    assert CountOf(st.attempts, k) <= if IsCompleted(st, k) then 1 else 0;
  }

  /** All replies to the snapshots still to be done for the row `k` in run `i` arrive. */
  ghost predicate Replied(inputs: seq<Input>, i: nat, k: Key)
    requires i < |inputs|
  {
    RepliesArrive(RowOr(After(inputs, i).table, k), inputs[i].envs(k))
  }

  /** What the completing run `i` leaves of the row `k` for good. */
  ghost predicate SettledBy(inputs: seq<Input>, i: nat, k: Key, st: State)
    requires i < |inputs|
  {
    && IsCompleted(st, k)
    && CountOf(st.attempts, k) == (if Replied(inputs, i, k) then 1 else 0)
    && (k in st.history <==> Replied(inputs, i, k) && inputs[i].envs(k).historyWritten)
  }

  lemma SettledAtOnce(inputs: seq<Input>, i: nat, k: Key)
    requires Legal(inputs) && Completes(inputs, i, k)
    ensures SettledBy(inputs, i, k, After(inputs, i + 1))
  {
    GoodBefore(inputs, i);
    AfterOneMore(inputs, i);
    CompletingRun(After(inputs, i), inputs[i], ClockBefore(inputs, i), k);
  }

  lemma StaysSettled(inputs: seq<Input>, i: nat, j: nat, k: Key)
    requires Legal(inputs) && i < |inputs| && j < |inputs| && SettledBy(inputs, i, k, After(inputs, j))
    ensures SettledBy(inputs, i, k, After(inputs, j + 1))
  {
    GoodBefore(inputs, j);
    AfterOneMore(inputs, j);
    CompletedLeftAlone(After(inputs, j), inputs[j], ClockBefore(inputs, j), k);
  }

  lemma {:induction false} Settled(inputs: seq<Input>, i: nat, j: nat, k: Key)
    requires Legal(inputs) && Completes(inputs, i, k) && i < j <= |inputs|
    ensures SettledBy(inputs, i, k, After(inputs, j))
  {
    if j == i + 1 {
      SettledAtOnce(inputs, i, k);
    } else {
      Settled(inputs, i, j - 1, k);
      StaysSettled(inputs, i, j - 1, k);
    }
  }

  lemma {:induction false} CompletingRunExists(inputs: seq<Input>, n: nat, k: Key)
    requires n <= |inputs| && IsCompleted(After(inputs, n), k)
    ensures exists i: nat :: i < n && Completes(inputs, i, k)
  {
    assert n > 0 by {
      assert After(inputs, 0) == EMPTY;
    }
    if IsCompleted(After(inputs, n - 1), k) {
      CompletingRunExists(inputs, n - 1, k);
    } else {
      assert Completes(inputs, n - 1, k);
    }
  }

  /** After any number of runs a row is completed if and only if one of them completed it. Its history was tried, and
      then exactly once, if and only if no completing snapshot of that run was written with its reply lost; it has
      history if and only if the insert worked as well. */
  lemma {:induction false} HistoryIffInsertWorked(inputs: seq<Input>, n: nat, k: Key)
    requires Legal(inputs) && n <= |inputs|
    ensures IsCompleted(After(inputs, n), k) <==> exists i: nat :: i < n && Completes(inputs, i, k)
    ensures forall i: nat :: i < n && Completes(inputs, i, k) ==>
                               && CountOf(After(inputs, n).attempts, k) == (if Replied(inputs, i, k) then 1 else 0)
                               && (k in After(inputs, n).history
                                   <==> Replied(inputs, i, k) && inputs[i].envs(k).historyWritten)
  {
    if IsCompleted(After(inputs, n), k) {
      CompletingRunExists(inputs, n, k);
    }
    forall i: nat | i < n && Completes(inputs, i, k)
      ensures SettledBy(inputs, i, k, After(inputs, n))
    {
      Settled(inputs, i, n, k);
    }
  }

  // ----- Where prices and times come from -----

  /** Candidate `c` of the run is upserted for the row `k`. */
  ghost predicate Applies(input: Input, c: Candidate, k: Key) {
    input.candidatesRead && c in input.candidates && TakesEffect(c.written) && c.key == k
  }

  /** The upserts of a run leave the earliest time and a price that was there before or is a candidate's. */
  lemma {:induction false} UpsertAllFields(table: Table, candidates: seq<Candidate>, k: Key)
    ensures var next := UpsertAll(table, candidates);
            && (k in table ==> k in next && next[k].publishedAt <= table[k].publishedAt)
            && (forall c :: c in candidates && TakesEffect(c.written) && c.key == k ==>
                              k in next && next[k].publishedAt <= c.publishedAt)
            && (k in next ==>
                  || (k in table && next[k].publishedAt == table[k].publishedAt)
                  || exists c :: c in candidates && TakesEffect(c.written) && c.key == k
                                 && next[k].publishedAt == c.publishedAt)
            && (k in next && next[k].priceAtPublish.Some? ==>
                  || (k in table && next[k].priceAtPublish == table[k].priceAtPublish)
                  || exists c :: c in candidates && TakesEffect(c.written) && c.key == k
                                 && next[k].priceAtPublish == c.price)
  {
    if candidates == [] {
    } else {
      var n := |candidates| - 1;
      UpsertAllFields(table, candidates[..n], k);
      assert candidates == candidates[..n] + [candidates[n]];
    }
  }

  /** What a run makes of one row: its candidates first, then the processing of the row exactly if it is listed. */
  lemma RunOfRow(st: State, input: Input, k: Key)
    requires ListsPending(input.list) && input.candidatesRead
    ensures var upserted, next := UpsertAll(st.table, input.candidates), Ran(st, input).table;
            && (k in next <==> k in upserted)
            && (k in next ==>
                  next[k] == if input.pendingRead && k in input.list(upserted)
                             then Process(upserted[k], input.now, input.envs(k)).stored else upserted[k])
  {
    var upserted := st.(table := UpsertAll(st.table, input.candidates));
    if input.pendingRead {
      var keys := input.list(upserted.table);
      assert IsPendingList(upserted.table, keys);
      if k in keys {
        ProcessAllAt(upserted, keys, input.now, input.envs, k);
      } else {
        ProcessAllElsewhere(upserted, keys, input.now, input.envs, k);
      }
    }
  }

  /** Run `i` takes the snapshot of window `w`: its time has come, and its price is the one found for that window. */
  ghost predicate TakenIn(inputs: seq<Input>, i: nat, k: Key, w: Window)
    requires i < |inputs|
  {
    && !Get(RowOr(After(inputs, i).table, k), w).isDone && k in After(inputs, i + 1).table
    && var row := After(inputs, i + 1).table[k];
       && Get(row, w) == Snapshot(inputs[i].envs(k).price(w), true)
       && forall seconds :: IsDelay(w, seconds) ==> inputs[i].now > row.publishedAt + seconds
  }

  lemma WindowOfRun(inputs: seq<Input>, i: nat, k: Key, w: Window)
    requires Legal(inputs) && i < |inputs| && k in After(inputs, i + 1).table
    requires Get(After(inputs, i + 1).table[k], w).isDone && !Get(RowOr(After(inputs, i).table, k), w).isDone
    ensures TakenIn(inputs, i, k, w)
  {
    var st, input := After(inputs, i), inputs[i];
    AfterOneMore(inputs, i);
    RunOfRow(st, input, k);
    UpsertAllSnapshots(st.table, input.candidates, k, w);
    var row := UpsertAll(st.table, input.candidates)[k];
    ProcessedPrice(row, input.now, input.envs(k));
    ProcessedWindow(row, input.now, input.envs(k), w, Delay(w));
  }

  /** After any number of runs the price of a done window is the one found for that very window, in the run that did
      it and no earlier than its time. */
  lemma {:induction false} SnapshotIsTaken(inputs: seq<Input>, n: nat, k: Key, w: Window)
    requires Legal(inputs) && n <= |inputs| && k in After(inputs, n).table && Get(After(inputs, n).table[k], w).isDone
    ensures exists i: nat :: i < n && TakenIn(inputs, i, k, w)
                             && Get(After(inputs, n).table[k], w).price == inputs[i].envs(k).price(w)
  {
    if n == 0 {
    } else if Get(RowOr(After(inputs, n - 1).table, k), w).isDone {
      SnapshotIsTaken(inputs, n - 1, k, w);
      NothingChangesBack(inputs, n - 1, n);
    } else {
      WindowOfRun(inputs, n - 1, k, w);
    }
  }

  /** Run `i` upserts a candidate for the row, or resolves its price at publication, with this price. */
  ghost predicate PricedIn(inputs: seq<Input>, i: nat, k: Key, price: Option<real>)
    requires i < |inputs|
  {
    price == inputs[i].envs(k).publishPrice || exists c :: Applies(inputs[i], c, k) && price == c.price
  }

  /** The price at publication is one that some run resolved for it. */
  lemma {:induction false} PriceIsResolved(inputs: seq<Input>, n: nat, k: Key)
    requires Legal(inputs) && n <= |inputs| && k in After(inputs, n).table
    requires After(inputs, n).table[k].priceAtPublish.Some?
    ensures exists i: nat :: i < n && PricedIn(inputs, i, k, After(inputs, n).table[k].priceAtPublish)
  {
    if n == 0 {
    } else {
      var st, input := After(inputs, n - 1), inputs[n - 1];
      AfterOneMore(inputs, n - 1);
      if k in st.table && st.table[k].priceAtPublish.Some? {
        PriceIsResolved(inputs, n - 1, k);
        NothingChangesBack(inputs, n - 1, n);
      } else {
        RunOfRow(st, input, k);
        UpsertAllFields(st.table, input.candidates, k);
        var row := UpsertAll(st.table, input.candidates)[k];
        ProcessedPrice(row, input.now, input.envs(k));
        if row.priceAtPublish.Some? {
          assert exists c :: Applies(input, c, k) && c.price == row.priceAtPublish;
        }
        assert PricedIn(inputs, n - 1, k, After(inputs, n).table[k].priceAtPublish);
      }
    }
  }

  /** One of the first `n` runs upserts a candidate for the row with this time. */
  ghost predicate TimedBefore(inputs: seq<Input>, n: nat, k: Key, time: int)
    requires n <= |inputs|
  {
    exists i, c :: 0 <= i < n && Applies(inputs[i], c, k) && c.publishedAt == time
  }

  lemma LaterKeepsTimed(inputs: seq<Input>, n: nat, k: Key)
    requires Legal(inputs) && n < |inputs| && k in After(inputs, n + 1).table
    requires k in After(inputs, n).table ==> TimedBefore(inputs, n, k, After(inputs, n).table[k].publishedAt)
    ensures TimedBefore(inputs, n + 1, k, After(inputs, n + 1).table[k].publishedAt)
  {
    var st, next := After(inputs, n), After(inputs, n + 1).table;
    AfterOneMore(inputs, n);
    RunTime(st, inputs[n], k);
    if k !in st.table || next[k].publishedAt != st.table[k].publishedAt {
      var c :| Applies(inputs[n], c, k) && next[k].publishedAt == c.publishedAt;
    }
  }

  /** An upserted row exists from then on, and its publication time is never later than an upserted one … */
  lemma {:induction false} TimeIsEarliest(inputs: seq<Input>, i: nat, n: nat, c: Candidate, k: Key)
    requires Legal(inputs) && i < n <= |inputs| && Applies(inputs[i], c, k)
    ensures k in After(inputs, n).table && After(inputs, n).table[k].publishedAt <= c.publishedAt
  {
    if i < n - 1 {
      TimeIsEarliest(inputs, i, n - 1, c, k);
    }
    AfterOneMore(inputs, n - 1);
    RunTime(After(inputs, n - 1), inputs[n - 1], k);
  }

  /** … and it is one of them, so it is the earliest; no other row exists. */
  lemma {:induction false} TimeIsUpserted(inputs: seq<Input>, n: nat, k: Key)
    requires Legal(inputs) && n <= |inputs| && k in After(inputs, n).table
    ensures TimedBefore(inputs, n, k, After(inputs, n).table[k].publishedAt)
  {
    if n == 0 {
    } else {
      if k in After(inputs, n - 1).table {
        TimeIsUpserted(inputs, n - 1, k);
      }
      LaterKeepsTimed(inputs, n - 1, k);
    }
  }

  lemma RunTime(st: State, input: Input, k: Key)
    requires ListsPending(input.list)
    ensures var next := Ran(st, input).table;
            && (k in st.table ==> k in next && next[k].publishedAt <= st.table[k].publishedAt)
            && (forall c :: Applies(input, c, k) ==> k in next && next[k].publishedAt <= c.publishedAt)
            && (k in next ==> (k in st.table && next[k].publishedAt == st.table[k].publishedAt)
                              || exists c :: Applies(input, c, k) && next[k].publishedAt == c.publishedAt)
  {
    if input.candidatesRead {
      RunOfRow(st, input, k);
      UpsertAllFields(st.table, input.candidates, k);
      var upserted := UpsertAll(st.table, input.candidates);
      if k in upserted {
        ProcessedPrice(upserted[k], input.now, input.envs(k));
      }
      forall c | c in input.candidates && TakesEffect(c.written) && c.key == k
        ensures Applies(input, c, k)
      {
      }
    }
  }

  /** A completed row whose history is lost for good. */
  ghost predicate HistoryLost(st: State, k: Key) {
    IsCompleted(st, k) && k !in st.history
  }

  /** No later run writes it. */
  lemma {:induction false} LostHistoryStaysLost(inputs: seq<Input>, i: nat, j: nat, k: Key)
    requires Legal(inputs) && i <= j <= |inputs| && HistoryLost(After(inputs, i), k)
    ensures HistoryLost(After(inputs, j), k)
  {
    CompletingRunExists(inputs, i, k);
    var m: nat :| m < i && Completes(inputs, m, k);
    Settled(inputs, m, i, k);
    Settled(inputs, m, j, k);
  }

  /** One run in which every price is found; the snapshots and the history insert go as given. */
  function OneRun(k: Key, written: Window -> Delivery, historyWritten: bool): Input {
    Input([Candidate(k, 0, Some(1.0), Delivered)], true, true,
          (table: Table) => if k in table && !AllDone(table[k]) then [k] else [],
          25 * HOUR,
          (_: Key) => RowEnv(None, Delivered, (_: Window) => Some(2.0), written, historyWritten))
  }

  /** The row before the run takes its snapshots. */
  const FRESH := Row(0, Some(1.0), Snapshot(None, false), Snapshot(None, false), Snapshot(None, false))

  lemma OneRunGives(k: Key, written: Window -> Delivery, historyWritten: bool)
    ensures var input := OneRun(k, written, historyWritten);
            && Legal([input])
            && RanAll([input]) == ProcessKey(State(map[k := FRESH], [], {}), k, input.now, input.envs(k))
  {
    var input := OneRun(k, written, historyWritten);
    forall table
      ensures IsPendingList(table, input.list(table))
    {
    }
    assert [input][..0] == [];
    assert input.candidates[..0] == [];
    assert UpsertAll(map[], input.candidates) == map[k := FRESH];
    assert [k][..0] == [];
    var upserted := State(map[k := FRESH], [], {});
    assert ProcessAll(upserted, [k], input.now, input.envs) == ProcessKey(upserted, k, input.now, input.envs(k));
  }

  const EACH_ARRIVES: Window -> Delivery := (_: Window) => Delivered

  /** The reply to the last snapshot is lost. */
  const LAST_IS_LOST: Window -> Delivery := (w: Window) => if w == H24 then LostAfter else Delivered

  /** An instance: every write works but the history insert. */
  lemma LostHistoryInstance(k: Key)
    ensures var input := OneRun(k, EACH_ARRIVES, false);
            Legal([input]) && HistoryLost(RanAll([input]), k) && CountOf(RanAll([input]).attempts, k) == 1
  {
    var input := OneRun(k, EACH_ARRIVES, false);
    OneRunGives(k, EACH_ARRIVES, false);
    assert AllDone(Process(FRESH, input.now, input.envs(k)).held);
  }

  /** An instance: every write takes effect, but one reply is lost, and the row is completed without its history ever
      being tried. */
  lemma LostReplyInstance(k: Key)
    ensures var input := OneRun(k, LAST_IS_LOST, true);
            Legal([input]) && HistoryLost(RanAll([input]), k) && CountOf(RanAll([input]).attempts, k) == 0
  {
    var input := OneRun(k, LAST_IS_LOST, true);
    OneRunGives(k, LAST_IS_LOST, true);
    assert !AllDone(Process(FRESH, input.now, input.envs(k)).held);
  }
}
