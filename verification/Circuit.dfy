/** The per-provider circuit breaker of the gateway (irag/circuit.go). Every call runs under one lock, so
    concurrent requests are an interleaving of atomic calls. */
module Circuit {
  import opened Text

  datatype Config = Config(failThreshold: int, cooldown: int)

  /** `openUntil` is None for Go's zero time. */
  datatype CircuitState = CircuitState(failures: nat, openUntil: Option<int>)

  type Board = map<string, CircuitState>

  datatype Event = Allow(now: int) | Success | Failure(now: int)

  /** One call about one provider. */
  datatype Op = Op(name: string, event: Event)

  const CLOSED := CircuitState(0, None)

  function StateOf(board: Board, name: string): CircuitState {
    if name in board then board[name] else CLOSED
  }

  predicate Refuses(st: CircuitState, now: int) {
    st.openUntil.Some? && now <= st.openUntil.value
  }

  function Apply(cfg: Config, st: CircuitState, e: Event): CircuitState {
    match e
    case Allow(now) => if st.openUntil.Some? && now > st.openUntil.value then CLOSED else st
    case Success => CLOSED
    case Failure(now) =>
      CircuitState(st.failures + 1,
                   if st.failures + 1 >= cfg.failThreshold then Some(now + cfg.cooldown) else st.openUntil)
  }

  function ApplyOp(cfg: Config, board: Board, op: Op): Board {
    board[op.name := Apply(cfg, StateOf(board, op.name), op.event)]
  }

  function ApplyOps(cfg: Config, board: Board, ops: seq<Op>): Board {
    if ops == [] then board else ApplyOp(cfg, ApplyOps(cfg, board, ops[..|ops| - 1]), ops[|ops| - 1])
  }

  class CircuitBreaker {
    const cfg: Config
    var state: Board

    constructor (failThreshold: int, cooldown: int)
      ensures cfg == Config(failThreshold, cooldown) && state == map[]
    {
      cfg := Config(failThreshold, cooldown);
      state := map[];
    }

    method Ensure(name: string) returns (st: CircuitState)
      modifies this
      ensures st == StateOf(old(state), name) && state == old(state)[name := st]
    {
      if name !in state {
        state := state[name := CircuitState(0, None)];
      }
      st := state[name];
    }

    method Allow(name: string, now: int) returns (ok: bool)
      modifies this
      ensures state == ApplyOp(cfg, old(state), Op(name, Event.Allow(now)))
      ensures ok == !Refuses(StateOf(old(state), name), now)
    {
      var st := Ensure(name);
      if st.openUntil.None? {
        return true;
      }
      if now > st.openUntil.value {
        state := state[name := st.(openUntil := None, failures := 0)];
        return true;
      }
      return false;
    }

    method Success(name: string)
      modifies this
      ensures state == ApplyOp(cfg, old(state), Op(name, Event.Success))
    {
      var st := Ensure(name);
      state := state[name := st.(failures := 0, openUntil := None)];
    }

    method Failure(name: string, now: int)
      modifies this
      ensures state == ApplyOp(cfg, old(state), Op(name, Event.Failure(now)))
    {
      var st := Ensure(name);
      st := st.(failures := st.failures + 1);
      if st.failures >= cfg.failThreshold {
        st := st.(openUntil := Some(now + cfg.cooldown));
      }
      state := state[name := st];
    }
  }

  // ----- Providers do not disturb each other -----

  /** The events of one provider among the calls `ops`. */
  function EventsOf(ops: seq<Op>, name: string): seq<Event> {
    if ops == [] then []
    else EventsOf(ops[..|ops| - 1], name) + if ops[|ops| - 1].name == name then [ops[|ops| - 1].event] else []
  }

  lemma {:induction false} EventsOfConcat(a: seq<Op>, b: seq<Op>, name: string)
    ensures EventsOf(a + b, name) == EventsOf(a, name) + EventsOf(b, name)
  {
    if b == [] {
      assert a + b == a;
    } else {
      EventsOfConcat(a, b[..|b| - 1], name);
      assert (a + b)[..|a + b| - 1] == a + b[..|b| - 1];
    }
  }

  function Fold(cfg: Config, h: seq<Event>): CircuitState {
    if h == [] then CLOSED else Apply(cfg, Fold(cfg, h[..|h| - 1]), h[|h| - 1])
  }

  /** In any interleaving of calls, a provider's state is that of its own calls alone. */
  lemma {:induction false} OwnCallsOnly(cfg: Config, ops: seq<Op>, name: string)
    ensures StateOf(ApplyOps(cfg, map[], ops), name) == Fold(cfg, EventsOf(ops, name))
  {
    if ops == [] {
    } else {
      OwnCallsOnly(cfg, ops[..|ops| - 1], name);
      var before := EventsOf(ops[..|ops| - 1], name);
      assert before + [] == before;
      if ops[|ops| - 1].name == name {
        assert EventsOf(ops, name) == before + [ops[|ops| - 1].event];
        assert (before + [ops[|ops| - 1].event])[..|before|] == before;
      }
    }
  }

  // ----- Reading the state off the history -----

  function CountFailures(w: seq<Event>): nat {
    if w == [] then 0 else CountFailures(w[..|w| - 1]) + if w[|w| - 1].Failure? then 1 else 0
  }

  function LatestFailure(w: seq<Event>): int
    requires CountFailures(w) > 0
  {
    if w[|w| - 1].Failure? then w[|w| - 1].now else LatestFailure(w[..|w| - 1])
  }

  /** The window has enough failures, at least one, to open the circuit. */
  predicate Tripped(cfg: Config, w: seq<Event>) {
    CountFailures(w) >= 1 && CountFailures(w) >= cfg.failThreshold
  }

  /** After the window `w`, the event `e` wipes the count: a success, or a call admitted after the cooldown
      of an open circuit. */
  predicate Resets(cfg: Config, w: seq<Event>, e: Event) {
    e.Success? || (e.Allow? && Tripped(cfg, w) && e.now > LatestFailure(w) + cfg.cooldown)
  }

  /** Where the current window begins: just behind the latest reset. */
  function WindowStart(cfg: Config, h: seq<Event>): (r: nat)
    ensures r <= |h|
  {
    if h == [] then 0
    else
      var n := |h| - 1;
      var r := WindowStart(cfg, h[..n]);
      if Resets(cfg, h[..n][r..], h[n]) then |h| else r
  }

  function Window(cfg: Config, h: seq<Event>): seq<Event> {
    h[WindowStart(cfg, h)..]
  }

  /** No event of a window resets it, and the event before it is a reset. */
  lemma {:induction false} WindowIsSinceReset(cfg: Config, h: seq<Event>, i: nat)
    requires WindowStart(cfg, h) <= i < |h|
    ensures !Resets(cfg, h[WindowStart(cfg, h)..i], h[i])
  {
    var n := |h| - 1;
    var r := WindowStart(cfg, h[..n]);
    if i < n {
      WindowIsSinceReset(cfg, h[..n], i);
      assert h[..n][r..i] == h[r..i];
    } else {
      assert h[..n][r..] == h[r..n];
    }
  }

  /** The breaker's state is exactly its reading of the history: the failures since the latest reset, and
      open, until the latest failure plus the cooldown, exactly when they reach the threshold. */
  lemma {:induction false} StateIsReading(cfg: Config, h: seq<Event>)
    ensures var w := Window(cfg, h);
            Fold(cfg, h) == CircuitState(CountFailures(w),
                                         if Tripped(cfg, w) then Some(LatestFailure(w) + cfg.cooldown) else None)
  {
    if h == [] {
    } else {
      var n := |h| - 1;
      var r := WindowStart(cfg, h[..n]);
      StateIsReading(cfg, h[..n]);
      if !Resets(cfg, h[..n][r..], h[n]) {
        assert h[r..][..n - r] == h[..n][r..];
      }
    }
  }

  /** A call is refused if and only if the failures since the latest reset reach the threshold and the
      latest of them is no more than the cooldown ago. */
  lemma RefusedIff(cfg: Config, h: seq<Event>, now: int)
    ensures Refuses(Fold(cfg, h), now) <==>
            Tripped(cfg, Window(cfg, h)) && now <= LatestFailure(Window(cfg, h)) + cfg.cooldown
  {
    StateIsReading(cfg, h);
  }

  lemma {:induction false} LatestFailureOccurs(w: seq<Event>)
    requires CountFailures(w) > 0
    ensures Event.Failure(LatestFailure(w)) in w
  {
    if !w[|w| - 1].Failure? {
      LatestFailureOccurs(w[..|w| - 1]);
    }
  }

  /** Once every failure is more than the cooldown ago, no call is refused. */
  lemma NeverStuck(cfg: Config, h: seq<Event>, now: int)
    requires forall i :: 0 <= i < |h| && h[i].Failure? ==> h[i].now + cfg.cooldown < now
    ensures !Refuses(Fold(cfg, h), now)
  {
    RefusedIff(cfg, h, now);
    var w := Window(cfg, h);
    if Tripped(cfg, w) {
      LatestFailureOccurs(w);
      var i :| 0 <= i < |w| && w[i] == Event.Failure(LatestFailure(w));
      assert h[WindowStart(cfg, h) + i] == w[i];
    }
  }

  /** The event just before a window is the reset that began it. */
  lemma {:induction false} ResetBeforeWindow(cfg: Config, h: seq<Event>)
    requires WindowStart(cfg, h) > 0
    ensures var n := WindowStart(cfg, h) - 1; Resets(cfg, h[..n][WindowStart(cfg, h[..n])..], h[n])
  {
    var m := |h| - 1;
    if !Resets(cfg, h[..m][WindowStart(cfg, h[..m])..], h[m]) {
      ResetBeforeWindow(cfg, h[..m]);
      var n := WindowStart(cfg, h) - 1;
      assert h[..m][..n] == h[..n];
    }
  }
}
