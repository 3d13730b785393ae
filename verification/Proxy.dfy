/** The provider fallback loop of the gateway (irag/service.go), driving the circuit breaker while other
    requests call it too. */
module Proxy {
  import opened Text
  import opened Circuit

  // ----- Which replies are retried -----

  predicate RetryStatus(status: int) {
    status == 429 || status == 408 || status == 404 || status == 405 || status >= 500
  }

  predicate HasPrefix(s: string, prefix: string) {
    prefix <= s
  }

  predicate RetryStatusForRoute(path: string, status: int) {
    var lower := Lower(path);
    if HasPrefix(lower, "/v1/ai/image/") || HasPrefix(lower, "/v1/ai/process/") || HasPrefix(lower, "/v1/i2i/")
       || HasPrefix(lower, "/v1/download/") || HasPrefix(lower, "/v1/islamic/")
    then RetryStatus(status) || status == 400 || status == 403
    else RetryStatus(status)
  }

  // ----- One request -----

  /** How calling a provider ends: with an error, perhaps an exceeded deadline, or with a reply. */
  datatype Attempt = Error(timeout: bool) | Reply(status: int)

  /** What surrounds one chain position: other requests' breaker calls before the admission check and during
      the attempt, the clock at the check and after the attempt, and the attempt itself. */
  datatype Turn = Turn(before: seq<Op>, allowAt: int, attempt: Attempt, during: seq<Op>, doneAt: int)

  /** What became of one chain position. */
  datatype Visit = Refused | Errored(timeout: bool) | Retried | Answered(status: int)

  function Judge(path: string, attempt: Attempt): Visit {
    match attempt
    case Error(timeout) => Errored(timeout)
    case Reply(status) =>
      if 200 <= status < 300 then Answered(status)
      else if RetryStatusForRoute(path, status) then Retried
      else Answered(status)
  }

  /** The reply of the first provider that answered, or the failure of the whole chain. */
  datatype Result = Response(status: int, provider: string, fallbackChain: seq<string>) | AllFailed(timeout: bool)

  /** The status the caller sees when every provider failed. */
  function FailureStatus(timeout: bool): int {
    if timeout then 504 else 502
  }

  /** The breaker calls made around one position, its own and the others', in order. */
  function OpsAt(name: string, t: Turn, v: Visit): seq<Op> {
    t.before + [Op(name, Allow(t.allowAt))]
    + match v
      case Refused => []
      case Answered(_) => t.during + [Op(name, Success)]
      case _ => t.during + [Op(name, Failure(t.doneAt))]
  }

  function OpsOf(chain: seq<string>, turns: seq<Turn>, visits: seq<Visit>): seq<Op>
    requires |visits| <= |chain| == |turns|
  {
    if visits == [] then []
    else
      var n := |visits| - 1;
      OpsOf(chain, turns, visits[..n]) + OpsAt(chain[n], turns[n], visits[n])
  }

  /** Position `i` was admitted exactly when the breaker, after all calls before it, does not refuse. */
  ghost predicate FollowsBreaker(cfg: Config, start: Board, path: string, chain: seq<string>, turns: seq<Turn>,
                                 visits: seq<Visit>, i: nat)
    requires |visits| <= |chain| == |turns| && i < |visits|
  {
    var board := ApplyOps(cfg, ApplyOps(cfg, start, OpsOf(chain, turns, visits[..i])), turns[i].before);
    visits[i] == if Refuses(StateOf(board, chain[i]), turns[i].allowAt) then Refused else Judge(path, turns[i].attempt)
  }

  /** The visits of a request: each follows the breaker, only the last answers, and without an answer the
      whole chain is visited. */
  ghost predicate IsRun(cfg: Config, start: Board, path: string, chain: seq<string>, turns: seq<Turn>,
                        visits: seq<Visit>) {
    && |visits| <= |chain| == |turns|
    && (forall i :: 0 <= i < |visits| ==> FollowsBreaker(cfg, start, path, chain, turns, visits, i))
    && (forall i :: 0 <= i < |visits| - 1 ==> !visits[i].Answered?)
    && (visits == [] || !visits[|visits| - 1].Answered? ==> |visits| == |chain|)
  }

  /** Lets other requests call the breaker. */
  method Interfere(breaker: CircuitBreaker, ops: seq<Op>)
    modifies breaker
    ensures breaker.state == ApplyOps(breaker.cfg, old(breaker.state), ops)
  {
    for i := 0 to |ops|
      invariant breaker.state == ApplyOps(breaker.cfg, old(breaker.state), ops[..i])
    {
      assert ops[..i + 1][..i] == ops[..i];
      match ops[i].event
      case Allow(now) => var _ := breaker.Allow(ops[i].name, now);
      case Success => breaker.Success(ops[i].name);
      case Failure(now) => breaker.Failure(ops[i].name, now);
    }
    assert ops[..|ops|] == ops;
  }

  lemma {:induction false} ApplyConcat(cfg: Config, board: Board, a: seq<Op>, b: seq<Op>)
    ensures ApplyOps(cfg, board, a + b) == ApplyOps(cfg, ApplyOps(cfg, board, a), b)
  {
    if b == [] {
      assert a + b == a;
    } else {
      ApplyConcat(cfg, board, a, b[..|b| - 1]);
      assert (a + b)[..|a + b| - 1] == a + b[..|b| - 1];
    }
  }

  lemma ApplyOne(cfg: Config, board: Board, op: Op)
    ensures ApplyOps(cfg, board, [op]) == ApplyOp(cfg, board, op)
  {
    assert [op][..0] == [];
    assert ApplyOps(cfg, board, []) == board;
  }

  function OutcomeOf(t: Turn, v: Visit): Event {
    if v.Answered? then Success else Failure(t.doneAt)
  }

  /** The calls around one position, applied one group after the other. */
  lemma {:induction false} AppliedOpsAt(cfg: Config, start: Board, name: string, t: Turn, v: Visit)
    ensures var checked := ApplyOp(cfg, ApplyOps(cfg, start, t.before), Op(name, Allow(t.allowAt)));
            ApplyOps(cfg, start, OpsAt(name, t, v))
            == if v.Refused? then checked
               else ApplyOp(cfg, ApplyOps(cfg, checked, t.during), Op(name, OutcomeOf(t, v)))
  {
    var check, last := [Op(name, Allow(t.allowAt))], [Op(name, OutcomeOf(t, v))];
    ApplyConcat(cfg, start, t.before, check);
    ApplyOne(cfg, ApplyOps(cfg, start, t.before), check[0]);
    if v.Refused? {
      assert OpsAt(name, t, v) == t.before + check;
    } else {
      assert OpsAt(name, t, v) == t.before + check + (t.during + last);
      var checked := ApplyOps(cfg, start, t.before + check);
      ApplyConcat(cfg, start, t.before + check, t.during + last);
      ApplyConcat(cfg, checked, t.during, last);
      ApplyOne(cfg, ApplyOps(cfg, checked, t.during), last[0]);
    }
  }

  /** Visits one position of the chain. */
  method VisitProvider(breaker: CircuitBreaker, path: string, name: string, t: Turn) returns (v: Visit)
    modifies breaker
    ensures v == if Refuses(StateOf(ApplyOps(breaker.cfg, old(breaker.state), t.before), name), t.allowAt) then Refused
                 else Judge(path, t.attempt)
    ensures breaker.state == ApplyOps(breaker.cfg, old(breaker.state), OpsAt(name, t, v))
  {
    ghost var start := breaker.state;
    Interfere(breaker, t.before);
    var ok := breaker.Allow(name, t.allowAt);
    if !ok {
      AppliedOpsAt(breaker.cfg, start, name, t, Refused);
      return Refused;
    }
    Interfere(breaker, t.during);
    var failed := t.attempt.Error?;
    if !failed {
      var status := t.attempt.status;
      failed := !(200 <= status < 300) && RetryStatusForRoute(path, status);
    }
    if failed {
      breaker.Failure(name, t.doneAt);
      v := if t.attempt.Error? then Errored(t.attempt.timeout) else Retried;
    } else {
      breaker.Success(name);
      v := Answered(t.attempt.status);
    }
    AppliedOpsAt(breaker.cfg, start, name, t, v);
  }

  /** All visits so far follow the breaker. */
  ghost predicate AllFollow(cfg: Config, start: Board, path: string, chain: seq<string>, turns: seq<Turn>,
                            visits: seq<Visit>) {
    && |visits| <= |chain| == |turns|
    && forall i :: 0 <= i < |visits| ==> FollowsBreaker(cfg, start, path, chain, turns, visits, i)
  }

  lemma OneMoreFollows(cfg: Config, start: Board, path: string, chain: seq<string>, turns: seq<Turn>,
                       visits: seq<Visit>, v: Visit)
    requires AllFollow(cfg, start, path, chain, turns, visits) && |visits| < |chain|
    requires var i, board := |visits|, ApplyOps(cfg, start, OpsOf(chain, turns, visits));
             v == if Refuses(StateOf(ApplyOps(cfg, board, turns[i].before), chain[i]), turns[i].allowAt) then Refused
                  else Judge(path, turns[i].attempt)
    ensures AllFollow(cfg, start, path, chain, turns, visits + [v])
    ensures ApplyOps(cfg, start, OpsOf(chain, turns, visits + [v]))
            == ApplyOps(cfg, ApplyOps(cfg, start, OpsOf(chain, turns, visits)),
                        OpsAt(chain[|visits|], turns[|visits|], v))
  {
    assert (visits + [v])[..|visits|] == visits;
    forall j | 0 <= j < |visits|
      ensures FollowsBreaker(cfg, start, path, chain, turns, visits + [v], j)
    {
      assert (visits + [v])[..j] == visits[..j];
      assert FollowsBreaker(cfg, start, path, chain, turns, visits, j);
    }
    ApplyConcat(cfg, start, OpsOf(chain, turns, visits), OpsAt(chain[|visits|], turns[|visits|], v));
  }

  function ResultOf(chain: seq<string>, visits: seq<Visit>): Result
    requires |visits| <= |chain|
  {
    if visits != [] && visits[|visits| - 1].Answered? then
      Response(visits[|visits| - 1].status, chain[|visits| - 1], chain[..|visits|])
    else AllFailed(Errored(true) in visits)
  }

  ghost predicate NoneAnswered(visits: seq<Visit>) {
    forall i :: 0 <= i < |visits| ==> !visits[i].Answered?
  }

  /** A visit that answers completes the run. */
  lemma AnswerCompletes(cfg: Config, start: Board, path: string, chain: seq<string>, turns: seq<Turn>,
                        visits: seq<Visit>, v: Visit)
    requires AllFollow(cfg, start, path, chain, turns, visits + [v]) && NoneAnswered(visits) && v.Answered?
    ensures IsRun(cfg, start, path, chain, turns, visits + [v])
    ensures ResultOf(chain, visits + [v]) == Response(v.status, chain[|visits|], chain[..|visits| + 1])
  {
  }

  /** What the loop knows before visiting position `i`: the attempts, the visits and whether one timed out. */
  ghost predicate IsUnderway(cfg: Config, start: Board, board: Board, path: string, chain: seq<string>,
                             turns: seq<Turn>, visits: seq<Visit>, attempted: seq<string>, timedOut: bool) {
    && AllFollow(cfg, start, path, chain, turns, visits) && NoneAnswered(visits)
    && board == ApplyOps(cfg, start, OpsOf(chain, turns, visits))
    && attempted == chain[..|visits|]
    && (timedOut <==> Errored(true) in visits)
  }

  lemma OneMoreUnderway(cfg: Config, start: Board, board: Board, path: string, chain: seq<string>, turns: seq<Turn>,
                        visits: seq<Visit>, attempted: seq<string>, timedOut: bool, v: Visit,
                        board': Board, attempted': seq<string>, timedOut': bool)
    requires IsUnderway(cfg, start, board, path, chain, turns, visits, attempted, timedOut)
    requires |visits| < |chain| && AllFollow(cfg, start, path, chain, turns, visits + [v]) && !v.Answered?
    requires board' == ApplyOps(cfg, start, OpsOf(chain, turns, visits + [v]))
    requires attempted' == attempted + [chain[|visits|]] && timedOut' == (timedOut || v == Errored(true))
    ensures IsUnderway(cfg, start, board', path, chain, turns, visits + [v], attempted', timedOut')
  {
  }

  lemma AllVisited(cfg: Config, start: Board, board: Board, path: string, chain: seq<string>, turns: seq<Turn>,
                   visits: seq<Visit>, attempted: seq<string>, timedOut: bool)
    requires IsUnderway(cfg, start, board, path, chain, turns, visits, attempted, timedOut) && |visits| == |chain|
    ensures IsRun(cfg, start, path, chain, turns, visits) && ResultOf(chain, visits) == AllFailed(timedOut)
  {
  }

  /** Visits the next position of the chain. */
  method VisitNext(breaker: CircuitBreaker, path: string, chain: seq<string>, turns: seq<Turn>, i: nat,
                   ghost start: Board, ghost visits: seq<Visit>) returns (v: Visit)
    requires i == |visits| < |chain| && AllFollow(breaker.cfg, start, path, chain, turns, visits)
    requires breaker.state == ApplyOps(breaker.cfg, start, OpsOf(chain, turns, visits))
    modifies breaker
    ensures AllFollow(breaker.cfg, start, path, chain, turns, visits + [v])
    ensures breaker.state == ApplyOps(breaker.cfg, start, OpsOf(chain, turns, visits + [v]))
  {
    v := VisitProvider(breaker, path, chain[i], turns[i]);
    OneMoreFollows(breaker.cfg, start, path, chain, turns, visits, v);
  }

  /** Tries the chain in order. `attempted` is the visited prefix of the chain, the answer is the last visit's,
      and the breaker has seen exactly the calls of the visits. */
  method ProxyWithFallback(breaker: CircuitBreaker, path: string, chain: seq<string>, turns: seq<Turn>)
    returns (r: Result, attempted: seq<string>, ghost visits: seq<Visit>)
    requires |turns| == |chain|
    modifies breaker
    ensures IsRun(breaker.cfg, old(breaker.state), path, chain, turns, visits)
    ensures attempted == chain[..|visits|]
    ensures breaker.state == ApplyOps(breaker.cfg, old(breaker.state), OpsOf(chain, turns, visits))
    ensures r == ResultOf(chain, visits)
  {
    ghost var cfg, start := breaker.cfg, breaker.state;
    attempted, visits := [], [];
    var timedOut := false;
    for i := 0 to |chain|
      invariant |visits| == i && IsUnderway(cfg, start, breaker.state, path, chain, turns, visits, attempted, timedOut)
    {
      ghost var board, attempted0, timedOut0 := breaker.state, attempted, timedOut;
      var v := VisitNext(breaker, path, chain, turns, i, start, visits);
      attempted := attempted + [chain[i]];
      if v.Answered? {
        AnswerCompletes(cfg, start, path, chain, turns, visits, v);
        visits := visits + [v];
        r := Response(v.status, chain[i], attempted);
        return;
      }
      if v == Errored(true) {
        timedOut := true;
      }
      OneMoreUnderway(cfg, start, board, path, chain, turns, visits, attempted0, timedOut0, v,
                      breaker.state, attempted, timedOut);
      visits := visits + [v];
    }
    AllVisited(cfg, start, breaker.state, path, chain, turns, visits, attempted, timedOut);
    r := AllFailed(timedOut);
  }

  // ----- What the caller gets -----

  /** The attempt at position `i` was made and its outcome sends the request on to the next provider. */
  predicate Retryable(path: string, a: Attempt) {
    a.Error? || (!(200 <= a.status < 300) && RetryStatusForRoute(path, a.status))
  }

  /** A response comes from the first admitted provider whose reply is not retryable: every earlier one was
      refused or failed retryably. A failure means the whole chain was tried that way, and it shows as 504 if
      and only if some admitted attempt timed out. */
  lemma FirstAdmittedAnswer(cfg: Config, start: Board, path: string, chain: seq<string>, turns: seq<Turn>,
                            visits: seq<Visit>)
    requires IsRun(cfg, start, path, chain, turns, visits)
    ensures match ResultOf(chain, visits)
            case Response(status, provider, fallbackChain) =>
              && var k := |visits| - 1;
              && provider == chain[k] && fallbackChain == chain[..k + 1]
              && turns[k].attempt == Reply(status) && !Retryable(path, turns[k].attempt) && !visits[k].Refused?
              && forall i :: 0 <= i < k ==> visits[i].Refused? || Retryable(path, turns[i].attempt)
            case AllFailed(timeout) =>
              && |visits| == |chain|
              && (forall i :: 0 <= i < |chain| ==> visits[i].Refused? || Retryable(path, turns[i].attempt))
              && (FailureStatus(timeout) == 504 || FailureStatus(timeout) == 502)
              && (FailureStatus(timeout) == 504
                  <==> exists i :: 0 <= i < |chain| && !visits[i].Refused? && turns[i].attempt == Error(true))
  {
    forall i | 0 <= i < |visits|
      ensures visits[i].Refused? || visits[i] == Judge(path, turns[i].attempt)
    {
      assert FollowsBreaker(cfg, start, path, chain, turns, visits, i);
    }
    assert forall i :: 0 <= i < |visits| ==> visits[i] in visits;
  }

  /** What the request itself reports about a provider: the admission check, and for an admitted provider
      one Success if it answers and one Failure if it is passed over. */
  function OwnEvents(t: Turn, v: Visit): seq<Event> {
    [Event.Allow(t.allowAt)]
    + if v.Refused? then [] else if v.Answered? then [Event.Success] else [Event.Failure(t.doneAt)]
  }

  /** The own events of all visited positions of one provider, in order. */
  function AllOwnEvents(chain: seq<string>, turns: seq<Turn>, visits: seq<Visit>, name: string): seq<Event>
    requires |visits| <= |chain| == |turns|
  {
    if visits == [] then []
    else
      var n := |visits| - 1;
      AllOwnEvents(chain, turns, visits[..n], name) + if chain[n] == name then OwnEvents(turns[n], visits[n]) else []
  }

  /** What other requests reported about a provider around one position: before the admission check and,
      when the request was admitted, during its attempt. */
  function OtherEvents(t: Turn, v: Visit, name: string): seq<Event> {
    EventsOf(t.before, name) + if v.Refused? then [] else EventsOf(t.during, name)
  }

  function AllOtherEvents(turns: seq<Turn>, visits: seq<Visit>, name: string): seq<Event>
    requires |visits| <= |turns|
  {
    if visits == [] then []
    else
      var n := |visits| - 1;
      AllOtherEvents(turns, visits[..n], name) + OtherEvents(turns[n], visits[n], name)
  }

  /** Whatever other requests do to the shared breaker meanwhile, it sees of each provider exactly the calls of
      the others and the request's own ones: an admission check at every visited position of the provider, one
      failure if it is passed over there, one success if it answers, and nothing more if it is refused. */
  lemma {:induction false} OwnCallsOfRequest(chain: seq<string>, turns: seq<Turn>, visits: seq<Visit>, name: string)
    requires |visits| <= |chain| == |turns|
    ensures multiset(EventsOf(OpsOf(chain, turns, visits), name))
            == multiset(AllOwnEvents(chain, turns, visits, name)) + multiset(AllOtherEvents(turns, visits, name))
  {
    if visits == [] {
    } else {
      var n := |visits| - 1;
      OwnCallsOfRequest(chain, turns, visits[..n], name);
      EventsOfConcat(OpsOf(chain, turns, visits[..n]), OpsAt(chain[n], turns[n], visits[n]), name);
      EventsAt(chain[n], turns[n], visits[n], name);
    }
  }

  lemma EventsOfOne(provider: string, e: Event, name: string)
    ensures EventsOf([Op(provider, e)], name) == if provider == name then [e] else []
  {
    assert [Op(provider, e)][..0] == [];
  }

  /** The calls around an admitted position, in order. */
  lemma {:induction false} EventsAtAdmitted(provider: string, t: Turn, outcome: Event, name: string)
    ensures EventsOf(t.before + [Op(provider, Allow(t.allowAt))] + (t.during + [Op(provider, outcome)]), name)
            == EventsOf(t.before, name) + (if provider == name then [Event.Allow(t.allowAt)] else [])
               + (EventsOf(t.during, name) + if provider == name then [outcome] else [])
  {
    var check, last := [Op(provider, Allow(t.allowAt))], [Op(provider, outcome)];
    EventsOfConcat(t.before + check, t.during + last, name);
    EventsOfConcat(t.before, check, name);
    EventsOfConcat(t.during, last, name);
    EventsOfOne(provider, Allow(t.allowAt), name);
    EventsOfOne(provider, outcome, name);
  }

  lemma Regroup<T>(a: seq<T>, b: seq<T>, c: seq<T>, d: seq<T>)
    ensures multiset(a + b + (c + d)) == multiset(b + d) + multiset(a + c)
  {
  }

  lemma {:induction false} EventsAt(provider: string, t: Turn, v: Visit, name: string)
    ensures multiset(EventsOf(OpsAt(provider, t, v), name))
            == multiset(if provider == name then OwnEvents(t, v) else []) + multiset(OtherEvents(t, v, name))
  {
    var none: seq<Event> := [];
    var check := if provider == name then [Event.Allow(t.allowAt)] else none;
    if v.Refused? {
      var ops := [Op(provider, Allow(t.allowAt))];
      assert OpsAt(provider, t, v) == t.before + ops;
      EventsOfConcat(t.before, ops, name);
      EventsOfOne(provider, Allow(t.allowAt), name);
      Regroup(EventsOf(t.before, name), check, [], []);
    } else {
      var outcome := if v.Answered? then Success else Failure(t.doneAt);
      var last := if provider == name then [outcome] else none;
      assert OpsAt(provider, t, v)
                   == t.before + [Op(provider, Allow(t.allowAt))] + (t.during + [Op(provider, outcome)]);
      EventsAtAdmitted(provider, t, outcome, name);
      Regroup(EventsOf(t.before, name), check, EventsOf(t.during, name), last);
      assert check + last == if provider == name then OwnEvents(t, v) else [];
    }
  }

  // ----- Which attempts are passed over -----

  /** The routes on which a refused request is retried as well. */
  predicate IsGenerous(path: string) {
    var lower := Lower(path);
    || "/v1/ai/image/" <= lower || "/v1/ai/process/" <= lower || "/v1/i2i/" <= lower || "/v1/download/" <= lower
    || "/v1/islamic/" <= lower
  }

  /** An admitted provider answers for the request unless it errs or replies with a status to retry: not found, wrong
      method, a timeout, too many requests or a server error, on some routes also a bad or forbidden request. */
  lemma AnswersIff(path: string, attempt: Attempt)
    ensures Judge(path, attempt).Answered? <==>
            && attempt.Reply?
            && attempt.status !in {404, 405, 408, 429} && attempt.status < 500
            && !(IsGenerous(path) && attempt.status in {400, 403})
    ensures Judge(path, attempt).Answered? ==> Judge(path, attempt).status == attempt.status
    ensures Judge(path, attempt) == Errored(true) <==> attempt == Error(true)
    ensures !Judge(path, attempt).Refused?
  {
  }
}
