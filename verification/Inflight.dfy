/** The AI router's in-flight lock, as steps that concurrent calls interleave, and its loop over providers
    (engine/agent/router.go). */
module Inflight {
  import opened Text
  import opened Writes

  // ----- The loop over providers -----

  /** How asking one provider ends. */
  datatype Outcome = Response(text: string) | Retryable | Fatal

  datatype Provider = Provider(name: string, outcome: Outcome)

  /** What a call returns; `tried` names the providers whose errors are joined. */
  datatype Reply = Answer(text: string) | ProvidersFailed(tried: seq<string>) | Duplicate | LockError | BadRequest

  ghost predicate Skipped(providers: seq<Provider>, n: nat) {
    n <= |providers| && forall j :: 0 <= j < n ==> providers[j].outcome.Retryable?
  }

  function Names(providers: seq<Provider>): (names: seq<string>)
    ensures |names| == |providers| && forall i :: 0 <= i < |names| ==> names[i] == providers[i].name
  {
    seq(|providers|, i requires 0 <= i < |providers| => providers[i].name)
  }

  /** The reply is settled by the first provider that does not fail retryably: its answer, or the errors up
      to and including its own; without one, all errors. */
  ghost predicate IsReply(providers: seq<Provider>, r: Reply) {
    || (exists i :: 0 <= i < |providers| && Skipped(providers, i) && providers[i].outcome.Response?
                   && r == Answer(providers[i].outcome.text))
    || (exists i :: 0 <= i < |providers| && Skipped(providers, i) && providers[i].outcome.Fatal?
                    && r == ProvidersFailed(Names(providers[..i + 1])))
    || (Skipped(providers, |providers|) && r == ProvidersFailed(Names(providers)))
  }

  method AskProviders(providers: seq<Provider>) returns (r: Reply)
    ensures IsReply(providers, r)
  {
    var errs: seq<string> := [];
    for i := 0 to |providers|
      invariant Skipped(providers, i) && errs == Names(providers[..i])
    {
      match providers[i].outcome
      case Response(text) => return Answer(text);
      case Retryable =>
        errs := errs + [providers[i].name];
        assert errs == Names(providers[..i + 1]);
      case Fatal =>
        errs := errs + [providers[i].name];
        assert errs == Names(providers[..i + 1]);
        return ProvidersFailed(errs);
    }
    assert providers[..|providers|] == providers;
    return ProvidersFailed(errs);
  }

  /** A settling provider is unique, so the reply is determined; an answer comes from the first provider to
      succeed, all earlier ones having failed retryably. */
  lemma ReplyDetermined(providers: seq<Provider>, r: Reply, i: nat)
    requires IsReply(providers, r) && i < |providers| && Skipped(providers, i) && !providers[i].outcome.Retryable?
    ensures r == if providers[i].outcome.Response? then Answer(providers[i].outcome.text)
                 else ProvidersFailed(Names(providers[..i + 1]))
  {
    assert forall j :: 0 <= j < |providers| && j != i && Skipped(providers, j) ==> j < i;
  }

  // ----- The lock store -----

  /** A lock and when it expires. The store holds the constant 1 as its value; `owner` records which call
      set it and no operation reads it. */
  datatype Lock = Lock(expiresAt: int, owner: nat)

  type Locks = map<string, Lock>

  predicate Free(locks: Locks, key: string, now: int) {
    key !in locks || locks[key].expiresAt <= now
  }

  function SetNX(locks: Locks, key: string, now: int, ttl: int, owner: nat, d: Delivery): Locks {
    if Free(locks, key, now) && TakesEffect(d) then locks[key := Lock(now + ttl, owner)] else locks
  }

  function Del(locks: Locks, key: string, works: bool): Locks {
    if works then locks - {key} else locks
  }

  function LockKey(resource: string): string {
    "inflight:ai:" + resource
  }

  // ----- Interleaved calls -----

  datatype Call = Call(key: string, since: int)

  /** The locks, the calls that hold the right to proceed, and the calls ever started. */
  datatype State = State(locks: Locks, inFlight: map<nat, Call>, started: set<nat>)

  const INITIAL := State(map[], map[], {})

  /** The two steps of a call that touch the store. */
  datatype Event = Start(id: nat, key: string, at: int, d: Delivery) | Finish(id: nat, at: int, deleted: bool)

  predicate Enabled(s: State, e: Event) {
    match e
    case Start(id, _, _, _) => id !in s.started
    case Finish(id, _, _) => id in s.inFlight
  }

  /** A start proceeds when its reply arrives and the key was free. */
  predicate Proceeds(s: State, e: Event) {
    e.Start? && e.d.Delivered? && Free(s.locks, e.key, e.at)
  }

  function Apply(ttl: int, s: State, e: Event): State
    requires Enabled(s, e)
  {
    match e
    case Start(id, key, at, d) =>
      State(SetNX(s.locks, key, at, ttl, id, d),
            if Proceeds(s, e) then s.inFlight[id := Call(key, at)] else s.inFlight, s.started + {id})
    case Finish(id, _, deleted) =>
      State(Del(s.locks, s.inFlight[id].key, deleted), s.inFlight - {id}, s.started)
  }

  ghost predicate Step(ttl: int, before: State, after: State, e: Event) {
    Enabled(before, e) && after == Apply(ttl, before, e)
  }

  /** An interleaving of calls on a clock that does not go back. */
  ghost predicate IsRun(ttl: int, states: seq<State>, events: seq<Event>) {
    && |states| == |events| + 1 && states[0] == INITIAL
    && (forall i :: 0 <= i < |events| ==> Step(ttl, states[i], states[i + 1], events[i]))
    && (forall i, j :: 0 <= i < j < |events| ==> events[i].at <= events[j].at)
  }

  /** No start that reaches the store finds a call for its key in flight that is as old as the time to live. */
  ghost predicate Uncontested(ttl: int, s: State, e: Event) {
    e.Start? && TakesEffect(e.d) ==>
      forall id :: id in s.inFlight && s.inFlight[id].key == e.key ==> e.at < s.inFlight[id].since + ttl
  }

  /** The first `n` events are uncontested. */
  ghost predicate UncontestedUpTo(ttl: int, states: seq<State>, events: seq<Event>, n: nat)
    requires |states| == |events| + 1 && n <= |events|
  {
    forall i :: 0 <= i < n ==> Uncontested(ttl, states[i], events[i])
  }

  /** Each call in flight holds its lock. */
  ghost predicate Held(ttl: int, s: State) {
    forall id :: id in s.inFlight ==> HoldsLock(ttl, s, id)
  }

  predicate HoldsLock(ttl: int, s: State, id: nat)
    requires id in s.inFlight
  {
    var c := s.inFlight[id];
    id in s.started && c.key in s.locks && s.locks[c.key] == Lock(c.since + ttl, id)
  }

  /** At most one call per key is in flight. */
  ghost predicate Exclusive(s: State) {
    forall id, other :: id in s.inFlight && other in s.inFlight && s.inFlight[id].key == s.inFlight[other].key
                        ==> id == other
  }

  lemma StepKeepsHeld(ttl: int, before: State, after: State, e: Event)
    requires Held(ttl, before) && Uncontested(ttl, before, e) && Step(ttl, before, after, e)
    ensures Held(ttl, after)
  {
    forall id | id in after.inFlight
      ensures HoldsLock(ttl, after, id)
    {
      if id in before.inFlight {
        assert HoldsLock(ttl, before, id);
        if e.Finish? {
          assert HoldsLock(ttl, before, e.id);
        }
      }
    }
  }

  /** As long as no event is contested, every call in flight holds its lock, however late calls finish. */
  lemma {:induction false} AlwaysHeld(ttl: int, states: seq<State>, events: seq<Event>, n: nat)
    requires IsRun(ttl, states, events) && n <= |events| && UncontestedUpTo(ttl, states, events, n)
    ensures Held(ttl, states[n])
  {
    if n == 0 {
    } else {
      AlwaysHeld(ttl, states, events, n - 1);
      assert Uncontested(ttl, states[n - 1], events[n - 1]);
      StepKeepsHeld(ttl, states[n - 1], states[n], events[n - 1]);
    }
  }

  lemma HeldIsExclusive(ttl: int, s: State)
    requires Held(ttl, s)
    ensures Exclusive(s)
  {
    forall id, other | id in s.inFlight && other in s.inFlight && s.inFlight[id].key == s.inFlight[other].key
      ensures id == other
    {
      assert HoldsLock(ttl, s, id) && HoldsLock(ttl, s, other);
    }
  }

  /** As long as no event is contested, at most one call per resource is ever in flight. */
  lemma AtMostOneInFlight(ttl: int, states: seq<State>, events: seq<Event>, n: nat)
    requires IsRun(ttl, states, events) && n <= |events| && UncontestedUpTo(ttl, states, events, n)
    ensures Exclusive(states[n])
  {
    AlwaysHeld(ttl, states, events, n);
    HeldIsExclusive(ttl, states[n]);
  }

  /** So it is when every call finishes within the time to live. */
  lemma OnTimeIsUncontested(ttl: int, states: seq<State>, events: seq<Event>, n: nat)
    requires IsRun(ttl, states, events) && n <= |events|
    requires forall i, id :: 0 <= i < n && id in states[i].inFlight ==>
                               events[i].at < states[i].inFlight[id].since + ttl
    ensures UncontestedUpTo(ttl, states, events, n) && Exclusive(states[n])
  {
    AtMostOneInFlight(ttl, states, events, n);
  }

  /** Then a release deletes the caller's own lock and no other; that lock is still unexpired if and only if the
      call is younger than the time to live. */
  lemma ReleasesOwnLock(ttl: int, states: seq<State>, events: seq<Event>, n: nat)
    requires IsRun(ttl, states, events) && n < |events| && UncontestedUpTo(ttl, states, events, n) && events[n].Finish?
    ensures events[n].id in states[n].inFlight
    ensures var e, locks := events[n], states[n].locks;
            var key := states[n].inFlight[e.id].key;
            && key in locks && locks[key].owner == e.id
            && (e.at < locks[key].expiresAt <==> e.at < states[n].inFlight[e.id].since + ttl)
            && states[n + 1].locks == (if e.deleted then map k | k in locks && k != key :: locks[k] else locks)
  {
    AlwaysHeld(ttl, states, events, n);
    assert Step(ttl, states[n], states[n + 1], events[n]);
    assert HoldsLock(ttl, states[n], events[n].id);
  }

  /** After any uncontested events, a start on the resource of a call in flight proceeds exactly when its reply
      arrives and that call has outlived the time to live. */
  lemma SecondStartProceedsIff(ttl: int, states: seq<State>, events: seq<Event>, n: nat, id: nat)
    requires IsRun(ttl, states, events) && n < |events| && UncontestedUpTo(ttl, states, events, n)
    requires id in states[n].inFlight && events[n].Start? && events[n].key == states[n].inFlight[id].key
    ensures Proceeds(states[n], events[n])
            <==> events[n].d.Delivered? && events[n].at >= states[n].inFlight[id].since + ttl
  {
    AlwaysHeld(ttl, states, events, n);
    assert HoldsLock(ttl, states[n], id);
  }

  /** A contested start whose reply arrives makes two calls in flight for one key. */
  lemma ContestedBreaks(ttl: int, before: State, after: State, e: Event)
    requires Held(ttl, before) && Step(ttl, before, after, e) && !Uncontested(ttl, before, e) && e.d.Delivered?
    ensures !Exclusive(after)
  {
    var id :| id in before.inFlight && before.inFlight[id].key == e.key && e.at >= before.inFlight[id].since + ttl;
    assert HoldsLock(ttl, before, id);
    assert id in after.inFlight && e.id in after.inFlight && id != e.id;
    assert after.inFlight[id].key == after.inFlight[e.id].key;
  }

  lemma {:induction false} FirstContested(ttl: int, states: seq<State>, events: seq<Event>, n: nat) returns (m: nat)
    requires IsRun(ttl, states, events) && n <= |events| && !UncontestedUpTo(ttl, states, events, n)
    ensures m < n && UncontestedUpTo(ttl, states, events, m) && !Uncontested(ttl, states[m], events[m])
  {
    if UncontestedUpTo(ttl, states, events, n - 1) {
      m := n - 1;
    } else {
      m := FirstContested(ttl, states, events, n - 1);
    }
  }

  /** Exclusion holds in every state of a run if and only if no event is contested, unless some start's reply is
      lost after it took effect. */
  lemma ExclusiveIffUncontested(ttl: int, states: seq<State>, events: seq<Event>)
    requires IsRun(ttl, states, events)
    requires forall i :: 0 <= i < |events| && events[i].Start? ==> !events[i].d.LostAfter?
    ensures (forall n :: 0 <= n <= |events| ==> Exclusive(states[n]))
            <==> UncontestedUpTo(ttl, states, events, |events|)
  {
    if UncontestedUpTo(ttl, states, events, |events|) {
      forall n | 0 <= n <= |events|
        ensures Exclusive(states[n])
      {
        AtMostOneInFlight(ttl, states, events, n);
      }
    } else {
      var m := FirstContested(ttl, states, events, |events|);
      AlwaysHeld(ttl, states, events, m);
      ContestedBreaks(ttl, states[m], states[m + 1], events[m]);
    }
  }

  /** The exception is needed: a contested start whose reply is lost takes the late call's lock over and joins
      nobody. */
  lemma LostReplyJoinsNobody(ttl: int, key: string) returns (states: seq<State>, events: seq<Event>)
    requires ttl > 0
    ensures IsRun(ttl, states, events) && |events| == 2 && events[1] == Start(1, key, ttl, LostAfter)
    ensures !Uncontested(ttl, states[1], events[1])
    ensures forall n :: 0 <= n <= 2 ==> Exclusive(states[n])
  {
    events := [Start(0, key, 0, Delivered), Start(1, key, ttl, LostAfter)];
    var s1 := Apply(ttl, INITIAL, events[0]);
    states := [INITIAL, s1, Apply(ttl, s1, events[1])];
    assert 0 in s1.inFlight;
  }

  /** A contested start makes the lock fail twice over: a call that outlives its lock runs beside the next one, and by
      releasing deletes that one's lock, so a third call joins as well. */
  lemma LateCallBreaksExclusion(ttl: int, key: string) returns (states: seq<State>, events: seq<Event>)
    requires ttl > 0
    ensures IsRun(ttl, states, events) && |events| == 4
    ensures states[2].inFlight == map[0 := Call(key, 0), 1 := Call(key, ttl)]
    ensures events[2] == Finish(0, ttl, true) && states[2].locks == map[key := Lock(2 * ttl, 1)]
    ensures states[3].locks == map[]
    ensures states[4].inFlight == map[1 := Call(key, ttl), 2 := Call(key, ttl)]
  {
    events := [Start(0, key, 0, Delivered), Start(1, key, ttl, Delivered), Finish(0, ttl, true),
               Start(2, key, ttl, Delivered)];
    var s1 := Apply(ttl, INITIAL, events[0]);
    var s2 := Apply(ttl, s1, events[1]);
    var s3 := Apply(ttl, s2, events[2]);
    var s4 := Apply(ttl, s3, events[3]);
    states := [INITIAL, s1, s2, s3, s4];
    assert s3.locks == map[];
  }

  /** The start that set the lock. */
  ghost predicate SetBy(ttl: int, e: Event, key: string, lock: Lock) {
    e.Start? && e.id == lock.owner && e.key == key && e.at + ttl == lock.expiresAt
  }

  lemma {:induction false} LockHasStart(ttl: int, states: seq<State>, events: seq<Event>, n: nat, key: string)
    returns (j: nat)
    requires IsRun(ttl, states, events) && n <= |events| && key in states[n].locks
    ensures j < n && SetBy(ttl, events[j], key, states[n].locks[key])
  {
    assert Step(ttl, states[n - 1], states[n], events[n - 1]);
    if key in states[n - 1].locks && states[n - 1].locks[key] == states[n].locks[key] {
      j := LockHasStart(ttl, states, events, n - 1, key);
    } else {
      j := n - 1;
    }
  }

  /** A resource is refused only while a start less than the time to live ago holds it, so a lost release or
      a lost reply blocks it no longer than that. */
  lemma RefusedOnlyByRecentStart(ttl: int, states: seq<State>, events: seq<Event>, n: nat) returns (j: nat)
    requires IsRun(ttl, states, events) && n < |events|
    requires events[n].Start? && events[n].d.Delivered? && !Proceeds(states[n], events[n])
    ensures j < n && events[j].Start? && events[j].key == events[n].key && events[n].at < events[j].at + ttl
  {
    j := LockHasStart(ttl, states, events, n, events[n].key);
  }

  // ----- One call, amid the others' steps -----

  /** The others' steps are enabled one after the other. */
  ghost predicate CanRun(ttl: int, s: State, events: seq<Event>)
    decreases |events|
  {
    events == [] || (Enabled(s, events[0]) && CanRun(ttl, Apply(ttl, s, events[0]), events[1..]))
  }

  ghost function ApplyAll(ttl: int, s: State, events: seq<Event>): State
    requires CanRun(ttl, s, events)
    decreases |events|
  {
    if events == [] then s else ApplyAll(ttl, Apply(ttl, s, events[0]), events[1..])
  }

  lemma {:induction false} OthersLeaveCall(ttl: int, s: State, events: seq<Event>, id: nat)
    requires CanRun(ttl, s, events) && id in s.inFlight && forall i :: 0 <= i < |events| ==> events[i].id != id
    ensures id in ApplyAll(ttl, s, events).inFlight && ApplyAll(ttl, s, events).inFlight[id] == s.inFlight[id]
    decreases |events|
  {
    if events == [] {
    } else {
      OthersLeaveCall(ttl, Apply(ttl, s, events[0]), events[1..], id);
    }
  }

  class AgentRouter {
    const ttl: int
    const hasLocker: bool
    var state: State

    constructor (ttl: int, hasLocker: bool)
      ensures this.ttl == ttl && this.hasLocker == hasLocker && state == INITIAL
    {
      this.ttl, this.hasLocker, state := ttl, hasLocker, INITIAL;
    }

    /** Takes the lock of the key: the reply to return instead, or none to proceed. */
    method AcquireLock(id: nat, key: string, at: int, d: Delivery) returns (refusal: Option<Reply>)
      requires id !in state.started
      modifies this
      ensures var start := Start(id, key, at, d);
              if !hasLocker then refusal == None && state == old(state)
              else state == Apply(ttl, old(state), start)
                   && refusal == if Proceeds(old(state), start) then None
                                 else if d.Delivered? then Some(Duplicate) else Some(LockError)
    {
      if !hasLocker {
        return None;
      }
      var free := Free(state.locks, key, at);
      var locks := SetNX(state.locks, key, at, ttl, id, d);
      if !d.Delivered? {
        state := State(locks, state.inFlight, state.started + {id});
        return Some(LockError);
      }
      if !free {
        state := State(locks, state.inFlight, state.started + {id});
        return Some(Duplicate);
      }
      state := State(locks, state.inFlight[id := Call(key, at)], state.started + {id});
      return None;
    }

    method ReleaseLock(id: nat, key: string, at: int, works: bool)
      requires hasLocker ==> id in state.inFlight && state.inFlight[id].key == key
      modifies this
      ensures state == if hasLocker then Apply(ttl, old(state), Finish(id, at, works)) else old(state)
    {
      if hasLocker {
        state := State(Del(state.locks, key, works), state.inFlight - {id}, state.started);
      }
    }

    /** Lets other calls take their steps. */
    method Interfere(others: seq<Event>)
      requires CanRun(ttl, state, others)
      modifies this
      ensures state == ApplyAll(ttl, old(state), others)
    {
      var rest := others;
      while rest != []
        invariant CanRun(ttl, state, rest) && ApplyAll(ttl, state, rest) == ApplyAll(ttl, old(state), others)
        decreases |rest|
      {
        state := Apply(ttl, state, rest[0]);
        rest := rest[1..];
      }
    }

    /** One call. `others` are the steps other calls take while the providers are asked. */
    method Ask(id: nat, resource: string, prompt: string, providers: seq<Provider>, at: int, d: Delivery,
               others: seq<Event>, doneAt: int, deleted: bool) returns (r: Reply)
      requires id !in state.started && forall i :: 0 <= i < |others| ==> others[i].id != id
      requires hasLocker ==> CanRun(ttl, Apply(ttl, state, Start(id, LockKey(resource), at, d)), others)
      modifies this
      ensures var start := Start(id, LockKey(resource), at, d);
              if providers == [] || resource == "" || prompt == "" then r == BadRequest && state == old(state)
              else if !hasLocker then IsReply(providers, r) && state == old(state)
              else if !Proceeds(old(state), start) then
                state == Apply(ttl, old(state), start) && r == if d.Delivered? then Duplicate else LockError
              else
                var ran := ApplyAll(ttl, Apply(ttl, old(state), start), others);
                IsReply(providers, r) && Enabled(ran, Finish(id, doneAt, deleted))
                && state == Apply(ttl, ran, Finish(id, doneAt, deleted))
    {
      if providers == [] || resource == "" || prompt == "" {
        return BadRequest;
      }
      var key := LockKey(resource);
      var refusal := AcquireLock(id, key, at, d);
      if refusal.Some? {
        return refusal.value;
      }
      if hasLocker {
        OthersLeaveCall(ttl, state, others, id);
        Interfere(others);
      }
      r := AskProviders(providers);
      ReleaseLock(id, key, doneAt, deleted);
    }
  }

  /** Distinct resources have distinct locks. */
  lemma LockKeyInjective(r: string, q: string)
    requires LockKey(r) == LockKey(q)
    ensures r == q
  {
    assert r == LockKey(r)[|"inflight:ai:"|..] && q == LockKey(q)[|"inflight:ai:"|..];
  }
}
