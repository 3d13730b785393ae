/** Subscription entitlements: the search over wallets and networks, and the plan cache in front of it
    (api/auth/subscription.go). */
module Entitlement {
  import opened Text

  // ----- What the database and the chains answer -----

  /** What one network's contract answers about a wallet. */
  datatype Check = Active | Inactive | CheckFails

  /** A configured network, by its source label, and its answer. */
  datatype Network = Network(sourceLabel: string, check: Check)

  /** A row of the wallet query, with the answers the wallet would get from each network in turn. */
  datatype WalletRow = Wallet(networks: seq<Network>) | Unscannable

  datatype Wallets = Wallets(queryFails: bool, rows: seq<WalletRow>, iterationFails: bool)

  /** Reading the user's plan override; an absent column reads as blank. */
  datatype OverrideRead = Column(text: string) | NoRow | ReadFails

  datatype Reads = Reads(planOverride: OverrideRead, wallets: Wallets)

  // ----- The search -----

  datatype Search = Found(source: string) | Nothing | SearchFails

  /** Network `j` is the first active one of the list. */
  ghost predicate FirstActive(networks: seq<Network>, j: nat) {
    && j < |networks| && networks[j].check.Active?
    && forall l :: 0 <= l < j ==> !networks[l].check.Active?
  }

  predicate SomeFails(networks: seq<Network>) {
    exists j :: 0 <= j < |networks| && networks[j].check.CheckFails?
  }

  predicate NoneActive(networks: seq<Network>) {
    forall j :: 0 <= j < |networks| ==> !networks[j].check.Active?
  }

  /** One wallet's answer: the first active network, else a failure if any network failed. */
  ghost predicate IsWalletSearch(networks: seq<Network>, r: Search) {
    match r
    case Found(source) => exists j: nat :: FirstActive(networks, j) && source == networks[j].sourceLabel
    case SearchFails => NoneActive(networks) && SomeFails(networks)
    case Nothing => NoneActive(networks) && !SomeFails(networks)
  }

  /** The multi-network checker. */
  method CheckNetworks(networks: seq<Network>) returns (r: Search)
    ensures IsWalletSearch(networks, r)
  {
    var failed := false;
    for i := 0 to |networks|
      invariant NoneActive(networks[..i]) && failed == SomeFails(networks[..i])
    {
      var network := networks[i];
      assert networks[..i + 1] == networks[..i] + [network];
      match network.check
      case CheckFails =>
        assert networks[..i + 1][i].check.CheckFails?;
        failed := true;
      case Active =>
        assert forall l :: 0 <= l < i ==> networks[l] == networks[..i][l];
        assert FirstActive(networks, i);
        return Found(network.sourceLabel);
      case Inactive =>
        assert failed ==>
                exists j :: 0 <= j < i && networks[..i + 1][j] == networks[..i][j]
                         && networks[..i][j].check.CheckFails?;
    }
    assert networks[..|networks|] == networks;
    return if failed then SearchFails else Nothing;
  }

  /** The row is a wallet that no network reports active. */
  predicate Passed(row: WalletRow) {
    row.Wallet? && NoneActive(row.networks)
  }

  predicate RowFails(row: WalletRow) {
    row.Wallet? && SomeFails(row.networks)
  }

  /** The first check of the query's rows, in row and network order, that answers active. */
  ghost predicate FirstHit(rows: seq<WalletRow>, i: nat, j: nat) {
    && i < |rows| && rows[i].Wallet? && FirstActive(rows[i].networks, j)
    && forall l :: 0 <= l < i ==> Passed(rows[l])
  }

  /** The search: the first hit, else a failure if the database or any check failed. */
  ghost predicate IsSearch(hasChecker: bool, wallets: Wallets, r: Search) {
    if wallets.queryFails then r == SearchFails
    else match r
      case Found(source) =>
        hasChecker && exists i: nat, j: nat :: FirstHit(wallets.rows, i, j)
                                               && source == wallets.rows[i].networks[j].sourceLabel
      case SearchFails =>
        && (hasChecker ==> forall i: nat, j: nat :: !FirstHit(wallets.rows, i, j))
        && ((exists i :: 0 <= i < |wallets.rows|
                         && (wallets.rows[i].Unscannable? || (hasChecker && RowFails(wallets.rows[i]))))
            || wallets.iterationFails)
      case Nothing =>
        && (forall i :: 0 <= i < |wallets.rows| ==>
              wallets.rows[i].Wallet? && (hasChecker ==> Passed(wallets.rows[i]) && !RowFails(wallets.rows[i])))
        && !wallets.iterationFails
  }

  method HasActiveSubscription(hasChecker: bool, wallets: Wallets) returns (r: Search)
    ensures IsSearch(hasChecker, wallets, r)
  {
    if wallets.queryFails {
      return SearchFails;
    }
    var failed := false;
    for i := 0 to |wallets.rows|
      invariant forall l :: 0 <= l < i ==> wallets.rows[l].Wallet? && (hasChecker ==> Passed(wallets.rows[l]))
      invariant failed <==> hasChecker && exists l :: 0 <= l < i && RowFails(wallets.rows[l])
    {
      var row := wallets.rows[i];
      if row.Unscannable? {
        return SearchFails;
      }
      if !hasChecker {
        continue;
      }
      var answer := CheckNetworks(row.networks);
      match answer
      case SearchFails => failed := true;
      case Found(source) =>
        ghost var j: nat :| FirstActive(row.networks, j) && source == row.networks[j].sourceLabel;
        assert FirstHit(wallets.rows, i, j);
        return Found(source);
      case Nothing =>
    }
    if wallets.iterationFails {
      return SearchFails;
    }
    return if failed then SearchFails else Nothing;
  }

  // ----- The rule -----

  function NormalizePlan(plan: string): string {
    if Lower(Trim(plan)) == "premium" then "premium" else "free"
  }

  datatype Error = UserRequired | OverrideFailed | SubscriptionFailed

  /** An uncached answer, and whether it is stored. */
  datatype Verdict = Verdict(plan: string, source: string, error: Option<Error>, stored: bool)

  function OverrideOf(read: OverrideRead): string {
    if read.Column? then Trim(read.text) else ""
  }

  function Judge(search: Search, overridden: string, fallback: string): Verdict {
    match search
    case Found(source) => Verdict("premium", if source == "" then "onchain" else source, None, true)
    case _ =>
      if overridden != "" then Verdict(NormalizePlan(overridden), "override", None, true)
      else Verdict(NormalizePlan(fallback), "fallback",
                   if search.SearchFails? then Some(SubscriptionFailed) else None, true)
  }

  ghost predicate IsVerdict(hasChecker: bool, seen: Reads, fallback: string, v: Verdict) {
    if seen.planOverride.ReadFails? then v == Verdict(NormalizePlan(fallback), "fallback", Some(OverrideFailed), false)
    else exists search :: IsSearch(hasChecker, seen.wallets, search)
                          && v == Judge(search, OverrideOf(seen.planOverride), fallback)
  }

  predicate ReadsSucceed(seen: Reads) {
    && !seen.planOverride.ReadFails? && !seen.wallets.queryFails && !seen.wallets.iterationFails
    && forall i :: 0 <= i < |seen.wallets.rows| ==> seen.wallets.rows[i].Wallet?
  }

  ghost predicate ActiveAt(rows: seq<WalletRow>, i: nat, j: nat) {
    i < |rows| && rows[i].Wallet? && j < |rows[i].networks| && rows[i].networks[j].check.Active?
  }

  ghost predicate FailsAt(rows: seq<WalletRow>, i: nat, j: nat) {
    i < |rows| && rows[i].Wallet? && j < |rows[i].networks| && rows[i].networks[j].check.CheckFails?
  }

  lemma {:induction false} FirstActiveExists(networks: seq<Network>, j: nat) returns (first: nat)
    requires j < |networks| && networks[j].check.Active?
    ensures first <= j && FirstActive(networks, first)
  {
    if l :| 0 <= l < j && networks[l].check.Active? {
      first := FirstActiveExists(networks, l);
    } else {
      first := j;
    }
  }

  /** Among wallets alone, an active check anywhere gives a first hit. */
  lemma {:induction false} FirstHitExists(rows: seq<WalletRow>, i: nat, j: nat) returns (a: nat, b: nat)
    requires (forall l :: 0 <= l < |rows| ==> rows[l].Wallet?) && ActiveAt(rows, i, j)
    ensures a <= i && FirstHit(rows, a, b)
  {
    if l :| 0 <= l < i && !Passed(rows[l]) {
      var k :| 0 <= k < |rows[l].networks| && rows[l].networks[k].check.Active?;
      a, b := FirstHitExists(rows, l, k);
    } else {
      a := i;
      b := FirstActiveExists(rows[i].networks, j);
    }
  }

  /** The source of a first hit. */
  ghost predicate IsHitSource(rows: seq<WalletRow>, source: string) {
    exists i: nat, j: nat :: FirstHit(rows, i, j)
                             && source == if rows[i].networks[j].sourceLabel == "" then "onchain"
                                          else rows[i].networks[j].sourceLabel
  }

  ghost predicate AnyActive(rows: seq<WalletRow>) {
    exists i: nat, j: nat :: ActiveAt(rows, i, j)
  }

  ghost predicate AnyFails(rows: seq<WalletRow>) {
    exists i: nat, j: nat :: FailsAt(rows, i, j)
  }

  /** With the database reads succeeding: an active check of any wallet on any network makes the plan
      premium, whatever errors the others give; without one the override decides, and without that the
      fallback, which carries an error exactly when some check failed. */
  lemma VerdictByChecks(hasChecker: bool, seen: Reads, fallback: string, v: Verdict)
    requires IsVerdict(hasChecker, seen, fallback, v) && ReadsSucceed(seen)
    ensures var rows, overridden := seen.wallets.rows, OverrideOf(seen.planOverride);
            if hasChecker && AnyActive(rows) then
              v == Verdict("premium", v.source, None, true) && IsHitSource(rows, v.source)
            else if overridden != "" then v == Verdict(NormalizePlan(overridden), "override", None, true)
            else v == Verdict(NormalizePlan(fallback), "fallback",
                              if hasChecker && AnyFails(rows) then Some(SubscriptionFailed) else None, true)
  {
    var rows := seen.wallets.rows;
    var search :| IsSearch(hasChecker, seen.wallets, search)
                  && v == Judge(search, OverrideOf(seen.planOverride), fallback);
    SearchByChecks(hasChecker, seen.wallets, search);
  }

  lemma SearchByChecks(hasChecker: bool, wallets: Wallets, search: Search)
    requires IsSearch(hasChecker, wallets, search) && !wallets.queryFails && !wallets.iterationFails
    requires forall i :: 0 <= i < |wallets.rows| ==> wallets.rows[i].Wallet?
    ensures search.Found? <==> hasChecker && AnyActive(wallets.rows)
    ensures search.SearchFails? <==> !search.Found? && hasChecker && AnyFails(wallets.rows)
  {
    var rows := wallets.rows;
    match search
    case Found(_) =>
      var i: nat, j: nat :| FirstHit(rows, i, j);
      assert ActiveAt(rows, i, j);
    case SearchFails =>
      var i :| 0 <= i < |rows| && hasChecker && RowFails(rows[i]);
      var j :| 0 <= j < |rows[i].networks| && rows[i].networks[j].check.CheckFails?;
      assert FailsAt(rows, i, j);
      if k: nat, l: nat :| ActiveAt(rows, k, l) {
        var a, b := FirstHitExists(rows, k, l);
      }
    case Nothing =>
      forall k: nat, l: nat
        ensures hasChecker ==> !ActiveAt(rows, k, l) && !FailsAt(rows, k, l)
      {
        assert k < |rows| && hasChecker ==> Passed(rows[k]) && !RowFails(rows[k]);
      }
  }

  // ----- The cache -----

  datatype CachedPlan = CachedPlan(plan: string, source: string, expiresAt: int)

  type Cache = map<string, CachedPlan>

  function EntryOf(plan: string, source: string, now: int, ttl: int): CachedPlan {
    CachedPlan(NormalizePlan(plan), Trim(source), now + ttl)
  }

  /** A user's entry, unless it expired before `now`. */
  function Lookup(cache: Cache, user: string, now: int): Option<CachedPlan> {
    if user in cache && now <= cache[user].expiresAt then Some(cache[user]) else None
  }

  /** Another call's store. */
  datatype Put = Put(user: string, entry: CachedPlan)

  function PutAll(cache: Cache, puts: seq<Put>): Cache {
    if puts == [] then cache
    else
      var last := puts[|puts| - 1];
      PutAll(cache, puts[..|puts| - 1])[last.user := last.entry]
  }

  /** What a call returns; a call that finds no database or no user resolves at no time. */
  datatype Answer = Answer(plan: string, source: string, cached: bool, resolvedAt: Option<int>, error: Option<Error>)

  const DEFAULT_TTL := 5 * 60

  class SubscriptionResolver {
    const hasDatabase: bool
    const hasChecker: bool
    const cacheTTL: int
    var planCache: Cache

    constructor (hasDatabase: bool, hasChecker: bool, cacheTTL: int)
      ensures this.hasDatabase == hasDatabase && this.hasChecker == hasChecker && planCache == map[]
      ensures this.cacheTTL > 0 && (cacheTTL > 0 ==> this.cacheTTL == cacheTTL)
      ensures cacheTTL <= 0 ==> this.cacheTTL == 300
    {
      this.hasDatabase, this.hasChecker, planCache := hasDatabase, hasChecker, map[];
      this.cacheTTL := if cacheTTL <= 0 then DEFAULT_TTL else cacheTTL;
    }

    method StorePlan(user: string, plan: string, source: string, now: int)
      modifies this
      ensures planCache == old(planCache)[user := EntryOf(plan, source, now, cacheTTL)]
    {
      planCache := planCache[user := CachedPlan(NormalizePlan(plan), Trim(source), now + cacheTTL)];
    }

    /** Lets other calls store their plans. */
    method Interfere(puts: seq<Put>)
      modifies this
      ensures planCache == PutAll(old(planCache), puts)
    {
      for i := 0 to |puts|
        invariant planCache == PutAll(old(planCache), puts[..i])
      {
        assert puts[..i + 1][..i] == puts[..i];
        planCache := planCache[puts[i].user := puts[i].entry];
      }
      assert puts[..|puts|] == puts;
    }

    /** Answers from the cache or by the rule; `others` are stored while the database and chains are read. */
    method ResolveEntitlement(rawUser: string, fallback: string, now: int, seen: Reads, others: seq<Put>)
      returns (r: Answer, ghost v: Verdict)
      modifies this
      ensures var user := Trim(rawUser);
              if !hasDatabase then
                planCache == old(planCache) && r == Answer(NormalizePlan(fallback), "fallback", false, None, None)
              else if user == "" then
                planCache == old(planCache)
                && r == Answer(NormalizePlan(fallback), "fallback", false, None, Some(UserRequired))
              else match Lookup(old(planCache), user, now)
                case Some(entry) =>
                  planCache == old(planCache) && r == Answer(entry.plan, entry.source, true, Some(now), None)
                case None =>
                  && IsVerdict(hasChecker, seen, fallback, v)
                  && r == Answer(v.plan, v.source, false, Some(now), v.error)
                  && planCache == if v.stored
                                  then PutAll(old(planCache), others)[user := EntryOf(v.plan, v.source, now, cacheTTL)]
                                  else PutAll(old(planCache), others)
    {
      v := Verdict("", "", None, false);
      if !hasDatabase {
        return Answer(NormalizePlan(fallback), "fallback", false, None, None), v;
      }
      var user := Trim(rawUser);
      if user == "" {
        return Answer(NormalizePlan(fallback), "fallback", false, None, Some(UserRequired)), v;
      }
      if user in planCache && now <= planCache[user].expiresAt {
        return Answer(planCache[user].plan, planCache[user].source, true, Some(now), None), v;
      }
      Interfere(others);
      if seen.planOverride.ReadFails? {
        v := Verdict(NormalizePlan(fallback), "fallback", Some(OverrideFailed), false);
        return Answer(NormalizePlan(fallback), "fallback", false, Some(now), Some(OverrideFailed)), v;
      }
      var overridden := OverrideOf(seen.planOverride);
      var search := HasActiveSubscription(hasChecker, seen.wallets);
      v := Judge(search, overridden, fallback);
      if search.Found? {
        var source := if search.source == "" then "onchain" else search.source;
        StorePlan(user, "premium", source, now);
        return Answer("premium", source, false, Some(now), None), v;
      }
      if overridden != "" {
        var plan := NormalizePlan(overridden);
        StorePlan(user, plan, "override", now);
        return Answer(plan, "override", false, Some(now), None), v;
      }
      var plan := NormalizePlan(fallback);
      StorePlan(user, plan, "fallback", now);
      return Answer(plan, "fallback", false, Some(now),
                    if search.SearchFails? then Some(SubscriptionFailed) else None), v;
    }
  }

  // ----- Runs -----

  /** The cache accesses of interleaved calls: a lookup with what it found, or a store of what the rule gave
      the call that began at `now`. */
  datatype Event =
    | Looked(user: string, now: int, found: Option<CachedPlan>)
    | Stored(user: string, now: int, seen: Reads, fallback: string, v: Verdict)

  ghost predicate Step(hasChecker: bool, ttl: int, before: Cache, after: Cache, e: Event) {
    match e
    case Looked(user, now, found) => after == before && found == Lookup(before, user, now)
    case Stored(user, now, seen, fallback, v) =>
      IsVerdict(hasChecker, seen, fallback, v) && v.stored
      && after == before[user := EntryOf(v.plan, v.source, now, ttl)]
  }

  ghost predicate IsRun(hasChecker: bool, ttl: int, caches: seq<Cache>, events: seq<Event>) {
    && |caches| == |events| + 1 && caches[0] == map[]
    && forall i :: 0 <= i < |events| ==> Step(hasChecker, ttl, caches[i], caches[i + 1], events[i])
  }

  /** What an event stores, if anything. */
  function WriteOf(ttl: int): Event -> Option<Put> {
    (e: Event) => if e.Stored? then Some(Put(e.user, EntryOf(e.v.plan, e.v.source, e.now, ttl))) else None
  }

  predicate Writes(w: Option<Put>, user: string) {
    w.Some? && w.value.user == user
  }

  /** Event `j` is the user's last store among the first `n` events. */
  ghost predicate LastStore(events: seq<Event>, write: Event -> Option<Put>, n: nat, user: string, j: nat) {
    && j < n <= |events| && Writes(write(events[j]), user)
    && forall k :: j < k < n ==> !Writes(write(events[k]), user)
  }

  ghost predicate FollowsWrites(caches: seq<Cache>, events: seq<Event>, write: Event -> Option<Put>, i: nat)
    requires i < |events| && |caches| == |events| + 1
  {
    caches[i + 1] == match write(events[i]) case None => caches[i] case Some(put) => caches[i][put.user := put.entry]
  }

  /** A user's entry is what the user's last store wrote. */
  lemma {:induction false} EntryIsLastWrite(caches: seq<Cache>, events: seq<Event>, write: Event -> Option<Put>, n: nat,
                                            user: string)
    returns (j: nat)
    requires |caches| == |events| + 1 && caches[0] == map[] && n <= |events| && user in caches[n]
    requires forall i :: 0 <= i < |events| ==> FollowsWrites(caches, events, write, i)
    ensures LastStore(events, write, n, user, j) && caches[n][user] == write(events[j]).value.entry
  {
    assert FollowsWrites(caches, events, write, n - 1);
    if Writes(write(events[n - 1]), user) {
      j := n - 1;
    } else {
      j := EntryIsLastWrite(caches, events, write, n - 1, user);
    }
  }

  /** Both plans are stored as they are. */
  lemma PlanIsNormal(plan: string)
    requires plan in {"premium", "free"}
    ensures NormalizePlan(plan) == plan
  {
    assert Trim("premium") == "premium" && Trim("free") == "free";
    assert Lower("premium") == "premium";
    assert |Lower("free")| == 4;
  }

  /** Every cached answer is the one the rule gave a call for the same user that began at most one time to
      live earlier, the latest such call to store. */
  lemma CachedAnswerIsRecentVerdict(hasChecker: bool, ttl: int, caches: seq<Cache>, events: seq<Event>, n: nat)
    returns (j: nat)
    requires IsRun(hasChecker, ttl, caches, events) && n < |events| && events[n].Looked? && events[n].found.Some?
    ensures LastStore(events, WriteOf(ttl), n, events[n].user, j) && events[j].Stored?
    ensures events[j].user == events[n].user
    ensures IsVerdict(hasChecker, events[j].seen, events[j].fallback, events[j].v)
    ensures events[n].found.value.plan == events[j].v.plan && events[n].found.value.source == Trim(events[j].v.source)
    ensures events[n].now <= events[j].now + ttl
  {
    forall i | 0 <= i < |events|
      ensures FollowsWrites(caches, events, WriteOf(ttl), i)
    {
      assert Step(hasChecker, ttl, caches[i], caches[i + 1], events[i]);
    }
    assert Step(hasChecker, ttl, caches[n], caches[n + 1], events[n]);
    j := EntryIsLastWrite(caches, events, WriteOf(ttl), n, events[n].user);
    assert Step(hasChecker, ttl, caches[j], caches[j + 1], events[j]);
    VerdictPlanIsNormal(hasChecker, events[j].seen, events[j].fallback, events[j].v);
  }

  lemma VerdictPlanIsNormal(hasChecker: bool, seen: Reads, fallback: string, v: Verdict)
    requires IsVerdict(hasChecker, seen, fallback, v)
    ensures NormalizePlan(v.plan) == v.plan
  {
    assert v.plan in {"premium", "free"};
    PlanIsNormal(v.plan);
  }

  // ----- What the rule and the cache answer -----

  predicate SaysPremium(text: string) {
    Lower(Trim(text)) == "premium"
  }

  /** The plan is premium if and only if an active check was found, or the override says so, or there is no override and
      the fallback says so; any other word means free. When the override cannot be read the fallback decides alone. */
  lemma PlanIsPremiumIff(hasChecker: bool, seen: Reads, fallback: string, v: Verdict)
    requires IsVerdict(hasChecker, seen, fallback, v)
    ensures v.plan == "premium" || v.plan == "free"
    ensures seen.planOverride.ReadFails? ==>
              && (v.plan == "premium" <==> SaysPremium(fallback))
              && v.source == "fallback" && v.error == Some(OverrideFailed) && !v.stored
    ensures !seen.planOverride.ReadFails? ==>
              && v.stored
              && exists search :: IsSearch(hasChecker, seen.wallets, search) &&
                   var text := if seen.planOverride.Column? then seen.planOverride.text else "";
                   && (v.plan == "premium" <==>
                       search.Found? || SaysPremium(if Trim(text) != "" then text else fallback))
                   && (v.error.Some? <==> search.SearchFails? && Trim(text) == "")
  {
    if !seen.planOverride.ReadFails? {
      var search :| IsSearch(hasChecker, seen.wallets, search)
                    && v == Judge(search, OverrideOf(seen.planOverride), fallback);
      if seen.planOverride.Column? {
        TrimIdempotent(seen.planOverride.text);
      }
    }
  }

  /** A lookup finds an entry if and only if the user's last store began at most one time to live earlier. */
  lemma FoundIffRecent(hasChecker: bool, ttl: int, caches: seq<Cache>, events: seq<Event>, n: nat)
    requires IsRun(hasChecker, ttl, caches, events) && n < |events| && events[n].Looked?
    ensures events[n].found.Some? <==>
            exists j: nat :: LastStore(events, WriteOf(ttl), n, events[n].user, j)
                             && events[n].now <= events[j].now + ttl
  {
    forall i | 0 <= i < |events|
      ensures FollowsWrites(caches, events, WriteOf(ttl), i)
    {
      assert Step(hasChecker, ttl, caches[i], caches[i + 1], events[i]);
    }
    assert Step(hasChecker, ttl, caches[n], caches[n + 1], events[n]);
    var user := events[n].user;
    if user in caches[n] {
      var j := EntryIsLastWrite(caches, events, WriteOf(ttl), n, user);
      forall k: nat | LastStore(events, WriteOf(ttl), n, user, k)
        ensures k == j
      {
      }
    } else {
      NoEntryNoStore(caches, events, WriteOf(ttl), n, user);
    }
  }

  lemma {:induction false} NoEntryNoStore(caches: seq<Cache>, events: seq<Event>, write: Event -> Option<Put>, n: nat,
                                          user: string)
    requires |caches| == |events| + 1 && n <= |events| && user !in caches[n]
    requires forall i :: 0 <= i < |events| ==> FollowsWrites(caches, events, write, i)
    ensures forall k :: 0 <= k < n ==> !Writes(write(events[k]), user)
  {
    if n == 0 {
    } else {
      assert FollowsWrites(caches, events, write, n - 1);
      NoEntryNoStore(caches, events, write, n - 1, user);
    }
  }

  /** The stores of other calls leave the entries of other users … */
  lemma {:induction false} PutAllElsewhere(cache: Cache, puts: seq<Put>, user: string)
    requires forall i :: 0 <= i < |puts| ==> puts[i].user != user
    ensures user in PutAll(cache, puts) <==> user in cache
    ensures user in cache ==> PutAll(cache, puts)[user] == cache[user]
  {
    if puts == [] {
    } else {
      PutAllElsewhere(cache, puts[..|puts| - 1], user);
    }
  }

  /** … and of a user's stores the last one counts. */
  lemma {:induction false} PutAllKeepsLast(cache: Cache, puts: seq<Put>, i: nat)
    requires i < |puts| && forall j :: i < j < |puts| ==> puts[j].user != puts[i].user
    ensures puts[i].user in PutAll(cache, puts) && PutAll(cache, puts)[puts[i].user] == puts[i].entry
  {
    if i < |puts| - 1 {
      PutAllKeepsLast(cache, puts[..|puts| - 1], i);
    }
  }
}
