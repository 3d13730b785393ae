# dwizzyBRAIN: verified models of its state machines and scanners

This Dafny project models the parts of dwizzyBRAIN whose correctness is an argument over whole runs or over all
inputs, and proves that argument. Databases, Redis, exchanges, chains, model providers and clocks appear as tables,
maps, or values that may be anything, including failures at any point; prices are reals and times are integers.
`dafny verify dfyconfig.toml` checks everything.

Code that changes state is a class or a method with the source's fields and loops, proved equal to a specification
function or relation over values. The theorems about runs are lemmas over those specifications.

| module | component |
|---|---|
| `Text`, `Iteration`, `Writes` | trimming, case mapping, byte order of strings; iterating a map in arbitrary order; how a write can go |
| `Ohlcv` | incremental candle synchronisation and the candle table |
| `Sessions` | sessions and refresh-token rotation |
| `Tokens`, `Entities` | text normalisation and the padded-substring matching of news articles |
| `Ticker`, `Arbitrage` | the ticker aggregator, the arbitrage scan and its cooldown keys |
| `MappingSync`, `MappingPrimaries` | building and validating exchange symbol mappings; which rows are primary after a sync |
| `Resolver` | resolving exchange symbols through a cache |
| `Impact`, `Pricing` | the news price-impact pipeline and its price resolver |
| `Circuit`, `Proxy` | the circuit breaker and the provider fallback loop of the gateway |
| `Brackets`, `MacroLabels` | the bracket scanner over embedded JSON and the macro labels of candles |
| `Inflight` | the in-flight lock and provider loop of the AI router |
| `Entitlement` | the subscription search over wallets and networks, and its plan cache |
| `Usernames` | sanitising and numbering usernames |

## What the proofs found

Each is a property that the code does not have in general: an instance, and the exact condition under which it holds.

- `Ohlcv.LimitOneNeverAdvances`, instance `StalledInstance`: each call refetches the newest stored candle, so a reply
  of one candle never moves a series on, and with a limit of one it never grows past its newest stored candle. A
  series moves exactly as far as a reply goes beyond one candle (`SyncTracks`). The scheduler's requests carry no limit
  (engine/cmd/engine/main.go:761-765), so the exchange's own page decides: with pages of at least two candles a still
  exchange is always caught up with, whatever the limit (`StillExchangeIsReached`).
- `Sessions.RefreshAfterReuse`, instance `ReuseInstance`: Refresh ignores whether the revocation after a reused token
  was written; when it was lost, and only then, the session's live token still works.
- `Arbitrage.DetectedIff`, instance `MissedPair`: when one exchange sets both the best ask and the best bid, a
  profitable pair with another exchange goes undetected. At a positive minimum spread this takes an exchange that bids
  above its own ask (`UncrossedDetectedIff`).
- `MappingPrimaries.OnePrimaryIff`, instance `StaleRowInstance`: rows that a sync does not rewrite keep their primary
  mark, so a completed sync can leave a coin two active primary rows; it leaves at most one if and only if no such row
  clashes with another one or with the coin's chosen candidate.
- `MappingPrimaries.InactiveChoiceLeavesNoPrimary`, instance `InactiveChoiceInstance`: a coin can end a sync with no
  active primary row although another of its markets is active, because the choice of the primary does not look at
  whether its market is active. `ActivePrimaryIff` lists the active primary rows exactly.
- `Resolver.PrimaryAnswersIff`, instance `PlantedInstance`: looking up a coin by one of its other symbols plants that mapping under the coin's
  primary cache key, so the primary mapping is guaranteed exactly when all active mappings tie.
- `Impact.HistoryIffInsertWorked`, instances `LostHistoryInstance` and `LostReplyInstance`: the history of a completed
  row is tried exactly once if and only if no snapshot of the run that completed it was written with its reply lost,
  and never otherwise; the row has history if and only if that one insert worked as well. Later runs never try again
  (`LostHistoryStaysLost`). A crash acts like a lost reply with no price found afterwards.
- `MacroLabels.LaterPointMovesHoursIff`, instance `ProximityLooksAhead`: unlike the rate and CPI labels, the hours to
  the nearest event depend on points later than the candle. The hours stay as they were if and only if some other
  point is at least as near as the later one; otherwise the later point decides the hours, and the proximity label is
  the class of the new hours.
- `Usernames.RetryRepeatsFirst`, instance `RepeatedInstance`: numbered candidates never repeat each other, but one can
  repeat the unnumbered one.
- `Inflight.ExclusiveIffUncontested`, instance `LateCallBreaksExclusion`: a call that outlives its lock can run beside
  its successor and then delete the successor's lock, which lets in a third call. Exclusion holds in every state of a
  run if and only if no start that reaches the store finds a call for its resource in flight as old as the time to
  live. Uncontested runs are exclusive whatever is lost; the converse needs that no start's reply is lost after it took
  effect, since such a start joins nobody (`LostReplyJoinsNobody`).

One rule of the code turns out to have no effect: the exemption of the Bitcoin and Ether symbols from the length check
never applies (`Entities.ShortExemptionIsIdle`).

## Model

| member | source | states |
|---|---|---|
| Ohlcv.Service.LatestTimestamp | engine/market/ohlcv/store.go:135-158 | the newest stored time of a series, the zero time exactly when it has no row |
| Ohlcv.Service.NormalizeCandles | engine/market/ohlcv/service.go:163-193 | the loop gives the normalised candles, or the error of an unknown timeframe or of any zero timestamp |
| Ohlcv.Service.UpsertCandles | engine/market/ohlcv/store.go:21-81 | the table becomes the upsert of the batch in order, cut where it fails |
| Ohlcv.Service.Sync | engine/market/ohlcv/service.go:102-161 | reply and table of one synchronisation from a given time, with every error before and after writing |
| Ohlcv.Service.IncrementalSync | engine/market/ohlcv/service.go:87-100 | reply and table of a call that resumes at the newest stored time, or at the requested time when nothing is stored |
| Ohlcv.SyncSucceedsIff | engine/market/ohlcv/service.go:87-193 | a call succeeds if and only if the newest time is readable, coin and exchange are named, the timeframe is one of the seven, the symbol resolves, the poll answers, no candle lacks a time and every statement takes effect; the limit plays no part |
| Ohlcv.FailureSays | engine/market/ohlcv/service.go:87-193 | the error of a failing call is the first of its reasons in the source's order |
| Ohlcv.ReplyIsPoll | engine/market/ohlcv/service.go:163-214 | the reply is the exchange's answer from the newest stored time, or the requested one, candle by candle; a candle is closed if and only if its time plus the length of its timeframe has passed |
| Ohlcv.ReplyIsStored | engine/market/ohlcv/store.go:21-81 | a successful call stores each candle of its reply under the request's series, the last one for each time |
| Ohlcv.FailedCallStores | engine/market/ohlcv/service.go:102-161 | a failing call stores nothing, or exactly the statements of its batch that took effect |
| Ohlcv.SyncTracks | engine/market/ohlcv/service.go:87-193 | one call keeps the stored stretch gap-free with a fixed start, final and closed but for its newest candle; its end never moves back, moves by less than the limit, and after a success is exactly where the reply ended |
| Ohlcv.SyncKeepsOtherSeries | engine/market/ohlcv/store.go:29-44 | a call leaves the rows of every other series alone |
| Ohlcv.StoreAlwaysFollows | engine/market/ohlcv/service.go:87-193 | in every world of every run, over a changing exchange and failing calls, each series is a gap-free stretch of the exchange's candles, all but the newest final and marked closed |
| Ohlcv.SettledForever | engine/market/ohlcv/store.go:29-44 | once a newer candle is stored beside it, a stored candle's value and closed mark never change again |
| Ohlcv.CompleteReplyCatchesUp | engine/market/ohlcv/service.go:102-161 | a successful reply that reaches the newest candle leaves exactly the exchange's candles from the first stored one on, all with their current value |
| Ohlcv.StillExchangeIsReached | engine/market/ohlcv/service.go:87-161 | with any limit or none, and a still exchange that answers with at least a page of two or more candles or with all it has, once the successful calls could have gained every missing candle the store holds the current value of every candle from its first one on |
| Ohlcv.WorkingCallSucceeds | engine/market/ohlcv/service.go:102-161 | a call for a named series of a supported timeframe succeeds whenever reads, poll and writes work, so catching up depends on the outside world alone |
| Ohlcv.LimitOneNeverAdvances | engine/market/ohlcv/service.go:87-100 | with a limit of one the newest stored candle stays the newest for the rest of the run |
| Ohlcv.StalledInstance | engine/market/ohlcv/service.go:87-100 | a run in which the exchange has two candles, two calls have a limit of one, and the first candle stays the newest stored one |
| Sessions.Service.CreateSession | api/auth/service.go:778-823 | a session and its first token, or nothing when the transaction fails |
| Sessions.LoginIssues | api/auth/service.go:778-847 | a login issues an active session of its user and that session's first token, both for one lifetime, if and only if the transaction commits |
| Sessions.Service.RefreshSession | api/auth/service.go:331-409 | reply and tables of Refresh as one atomic step: every refusal, the two revocations, the rotation, the rollback |
| Sessions.RefreshIssuedIff | api/auth/service.go:331-409 | presenting a token issues the next one if and only if it is unconsumed and unexpired, the session active and within its limits, and every read and the transaction work; what is issued, consumed and touched; nothing else changes |
| Sessions.RefusalSays | api/auth/service.go:331-368 | the error of a refused token is the first of its reasons in the source's order |
| Sessions.RefusalRevokesIff | api/auth/service.go:345-367 | a refusal revokes the session if and only if a consumed token was presented or the active session is over its limits, and the revocation is written |
| Sessions.UnknownTokenIssuesNothing | api/auth/service.go:331-344 | a token of no session issues and changes nothing |
| Sessions.Service.Logout | api/auth/service.go:411-428 | reply and tables of Logout for access tokens, refresh tokens and neither |
| Sessions.LogoutRevokes | api/auth/service.go:411-428 | a logout that names a session replies so if and only if the session is found and its revocation written; it then revokes that session, keeping an earlier revocation time, and touches no other |
| Sessions.LogoutIsFinal | api/auth/service.go:411-428 | after a reported logout the session is revoked and every later refresh with any token of it fails, in every run |
| Sessions.LogoutOfNothing | api/auth/service.go:411-428 | a logout that names no session changes nothing, and what it replies |
| Sessions.Service.Revoke | api/auth/service.go:918-931 | marks the session revoked and keeps its first revocation time |
| Sessions.ChainDistinct | api/auth/service.go:825-847 | a rotation chain repeats no token |
| Sessions.StepKeepsChains | api/auth/service.go:331-428 | every call keeps, for every session, one linear rotation chain ending in its only unconsumed token |
| Sessions.OneLiveToken | api/auth/service.go:331-428 | in every state of every run a session has exactly one unconsumed token, the end of the one chain that lists all its tokens |
| Sessions.RevokedForever | api/auth/service.go:918-931 | a revoked session stays revoked in every run |
| Sessions.RevocationTimeKept | api/auth/service.go:918-931 | the time of a revocation never changes in any run |
| Sessions.ReuseIsFatal | api/auth/service.go:331-368 | after a consumed token is presented and the revocation written, every later refresh with any token of the session fails |
| Sessions.RefreshAfterReuse | api/auth/service.go:345-380 | after a reuse the live token still refreshes if and only if the revocation was lost and the session was active and within its limits |
| Sessions.ReuseInstance | api/auth/service.go:345-380 | a run with two tokens whose revocation is lost: the reuse is reported and the live token is refreshed right after |
| Sessions.TimesAlways | api/auth/service.go:349-380 | in every run a session expires one lifetime after its creation and every token of it expires no earlier than it |
| Sessions.RefreshesWithinIdle | api/auth/service.go:362-368 | consecutive successful refreshes of a session are at most the idle limit apart |
| Sessions.RefreshesWithinLifetime | api/auth/service.go:797-823 | no refresh of a session succeeds later than its creation plus the refresh lifetime |
| Sessions.ExpiredTokenMeansExpiredSession | api/auth/service.go:349-368 | a refresh refused because the token expired is one whose session has expired too |
| Tokens.NormalizedIsJoin | engine/news/ai/rules.go:78-83 | normalised text is the list of lower-case tokens joined by single spaces |
| Tokens.NormalizedIdempotent | engine/news/ai/rules.go:78-83 | normalising twice is normalising once |
| Tokens.TokensAcross | engine/news/ai/rules.go:78-83 | every character but letters and digits splits a text into the tokens before and behind it |
| Tokens.TokensOfOne | engine/news/ai/rules.go:78-83 | a text of letters and digits is one token in lower case |
| Tokens.PaddedTestIsExact | engine/news/ai/rules.go:159-199 | the padded substring test holds if and only if the term's tokens are a contiguous block of the text's tokens |
| Tokens.TokensAcrossSpace | engine/news/ai/rules.go:32-43 | the tokens of title and body are those of the title followed by those of the body |
| Entities.DedupeStrings | engine/news/ai/rules.go:248-264 | the loop with its set of seen keys keeps the first occurrence of each trimmed value up to case |
| Entities.DedupeIsDistinct | engine/news/ai/rules.go:248-264 | no two kept terms agree up to case, and none is blank |
| Entities.DedupeKeepsAll | engine/news/ai/rules.go:248-264 | every non-blank value is kept up to case |
| Entities.CountTermHits | engine/news/ai/rules.go:159-199 | the inner loop counts the terms that hit |
| Entities.MatchEntities | engine/news/ai/rules.go:159-236 | the matching loops for coins and for protocols report the entities that the specification lists |
| Entities.AnalyzeArticle | engine/news/ai/rules.go:32-43 | an article reports what matching on token lists reports, coins first, then protocols |
| Entities.TitleCheckAddsNothing | engine/news/ai/rules.go:159-199 | a hit in the title alone is also a hit in title and body |
| Entities.TermHitsIffOccurs | engine/news/ai/rules.go:159-199 | a term hits if and only if it is usable and its tokens are a block of the article's tokens |
| Entities.MatchingIsTokenMatching | engine/news/ai/rules.go:159-236 | the padded substring matcher and matching on token lists agree, entity for entity |
| Entities.ReportedIffMentioned | engine/news/ai/rules.go:159-236 | an id is reported if and only if some subject with that id has a usable term that occurs |
| Entities.EntitiesStandFor | engine/news/ai/rules.go:159-236 | the reported entities stand, in order, for the first subjects with their ids of which some field hits; name, count of the fields that hit and confidence are those of that subject, over coin id, symbol and name or slug and title |
| Entities.MatchesOnceAndFirstPrimary | engine/news/ai/rules.go:159-236 | no id is reported twice and exactly the first entity is primary |
| Entities.PrimariesOfArticle | engine/news/ai/rules.go:32-43 | an article's primaries are its first coin and its first protocol |
| Entities.ShortExemptionIsIdle | engine/news/ai/rules.go:169-175 | a coin's term is skipped if and only if it has fewer than three bytes |
| Entities.BytesOfText | engine/news/ai/rules.go:169-175 | the length that is compared counts UTF-8 bytes |
| Ticker.Aggregator.Store | engine/market/ticker/aggregator.go:58-79 | a ticker is filed unless a newer one is held |
| Ticker.UpdateFiles | engine/market/ticker/aggregator.go:58-79 | a ticker is filed under its trimmed coin and its exchange in lower case if and only if its names and time are given and no newer one is held; nothing else changes |
| Ticker.Aggregator.Update | engine/market/ticker/aggregator.go:58-79 | an invalid ticker changes nothing; a valid one is filed and its coin's snapshot returned |
| Ticker.Aggregator.SnapshotLocked | engine/market/ticker/aggregator.go:111-174 | for every iteration order of the map: the greatest fresh bid, the least positive fresh ask, who quotes them, the spread, the last update and the sorted list |
| Ticker.Aggregator.Current | engine/market/ticker/aggregator.go:81-91 | a snapshot exactly for the coins that have tickers |
| Ticker.ScanGivesSnapshot | engine/market/ticker/aggregator.go:111-174 | one pass in any order finds the best quotes of all fresh tickers |
| Ticker.TickerIsShown | engine/market/ticker/aggregator.go:111-174 | every ticker is listed with its fields, its own spread, and as stale if and only if it is older than the limit |
| Ticker.ShownIsTicker | engine/market/ticker/aggregator.go:111-174 | nothing else is listed |
| Ticker.SnapshotShowsBest | engine/market/ticker/aggregator.go:125-150 | the best bid and the least ask are those of the tickers no older than the limit, and who quotes them |
| Ticker.SnapshotSpread | engine/market/ticker/aggregator.go:151-174 | the spread is the gain from best ask to best bid in percent of the ask |
| Ticker.SnapshotsAgree | engine/market/ticker/aggregator.go:111-174 | best bid, best ask, spread, last update, count and sorted list are the same for every iteration order |
| Ticker.NamesAgreeWithoutTies | engine/market/ticker/aggregator.go:111-174 | so are the names of the best exchanges when no two exchanges quote the same best value |
| Ticker.HoldsLastOfNewest | engine/market/ticker/aggregator.go:58-79 | after any tickers each coin and exchange holds the last-arrived one among those with the greatest time |
| Ticker.ArrivalOrderIrrelevant | engine/market/ticker/aggregator.go:58-79 | with distinct times, what is held does not depend on the order of arrival |
| Arbitrage.FindSides | engine/market/arbitrage/engine.go:136-154 | one pass finds the last fresh entries of the two best exchanges |
| Arbitrage.DetectedIsBestOfAllPairs | engine/market/arbitrage/engine.go:100-154 | a detected opportunity trades between two different exchanges at exactly the fresh quotes that set the best ask and bid, with a spread no smaller than that of any pair of fresh positive quotes |
| Arbitrage.DetectedRecords | engine/market/arbitrage/engine.go:114-134 | an opportunity records the coin, the time and the depth of the two quotes |
| Arbitrage.DetectedIff | engine/market/arbitrage/engine.go:100-134 | an opportunity is detected if and only if the best sides are different exchanges, deep enough, and some pair of different exchanges reaches the minimum spread |
| Arbitrage.MissedPair | engine/market/arbitrage/engine.go:100-112 | two quotes, one of them a bid above its own ask, whose profitable pair is not detected because one exchange sets both best quotes |
| Arbitrage.UncrossedDetectedIff | engine/market/arbitrage/engine.go:100-134 | when no fresh ticker bids above its own ask and the minimum is positive, an opportunity is detected if and only if both best quotes are deep enough and some pair of different exchanges reaches the minimum |
| Arbitrage.Engine.ScanSnapshot | engine/market/arbitrage/engine.go:62-98 | what one snapshot does to signals and cooldown keys, with every failure |
| Arbitrage.Engine.Scan | engine/market/arbitrage/engine.go:62-98 | a scan processes the snapshots in order, stops at the first failure and returns exactly the signals it inserted |
| Arbitrage.CachelessOutcome | engine/market/arbitrage/engine.go:62-98 | without a cache every detection is inserted, and only a missing configuration or a failing insert stops a scan |
| Arbitrage.CacheOnlySkips | engine/market/arbitrage/engine.go:62-98 | all a cache does is skip detections |
| Arbitrage.FirstSignalIsInserted | engine/market/arbitrage/engine.go:156-177 | until a cooldown was started for a coin and two exchanges, every detection for them is inserted |
| Arbitrage.SignalIff | engine/market/arbitrage/engine.go:156-177 | after the last cooldown started for them, a detection is inserted if and only if that cooldown is over or is not consulted, because none is configured any more or the cache read fails |
| Arbitrage.CooldownKeyIff | engine/market/arbitrage/engine.go:172-177 | two opportunities share a key if and only if coin, buying and selling exchange agree up to case and white space at the ends, for exchanges without colons |
| Arbitrage.SignalsAreSpaced | engine/market/arbitrage/engine.go:156-177 | in every run with a working cache, two signals for the same coin and exchanges are at least the first one's cooldown apart |
| Arbitrage.NextSignalIsSpaced | engine/market/arbitrage/engine.go:156-177 | two signals in a row for the same coin and exchanges are at least the first one's cooldown apart as soon as the first one's cache write and the second one's cache read worked, whatever else failed |
| MappingSync.ChoosePrimaryMappings | engine/market/mapping/builder.go:109-124 | every group of candidates is mapped to the symbol of its first candidate of least quote rank, and there are no other groups |
| MappingSync.MarkedIffChosen | engine/market/mapping/builder.go:93-128 | with distinct symbols a build marks a candidate as primary if and only if it is the first of least quote rank in its group |
| MappingSync.ExactlyOneMarked | engine/market/mapping/builder.go:93-128 | so every group present has exactly one marked candidate |
| MappingSync.IndexCoins | engine/market/mapping/builder.go:53-62 | each symbol is mapped to the first coin listed for it |
| MappingSync.FirstCoinWins | engine/market/mapping/builder.go:53-62 | a symbol stands for the first coin listed under it up to case, a blank one for none |
| MappingSync.CollectCandidates | engine/market/mapping/builder.go:64-91 | the loop over the markets collects the candidates in the order visited |
| MappingSync.CandidateIff | engine/market/mapping/builder.go:64-91 | a market is a candidate if and only if it counts as spot, gives base, quote and symbol, and some coin is listed under its base; the candidate names the first such coin |
| MappingSync.QuotesRank | engine/market/mapping/builder.go:130-145 | quotes rank as USDT, USDC, BUSD, BTC, ETH, and all others together behind |
| MappingSync.CollectAvailable | engine/market/mapping/validator.go:45-55 | exactly the listed spot symbols are available, each with the activity of a market that has it |
| MappingSync.ActiveIff | engine/market/mapping/validator.go:79-87 | a market counts as active if and only if it says so, or says nothing and is of the spot kind or of none |
| MappingSync.ListedIff | engine/market/mapping/validator.go:45-55 | a market is available to the validation if and only if it counts as spot and gives a symbol |
| MappingSync.Service.SetMappingStatus | engine/market/mapping/postgres.go:209-227 | changes the status of a row and nothing else |
| MappingSync.Service.BuildFromMarkets | engine/market/mapping/builder.go:43-107 | for some iteration order the table becomes the upsert of the candidates with their marks, cut exactly where a write fails; the counts are those of the candidates, of the markets passed over, and of the rest |
| MappingSync.Service.ValidateExchangeMarkets | engine/market/mapping/validator.go:35-77 | every row the exchange had is set active or delisted by its symbol's availability, cut exactly where an update fails; the counts are those of the active rows and of the rest |
| MappingSync.Service.SyncExchange | engine/market/mapping_sync.go:45-80 | a build and, if it completes, a validation, with their counts; failing inputs change nothing, and the sync completes if and only if every read and write works |
| MappingPrimaries.SyncKeepsElsewhere | engine/market/mapping_sync.go:45-80 | a sync, complete or not, leaves the rows of other exchanges alone, for every table, catalogue and market list |
| MappingPrimaries.ActiveRowIsCandidate | engine/market/mapping/validator.go:35-77 | with base and quote fixed for each symbol and listed by the catalogue, every row active after a completed sync was written by that sync's build |
| MappingPrimaries.CompletedSyncLeavesOnePrimary | engine/market/mapping_sync.go:45-80 | when the base and quote of every stored symbol are fixed and the catalogue lists the base, after a completed sync each coin has at most one active primary row on the exchange |
| MappingPrimaries.OnePrimaryIff | engine/market/mapping_sync.go:45-80 | whatever the table held before, a completed sync leaves each coin at most one active primary row if and only if no stale active primary row clashes with another one or with the coin's chosen candidate |
| MappingPrimaries.StaleRowInstance | engine/market/mapping_sync.go:45-80 | a completed sync that leaves two, from a primary row whose base the catalogue lacks |
| MappingPrimaries.PrimaryIff | engine/market/mapping/builder.go:93-128 | after a completed sync a candidate's row is an active primary if and only if the candidate is its group's chosen one and its market is active |
| MappingPrimaries.SyncedRow | engine/market/mapping_sync.go:45-80 | the whole row that a completed sync stores for a market that is a candidate |
| MappingPrimaries.ActivePrimaryIff | engine/market/mapping/builder.go:93-128 | whatever the table held before, the active primary rows after a completed sync are exactly the stale ones still listed as active and those of the chosen candidates whose markets are active |
| MappingPrimaries.InactiveChoiceLeavesNoPrimary | engine/market/mapping/builder.go:109-124 | when the chosen candidate's market is inactive, its coin has no active primary row after the sync but stale ones, whatever its other markets |
| MappingPrimaries.InactiveChoiceInstance | engine/market/mapping/builder.go:109-124 | a completed sync after which a coin has an active row and no primary one |
| MappingPrimaries.SyncCanComplete | engine/market/mapping_sync.go:45-80 | from every table, with any markets and coins, a sync can complete |
| MappingPrimaries.AlwaysAtMostOnePrimary | engine/market/mapping_sync.go:45-80 | in every run of completed and failed syncs of all exchanges, from a completed sync until the next one of the same exchange there is at most one active primary row for each coin |
| Resolver.GetPrimaryMapping | engine/market/mapping/postgres.go:44-55 | an active mapping of the coin on the exchange that no other outranks, none exactly when there is none |
| Resolver.PrimaryLookupIs | engine/market/mapping/postgres.go:44-55 | the row it gives is primary if any is; among rows alike in that it is the latest verified, then the latest updated |
| Resolver.GetMappingBySymbol | engine/market/mapping/postgres.go:57-67 | an active mapping of the exchange's symbol, none exactly when there is none |
| Resolver.SymbolResolver.ResolveExchangeSymbol | engine/market/mapping/resolver.go:48-69 | reply and cache of a call, with unreadable or unwritable cache and failing store |
| Resolver.SymbolResolver.ResolveCoinID | engine/market/mapping/resolver.go:71-96 | the same for the lookup by symbol |
| Resolver.FailsOnlyWhen | engine/market/mapping/resolver.go:48-96 | a lookup fails only for blank names, with the store down, or with no matching active row, and then changes no cache entry |
| Resolver.CoinKeyInjective | engine/market/mapping/resolver.go:129-131 | the primary cache key determines coin and exchange for exchanges without colons |
| Resolver.SymbolKeyInjective | engine/market/mapping/resolver.go:133-135 | the reverse cache key determines exchange and symbol for exchanges without colons |
| Resolver.AlwaysFaithful | engine/market/mapping/resolver.go:98-135 | whatever calls and expiries happened, every cache entry is an active mapping under one of its own two keys |
| Resolver.CoinAnswersAreStoreAnswers | engine/market/mapping/resolver.go:71-96 | in every run a lookup by symbol answers with the store's one active mapping of that symbol, and not found exactly when there is none |
| Resolver.SymbolAnswersAreActive | engine/market/mapping/resolver.go:48-69 | in every run a lookup by coin answers with an active mapping of that coin on that exchange, and not found only when there is none |
| Resolver.PrimaryAnswersIff | engine/market/mapping/resolver.go:80-85 | the answer is the store's primary mapping in every run if and only if all active mappings of the coin on the exchange tie for first place |
| Resolver.PlantedInstance | engine/market/mapping/resolver.go:71-96 | a store of two mappings and a run after which the coin resolves to the one that is not primary |
| Impact.Service.UpsertCandidate | engine/news/impact/store.go:66-91 | the first price and the earliest publication time win, or nothing is written; the reply may be lost either way |
| Impact.Service.UpdateSnapshot | engine/news/impact/store.go:161-194 | one window gets its price and its done flag together, or nothing is written; the reply may be lost either way |
| Impact.Service.SnapshotWindow | engine/news/impact/service.go:95-122 | the stored row is filled when the window has elapsed, was not done in memory, has a price and the write takes effect; the in-memory row follows when the reply arrives |
| Impact.Service.ProcessRow | engine/news/impact/service.go:74-128 | one pending row in the table and in memory, with writes that fail or lose their reply; the history is tried when the in-memory row is complete |
| Impact.ProcessedWindow | engine/news/impact/service.go:95-122 | processing does a window if and only if a price at publication is known, the window is not done, one, four or 24 hours have passed, its price is found and the write takes effect; the price stored is the one found for that very window |
| Impact.ProcessedPrice | engine/news/impact/service.go:74-90 | the price at publication is filled in if and only if it was missing, is found and its write takes effect |
| Impact.Service.ProcessListed | engine/news/impact/service.go:68-128 | rows read beforehand still mirror the store when their turn comes |
| Impact.Service.RunOnce | engine/news/impact/service.go:40-131 | the whole state after a run with writes failing, or losing their reply, anywhere |
| Impact.GoodAlways | engine/news/impact/service.go:53-128 | after every sequence of runs a done flag implies its price and the price at publication are set and its window has elapsed, and the history insert was tried at most once for each completed row and never for another |
| Impact.TriesIffRepliesArrive | engine/news/impact/service.go:74-128 | the in-memory row is never complete without the stored one; when processing completes the stored row, the insert is tried if and only if every remaining snapshot's reply arrived |
| Impact.NothingChangesBack | engine/news/impact/store.go:72-80 | no later run changes a done flag, a snapshot or the price at publication that was set |
| Impact.RunOfRow | engine/news/impact/service.go:40-128 | a run upserts its candidates and then processes exactly the rows listed as pending |
| Impact.SnapshotIsTaken | engine/news/impact/service.go:95-122 | after any number of runs the price of a done window is the one found for that window in the run that did it, after its time |
| Impact.PriceIsResolved | engine/news/impact/service.go:53-90 | the price at publication is one that some run resolved for it |
| Impact.TimeIsEarliest | engine/news/impact/store.go:66-91 | every upserted row exists, with a publication time no later than any upserted one |
| Impact.TimeIsUpserted | engine/news/impact/store.go:66-91 | the publication time is one that some run upserted |
| Impact.HistoryIffInsertWorked | engine/news/impact/service.go:123-128 | after any number of runs a row is completed if and only if one of them completed it; its history insert was tried, and then once, if and only if no snapshot that run had to write lost its reply, and it has history if and only if the insert worked as well |
| Impact.LostHistoryStaysLost | engine/news/impact/service.go:123-128 | a completed row without history stays without it in every later run |
| Impact.LostHistoryInstance | engine/news/impact/service.go:123-128 | a run that completes a row, tries its history once and loses it |
| Impact.LostReplyInstance | engine/news/impact/service.go:95-128 | a run in which every write takes effect, yet a completed row's history is never tried |
| Pricing.DedupeByExchange | engine/news/impact/price.go:98-122 | one mapping for each normalised exchange, its first primary or else its first |
| Pricing.LessIsStrictOrder | engine/news/impact/price.go:124-132 | the comparison of the sort is a strict order |
| Pricing.LessIff | engine/news/impact/price.go:124-157 | primaries go first, then exchanges in the order binance, bybit, okx, kucoin, gateio, kraken, mexc, htx and the rest, then symbols in upper case |
| Pricing.Sort | engine/news/impact/price.go:124-132 | a sorted permutation, with no promise about ties |
| Pricing.Resolve | engine/news/impact/price.go:49-94 | the result is that of an exchange with a usable or failing quote that no other such exchange outranks, not found exactly when there is none, and an error for a blank coin id or a failing list of mappings |
| Pricing.SampleIsQuoted | engine/news/impact/price.go:49-94 | a sample is the positive close of a candle quoted for a listed mapping's exchange; not found means no exchange has one, nor a failing read |
| Pricing.PriceDetermined | engine/news/impact/price.go:49-134 | without ties the result does not depend on how the unstable sort orders the mappings |
| Pricing.PrimaryPriceFirst | engine/news/impact/price.go:124-132 | the price comes from a primary mapping whenever some exchange's primary mapping has a deciding quote |
| Circuit.CircuitBreaker.Allow | irag/circuit.go:28-42 | answer and new state of an admission check |
| Circuit.CircuitBreaker.Success | irag/circuit.go:44-51 | closes the provider's circuit and clears its count |
| Circuit.CircuitBreaker.Failure | irag/circuit.go:53-62 | counts the failure and opens the circuit at the threshold |
| Circuit.OwnCallsOnly | irag/circuit.go:28-71 | in every interleaving a provider's state is that of its own calls alone |
| Circuit.WindowIsSinceReset | irag/circuit.go:28-62 | the window that is read begins just behind the latest reset |
| Circuit.ResetBeforeWindow | irag/circuit.go:28-62 | the event just before the window is a reset |
| Circuit.StateIsReading | irag/circuit.go:28-62 | for every history the failure count is the number of failures since the latest reset, and the circuit is open until the latest failure plus the cooldown exactly when that number reaches the threshold |
| Circuit.RefusedIff | irag/circuit.go:28-42 | a call is refused if and only if the threshold is reached and the latest failure is no more than the cooldown ago |
| Circuit.NeverStuck | irag/circuit.go:28-42 | once every failure is more than the cooldown ago no call is refused |
| Proxy.VisitProvider | irag/service.go:181-207 | one position of the chain: refused, passed over with one failure, or answering with one success |
| Proxy.AnswersIff | irag/service.go:2646-2662 | an attempt answers for the request unless it errs or its status is 404, 405, 408, 429 or a server error, or on five kinds of route 400 or 403 |
| Proxy.ProxyWithFallback | irag/service.go:179-213 | the attempted list is the visited prefix of the chain, the reply is the last visit's, and the shared breaker has seen exactly the calls of the visits amid those of other requests |
| Proxy.FirstAdmittedAnswer | irag/service.go:116-126 | a reply comes from the first admitted provider whose outcome is not retryable; total failure means the whole chain was tried, and shows as 504 if and only if some attempt timed out |
| Proxy.OwnCallsOfRequest | irag/service.go:179-213 | whatever other requests do to the shared breaker meanwhile, it sees of each provider their calls and, from this request, one failure where it is passed over, one success where it answers, and nothing but the admission check where it is refused |
| Brackets.FindMatchingBracket | quant/src/quant/events.py:428-450 | the loop finds what the scan over characters specifies, or raises |
| Brackets.SeekFindsFirst | quant/src/quant/events.py:428-450 | the end found is the first bracket outside strings that brings the depth to zero; without one there is none |
| Brackets.ValuePasses | quant/src/quant/events.py:428-450 | reading any printed JSON value inside an array returns to the state before it |
| Brackets.FindsEndOfPrintedArray | quant/src/quant/events.py:428-450 | for every printed JSON array and any trailing text the scanner returns exactly the end of the array |
| Brackets.ExtractDays | quant/src/quant/events.py:109-117 | the text handed to the JSON parser, or nothing where the program raises first |
| Brackets.ExtractsPrintedArray | quant/src/quant/events.py:109-117 | from a page that embeds a printed array, exactly that array is extracted |
| MacroLabels.BuildLookup | quant/src/quant/events.py:272-276 | the lookup holds, for each series, its points in time order |
| MacroLabels.SortSorts | quant/src/quant/events.py:314-345 | sorting orders by time and keeps every element |
| MacroLabels.FilterSorted | quant/src/quant/events.py:335-345 | sorting is stable: it commutes with keeping any part of the elements |
| MacroLabels.LabelCandleEvents | quant/src/quant/events.py:264-311 | each dated candle gets, in time order, the label of its row |
| MacroLabels.RowsOfCandles | quant/src/quant/events.py:314-333 | the labelled rows are the candles with a time, under trimmed names, in time order |
| MacroLabels.RateLabels | quant/src/quant/events.py:181-200 | direction compares the last with the first number among the three newest rate points up to the candle; the regime is the class of the newest, with thresholds 5, 3 and 1 |
| MacroLabels.CpiLabel | quant/src/quant/events.py:203-213 | with numbers at the three newest CPI points the trend is accelerating if and only if half of last minus first exceeds 0.2, cooling if and only if it is at most -0.2 |
| MacroLabels.ProximityLabel | quant/src/quant/events.py:348-365 | the proximity label is the class of the seconds from the candle to a nearest point |
| MacroLabels.LabelsDependOnPast | quant/src/quant/events.py:181-213 | rate direction, rate regime and CPI trend of a row depend only on the points up to its candle, in every input order |
| MacroLabels.OutputsDependOnPast | quant/src/quant/events.py:264-311 | two outputs of the labelling for the same candles agree on those three labels of every candle up to whose time the points are the same |
| MacroLabels.LaterPointInvisible | quant/src/quant/events.py:335-345 | a later point put anywhere into the input leaves a candle's past as it was |
| MacroLabels.LaterPointMovesHoursIff | quant/src/quant/events.py:348-371 | adding a later point anywhere leaves the hours to the nearest event as they were if and only if some other point is at least as near; otherwise the new point decides the hours and the proximity label |
| MacroLabels.ProximityLooksAhead | quant/src/quant/events.py:348-361 | an instance: a point one hour after the only candle makes its label imminent |
| Inflight.AskProviders | engine/agent/router.go:44-58 | the reply is settled by the first provider that does not fail retryably, otherwise by all errors |
| Inflight.ReplyDetermined | engine/agent/router.go:44-58 | an answer comes from the first provider to succeed with all earlier ones failing retryably; a fatal error stops the chain with the errors so far |
| Inflight.AgentRouter.AcquireLock | engine/agent/router.go:61-75 | proceeds, refuses a duplicate or reports an error, and what the lock store then holds |
| Inflight.AgentRouter.ReleaseLock | engine/agent/router.go:77-82 | deletes the key whoever set it, unless the deletion is lost |
| Inflight.AgentRouter.Ask | engine/agent/router.go:28-59 | one call amid other calls' steps: bad requests touch nothing, refused calls only try the lock, proceeding ones release it after the providers |
| Inflight.AtMostOneInFlight | engine/agent/router.go:28-82 | in every interleaving, as long as no start finds a call for its resource in flight as old as the time to live, at most one call for a resource is in flight |
| Inflight.ExclusiveIffUncontested | engine/agent/router.go:28-82 | exclusion holds in every state of a run if and only if no start is contested in that way, unless a start's reply is lost after it took effect |
| Inflight.OnTimeIsUncontested | engine/agent/router.go:28-82 | calls that finish within the time to live are never contested |
| Inflight.LostReplyJoinsNobody | engine/agent/router.go:61-75 | a contested start whose reply is lost leaves the run exclusive |
| Inflight.ReleasesOwnLock | engine/agent/router.go:77-82 | then a release deletes the caller's own lock and no other, still unexpired if and only if the call is younger than the time to live |
| Inflight.SecondStartProceedsIff | engine/agent/router.go:61-75 | after any uncontested events, a start on the resource of a call in flight proceeds if and only if its reply arrives and that call has outlived the time to live |
| Inflight.LateCallBreaksExclusion | engine/agent/router.go:61-82 | an instance: a late call overlaps its successor and deletes the successor's lock |
| Inflight.RefusedOnlyByRecentStart | engine/agent/router.go:61-75 | a refusal is always due to a start less than the time to live ago, whatever releases and replies were lost |
| Inflight.LockKeyInjective | engine/agent/router.go:39-39 | distinct resources have distinct locks |
| Entitlement.CheckNetworks | api/auth/subscription.go:436-458 | the first active network's source, otherwise a failure exactly when some network failed |
| Entitlement.HasActiveSubscription | api/auth/subscription.go:244-280 | the first active check in wallet and network order, otherwise a failure exactly when the database or some check failed |
| Entitlement.VerdictByChecks | api/auth/subscription.go:199-233 | with the database readable the plan is premium if and only if some check is active, whatever errors the others give, or the override or fallback says so; otherwise the override, otherwise the fallback, with an error exactly when a check failed |
| Entitlement.PlanIsPremiumIff | api/auth/subscription.go:199-233 | the plan is premium if and only if an active check was found, or the override says premium, or without one the fallback does; any other word means free |
| Entitlement.SubscriptionResolver.constructor | api/auth/subscription.go:91-101 | a time to live that is not positive becomes five minutes |
| Entitlement.SubscriptionResolver.ResolveEntitlement | api/auth/subscription.go:187-233 | answers and cache of a call with and without a cache hit, amid other calls' stores |
| Entitlement.EntryIsLastWrite | api/auth/subscription.go:296-317 | a user's entry is what the user's last store wrote |
| Entitlement.FoundIffRecent | api/auth/subscription.go:296-317 | a lookup finds an entry if and only if the user's last store began at most one time to live earlier |
| Entitlement.CachedAnswerIsRecentVerdict | api/auth/subscription.go:296-317 | every cached answer is what the rule gave the same user's latest storing call, which began at most one time to live earlier |
| Usernames.UsernameCandidate | api/auth/service.go:1070-1084 | every candidate has 3 to 24 characters |
| Usernames.FirstCandidate | api/auth/service.go:1070-1095 | the first candidate is the name without the underscores at its ends, cut to 24 characters, or a stock name below three |
| Usernames.NumberedCandidate | api/auth/service.go:1070-1095 | a numbered candidate is a prefix of the base, an underscore and the whole attempt number |
| Usernames.NumberedFromFirst | api/auth/service.go:1070-1095 | a numbered candidate cuts the first one so that an underscore and the whole number fit |
| Usernames.NumeralReads | api/auth/service.go:1074-1074 | the number is written in decimal without a leading zero |
| Usernames.RetriesDistinct | api/auth/service.go:895-897 | the candidates of different 64-bit attempts from one on are different |
| Usernames.RetryRepeatsFirst | api/auth/service.go:1070-1084 | a retry repeats the unnumbered candidate if and only if that one fills all 24 places and ends in an underscore and the attempt number |
| Usernames.RepeatedInstance | api/auth/service.go:1070-1084 | a name for which it does |
| Usernames.Sanitize | api/auth/service.go:1037-1068 | the character loop computes the sanitised name |
| Usernames.SanitizedIsJoinedTokens | api/auth/service.go:1037-1068 | sanitising joins the tokens of the name with underscores, cuts to 24 characters, and gives nothing below three |

## Left out

- Ohlcv.Service.UpsertCandles: the symbols table that the upsert fills on the way.
- Ohlcv.Service.Sync: publishing the candles after the upsert, and its error.
- Ohlcv.StoreAlwaysFollows: backfills are not events of a run, because an arbitrary start can leave gaps by design.
- Ohlcv.StoreAlwaysFollows: assumes an exchange that appends candles, changes only its newest one and answers oldest first from the requested time; a series is tied to one such exchange, whatever symbol the resolver returns for it.
- Sessions.Service.RefreshSession: is one atomic step, so two refreshes interleaved between its reads and its transaction are not modelled; access tokens, hashing and plan lookup are opaque.
- Sessions.Service.CreateSession: the family id and the hashed request data of the rows, the user row, and the identity of the login provider.
- Entities.AnalyzeArticle: only the entities are returned; summaries, sentiment, category, breaking flag and importance are clamps and word lists.
- Ticker.Aggregator.Update: the mutex makes calls atomic; the list of all coins' snapshots only sorts them by coin.
- Arbitrage.SignalsAreSpaced: assumes that the cooldown cache answers, since the scan ignores its errors; NextSignalIsSpaced says which two answers are enough.
- MappingSync.Service.SetMappingStatus: matches rows by their key, which upserts always write trimmed and in upper case; the verification time of the row.
- MappingSync.Service.BuildFromMarkets: the verification and update times of the rows.
- MappingSync.Service.ValidateExchangeMarkets: the verification times of the rows.
- MappingPrimaries.AlwaysAtMostOnePrimary: assumes a base and quote fixed for each exchange symbol, distinct symbols and a fixed set of catalogue symbols; OnePrimaryIff and ActivePrimaryIff say what one sync does without fixed assets or catalogue.
- MappingPrimaries.OnePrimaryIff: assumes that different listed spot markets have different symbols, as exchanges list them.
- Resolver.CoinAnswersAreStoreAnswers: the store is fixed during a run; a cached mapping outlives a change of the store by up to an hour.
- Resolver.SymbolResolver.ResolveCoinID: recording unknown symbols with a guessed base asset; serialising a mapping and reading it back is the identity.
- Impact.Service.RunOnce: the order and limit of the pending list are arbitrary; the counters, the list of failed articles and percentages are not modelled.
- Circuit.CircuitBreaker.Failure: the lock makes calls atomic; the zero time is the absence of a time.
- Proxy.ProxyWithFallback: request and reply bodies and headers, path and query rewriting, chain tables.
- MacroLabels.LabelCandleEvents: surprise, drift, volatility and environment labels, and the parsing of feeds.
- Inflight.AgentRouter.Ask: error texts; cancelling a call while a provider is asked.
- Entitlement.CheckNetworks: contract calls are opaque answers, and a network's source label is a given string.
- Entitlement.SubscriptionResolver.ResolveEntitlement: a cached fallback plan may stem from a call with another fallback; this is kept as the source has it.
- Usernames.UsernameCandidate: characters stand for bytes, which agree for sanitised names.
- Text.Lower and Text.Upper map the ASCII letters and the few other characters that map to ASCII; other letters are left as they are.
- Floating-point rounding and not-a-number: prices and spreads are reals.
- HTTP handlers, middleware, environment parsing, SQL drivers, Redis, web sockets, and the download, archive, coverage, DeFi and training jobs.
