# BETNG: proofs about the protocols, codecs and arithmetic

BETNG is a virtual-football betting platform. This Dafny project models the parts of its code whose
correctness is not visible from reading one function: shared counters and locks used by several processes,
asynchronous readers whose answers arrive in any order, caches that must agree with a simple history, text
formats that must read back as written, and the money and league arithmetic.

`dafny verify dfyconfig.toml` checks everything.

## How the models are built

- Each component is a module. A protocol is given twice. The **class** has the fields the code updates, and
  one method per stretch of code between two awaits; each method's `ensures` states the whole new state as a
  function of the old one. The **state machine** (`Step`, `Run`) puts those stretches of any number of
  processes, with failures and clock steps, into any order. The theorems are about every `Run`.
- State machines carry bookkeeping that the code does not have (what was admitted, landed, served, written,
  signalled): the theorems are stated about that record.
- Code made of expressions is functions; what it promises is lemmas about them, against a definition that was
  written independently (a reader of RFC 4180, the truncation of RFC 4226, sums over a team's own history, a
  floor of a decimal number, "the forty ids written last").
- Where a promise holds only under a condition, the condition is proved exact, as an if-and-only-if
  (`EntryKeysSeparate`, `CsvReadsBack`, `GuardMerges`, `DecodeEncode`, `RejectedTrimBreaksTheBound`,
  `RevokedIsForgotten`, `LateStoreOutlivesSession`, `PlacedBetsSettle`, `RetryPays`, `OnlyTheAccountHoldsUp`,
  `PastItsEndOnlyIfSetAfterIt`, `TimerEndsEarlyOnlyBeyondMaxDelay`,
  `ToggleTwiceRestores`, `KeysRepeatExactly`, `SharedReferenceIsRetry`, `ReadsStartExactly`, `EntryIsWrittenExactly`).

Two of the repository's own statements do not hold as written, and the code is followed: the slip rounds the return
half up where the architecture document (docs/architecture.md:52) floors it, and deleting the cache key does not by
itself keep a revoked session from being served (docs/backend-interfaces.md:43). `Payout.ShownAgainstPaid` and
`ActorCache.RevokedIsForgotten` say exactly what holds instead; `Payout.ShownCanExceedPaid` and
`ActorCache.RevokedIsServedOnce` are the inputs.

| module | what it proves |
|---|---|
| `RateLimiter` | at most `limit` fail-closed hits per Redis window and fewer than `2 * limit` in any span of one window, over all processes and lost replies; every hit is admitted or turned away exactly as its count says; the breaker is quiet for two seconds and warns once |
| `OfflineCache`, `CachedDataSource` | the flat store with its own index refines "the last forty distinct ids written"; a fallback answer is the last stored answer, at most a day old |
| `UseAsync` | landed tickets increase, belong to the newest run and never cross a cleanup; flags follow the newest run; exactly which events read again |
| `TotpLock`, `Hotp` | one caller in the lock, no step twice, each step timely; the code is the one of RFC 4226 |
| `ServiceWorker` | the cache is bounded whenever no store is under way and the last storer could trim, served answers are genuine and recent, "fresh" answers "stale" |
| `Session`, `SessionMonitor` | timer, token and storage follow the status; never signed in past the expiry; the monitor's phase and notifications follow the store |
| `ActorCache` | an actor served from the cache is identity's answer for that token, in time; exactly when a revoked one is still served |
| `Evaluation`, `Payout`, `Settlement` | for every score one selection of a market wins; a placed bet resolves to an acceptable payout, whatever the outcomes; shown against paid; each bet is paid once, exactly what its legs resolve to, under any retries and lost or repeated requests, and only the customer's account can hold it up; no account is overdrawn |
| `BetSlip`, `Submission`, `AttemptKey` | slips stay well formed; two calls share a reference, or a key, exactly when the later one is an unchanged retry |
| `Csv`, `Money`, `Fastbet` | printing and reading back, and what reading means on all other inputs; what a code bets on, against settlement's evaluation |
| `Odds`, `Standings`, `PageRows`, `NodeCrypto` | one rounding and its bounds; conservation and ranking; pages of a stable sort; unbiased sampling |

`Sequences`, `Numbers`, `Decimal`, `Text`, `Cardinality` and `Wrappers` hold what several modules share.

## Assumptions

- One clock, in whole milliseconds since 1970, that never runs backwards. A Redis key is gone once the clock reaches its
  expiry. INCR, EXPIRE NX and TTL in one MULTI are one indivisible step; so are `mkdir`, one write of a file
  and one Cache API call.
- The locale orders the names of the teams of a table. SHA-256 is an injective parameter of `ActorCache`, HMAC-SHA-1 a parameter of `Hotp`, JSON a parameter that
  reads back what it wrote. Generated references and keys never repeat.
- The configuration refuses a rate-limit window of zero seconds (apps/gateway/src/configs/gateway.config.ts:104-106), so windows are
  at least one second long.

## Model

| member | source | states |
|---|---|---|
| RateLimiter.Redis.IncrExpireTtl | apps/gateway/src/clients/rateLimiter.redis.ts:32-37 | a live counter gains one and keeps its end, a dead or absent one starts at one with a full window; no other key changes |
| RateLimiter.Limiter.constructor | apps/gateway/src/clients/rateLimiter.redis.ts:22-23 | a process starts with no warning pending and the breaker closed |
| RateLimiter.Limiter.Begin | apps/gateway/src/clients/rateLimiter.redis.ts:57-71 | a limit of zero admits at once; without Redis, or while the breaker is open, the hit is settled by `failClosed` alone |
| RateLimiter.Limiter.Answered | apps/gateway/src/clients/rateLimiter.redis.ts:39-80 | a reply clears the warning, leaves the breaker, and refuses exactly counts over the limit |
| RateLimiter.Limiter.Failed | apps/gateway/src/clients/rateLimiter.redis.ts:42-53 | a failure opens the breaker for two seconds and logs only if no warning is pending |
| RateLimiter.RunIsSafe | apps/gateway/src/clients/rateLimiter.redis.ts:25-81 | in every run, counts of one window are pairwise different, windows of one key never overlap, and every admission was counted within the limit |
| RateLimiter.AtMostLimitPerWindow | apps/gateway/src/clients/rateLimiter.redis.ts:25-81 | fail-closed hits under one rule: no admission without a count and at most `limit` per window, whatever was lost or failed |
| RateLimiter.FewerThanTwiceLimitPerSpan | apps/gateway/src/clients/rateLimiter.redis.ts:25-81 | fewer than `2 * limit` admissions are counted in any half-open span of one window length |
| RateLimiter.HitsNeverExtendAWindow | apps/gateway/src/clients/rateLimiter.redis.ts:32-37 | no event moves the end of a live window; a counted hit, admitted or refused, adds one |
| RateLimiter.RetryAfterWithinWindow | apps/gateway/src/clients/rateLimiter.redis.ts:74-79 | in every run, a hit refused on a key under one rule is told to wait between one second and the window length |
| RateLimiter.EveryHitIsAnswered | apps/gateway/src/clients/rateLimiter.redis.ts:57-81 | in every run: a hit settled by a reply is admitted if and only if its recorded count is within its rule's limit, and otherwise told the seconds to the end of its window, to the nearest, or the window length where that is none; a hit settled without one is unavailable if it fails closed under a positive limit and admitted otherwise |
| RateLimiter.HitsSettleOnce | apps/gateway/src/clients/rateLimiter.redis.ts:25-81 | in every reachable state: the delivery of a reply settles its hit, with that reply; a failure settles the hit without one and is recorded; a hit is settled at once or sent; and nothing settled is ever settled again |
| RateLimiter.HitsAreCounted | apps/gateway/src/clients/rateLimiter.redis.ts:32-37 | in every run: what Redis counts for a hit is the hit's number in its window, which is the one open on the key or a new one as long as the rule says, and a caller still waiting gets that number |
| RateLimiter.BreakerHolds | apps/gateway/src/clients/rateLimiter.redis.ts:25-54 | no process starts an attempt within two seconds after its own failure; between two of its warnings Redis answered it |
| RateLimiter.RefusedOnlyWhenFull | apps/gateway/src/clients/rateLimiter.redis.ts:32-80 | under any mix of rules, a hit is refused as one too many only if its window counted as many other hits on the key as its limit allows |
| RateLimiter.AttemptsExactlyWhenQuiet | apps/gateway/src/clients/rateLimiter.redis.ts:25-43 | a hit is sent to Redis if and only if its limit is positive, its process has a Redis and recorded no failure in the last two seconds |
| RateLimiter.EveryFailureWarned | apps/gateway/src/clients/rateLimiter.redis.ts:42-50 | at every failure a warning of the process is pending, or one is given with it |
| OfflineCache.EntryKeysSeparate | apps/mobile/src/platform/offlineCache.ts:46-48 | an entry never lands on the index; two queries share an entry exactly when kind and cleaned, cut key agree |
| OfflineCache.KeyCharCodes | apps/mobile/src/platform/offlineCache.ts:46-48 | which characters a key keeps |
| OfflineCache.EntryKeyShape | apps/mobile/src/platform/offlineCache.ts:46-48 | entry keys are clean and cut at 120; a clean, short key stands in them unchanged |
| OfflineCache.LastWriteAppended | apps/mobile/src/platform/offlineCache.ts:95-104 | a write makes its id the last written and leaves the last write of every other id |
| OfflineCache.IndexIsRecent | apps/mobile/src/platform/offlineCache.ts:95-104 | the index is duplicate-free, ordered by last write, at most forty long, and lists exactly the forty ids written last |
| OfflineCache.IndexAfterWrite | apps/mobile/src/platform/offlineCache.ts:95-104 | moving the id to the end of the trimmed index and trimming again gives the index of the longer history |
| OfflineCache.WriteSucceeds | apps/mobile/src/platform/offlineCache.ts:95-104 | evicting, setting the entry and setting the index leaves a store that represents the longer history |
| OfflineCache.StoreIsRecentForty | apps/mobile/src/platform/offlineCache.ts:81-105 | besides the index the store holds exactly the recent ids, never more than forty: no entry outlives its index slot |
| OfflineCache.OfflineCache.constructor | apps/mobile/src/platform/offlineCache.ts:50-51 | an empty store represents the empty history |
| OfflineCache.OfflineCache.ReadIndex | apps/mobile/src/platform/offlineCache.ts:53-61 | the index read back is the one of the history |
| OfflineCache.OfflineCache.Read | apps/mobile/src/platform/offlineCache.ts:64-80 | the last value written under the query's id, if and only if it is among the forty last ids and at most a day old |
| OfflineCache.OfflineCache.Evict | apps/mobile/src/platform/offlineCache.ts:97-101 | the loop keeps the last forty ids and removes exactly the others from the store |
| OfflineCache.OfflineCache.Commit | apps/mobile/src/platform/offlineCache.ts:94-104 | the history grows by the entry and is still represented |
| OfflineCache.OfflineCache.Write | apps/mobile/src/platform/offlineCache.ts:81-105 | an accepted write joins the history; one of another kind, unprintable or too long changes nothing at all |
| CachedDataSource.Cached | apps/mobile/src/platform/cachedDataSource.ts:26-40 | an answer is stored and returned; a failure is rethrown unless it is a connectivity error and the cache has an answer |
| CachedDataSource.HistoryGrows | apps/mobile/src/platform/cachedDataSource.ts:26-40 | the history the queries leave starts empty and grows by what each query stores |
| CachedDataSource.LastSave | apps/mobile/src/platform/cachedDataSource.ts:26-40 | the value the cache holds for an id is that of the last query that stored under it |
| CachedDataSource.FallbackIsLastAnswer | apps/mobile/src/platform/cachedDataSource.ts:26-40 | a failed read that answers does so after a connectivity error, with the very answer of the last storable read of the entry, at most a day before |
| UseAsync.Hook.constructor | apps/mobile/src/hooks/useAsync.ts:22-28 | the hook starts loading, with nothing in flight |
| UseAsync.Hook.RunRead | apps/mobile/src/hooks/useAsync.ts:32-37 | a run takes the next ticket and becomes the one in flight; a manual one shows as refreshing |
| UseAsync.Hook.Finish | apps/mobile/src/hooks/useAsync.ts:39-55 | a result changes what is shown only if its ticket is the current one |
| UseAsync.Hook.ClearInFlight | apps/mobile/src/hooks/useAsync.ts:58-60 | a settled run clears the in-flight mark only if it is its own |
| UseAsync.Hook.Background | apps/mobile/src/hooks/useAsync.ts:65-67 | a tick starts a read only when none is in flight |
| UseAsync.Hook.Mount | apps/mobile/src/hooks/useAsync.ts:69-81 | the effect forgets what is in flight, resets the flags and starts a read |
| UseAsync.Hook.Unmount | apps/mobile/src/hooks/useAsync.ts:82-86 | the cleanup disowns every running read and stops the ticks |
| UseAsync.Hook.RefreshNow | apps/mobile/src/hooks/useAsync.ts:90-90 | a manual refresh starts a read whatever is running |
| UseAsync.RunIsSound | apps/mobile/src/hooks/useAsync.ts:26-90 | in every run landed tickets strictly increase, each landing is the newest run's and in the epoch that run began in; while mounted `refreshing` holds iff the newest run is manual and unfinished, `loading` iff nothing landed since the effect; the data shown is the last that landed |
| UseAsync.ReadsStartExactly | apps/mobile/src/hooks/useAsync.ts:32-90 | in every run, exactly these start a read, one each with a ticket above all others: the effect, the user, and a tick while mounted if and only if the newest run has been through its `finally` |
| UseAsync.PollGoesOn | apps/mobile/src/hooks/useAsync.ts:58-75 | in every run: when the newest run of a mounted hook settles and its `finally` runs, the next tick reads again |
| UseAsync.ActiveWhileMounted | apps/mobile/src/hooks/useAsync.ts:69-86 | ticks are installed exactly from an effect to its cleanup |
| UseAsync.TickNeverOverlaps | apps/mobile/src/hooks/useAsync.ts:65-67 | a tick never starts a read while the newest read is unfinished |
| UseAsync.CleanupDisowns | apps/mobile/src/hooks/useAsync.ts:82-86 | a run begun before the last effect or cleanup settles without changing anything shown |
| UseAsync.NewestRunLands | apps/mobile/src/hooks/useAsync.ts:39-55 | while mounted the newest run, whenever it ends, is the one whose outcome is shown, and every other run ends unseen |
| TotpLock.Files.constructor | e2e/support/platform.ts:68-76 | no lock is held and the file is as found |
| TotpLock.Files.Mkdir | e2e/support/platform.ts:51-58 | exactly one maker of the directory succeeds until it is removed |
| TotpLock.Files.Rmdir | e2e/support/platform.ts:60-64 | leaving removes the directory |
| TotpLock.Files.TakeStep | e2e/support/platform.ts:75-82 | the step is the later of the clock step and the one after the file's, written only once the clock is at most one step behind it |
| TotpLock.NoStepTwice | e2e/support/platform.ts:48-85 | for any number of callers, failing anywhere: one holder of the lock, steps written and returned in strictly increasing order, each at least the clock step when computed and at most one ahead on return |
| TotpLock.WrittenWhenDue | e2e/support/platform.ts:78-82 | a chosen step is written as soon as the clock is at most one step behind it, and not before |
| TotpLock.LockIsReleased | e2e/support/platform.ts:60-64 | when the holder returns or throws, the next try of another caller gets the lock |
| TotpLock.AheadOnlyByOne | e2e/support/platform.ts:76-81 | no step is skipped without need: each written step is the clock step of its moment or the very next after the one written before |
| Hotp.AlphabetTable | e2e/support/platform.ts:32-32 | position and letter are inverse and are the table's index and `indexOf` |
| Hotp.ValueOfBits | e2e/support/platform.ts:36-37 | the zero-padded binary digits of a number have that number as their value |
| Hotp.DecodeEncode | e2e/support/global-setup.ts:41-45 | decoding an encoded secret gives back the bytes if and only if their number is a multiple of five, and otherwise the bytes before the dropped bits |
| Hotp.CounterReadsBack | e2e/support/platform.ts:38-40 | the counter bytes are the step, big-endian |
| Hotp.TruncateIsDynamicTruncation | e2e/support/platform.ts:42-45 | for any twenty-byte digest the read is in range and the masked word is the DT of RFC 4226 section 5.3 |
| Hotp.HotpFollowsRfc4226 | e2e/support/platform.ts:35-46 | the code is the six decimal digits of DT of the HMAC of the original key and the step, modulo a million |
| ServiceWorker.Worker.constructor | apps/web/sw/sw.js:66-66 | nothing cached, no stale client |
| ServiceWorker.Worker.Store | apps/web/sw/sw.js:68-73 | the new entry replaces the one for its request and is the last |
| ServiceWorker.Worker.Trim | apps/web/sw/sw.js:75-77 | the surplus keys are deleted in order until one deletion is rejected, none if the listing is; a loop that ends leaves at most eighty |
| ServiceWorker.Worker.Answered | apps/web/sw/sw.js:86-89 | the client is told "fresh" exactly when it was stale, and is no longer |
| ServiceWorker.Worker.Unreachable | apps/web/sw/sw.js:92-101 | a cached answer is served exactly when there is one at most ten minutes old, and only then the client turns stale |
| ServiceWorker.CacheIsBounded | apps/web/sw/sw.js:68-78 | for every interleaving, with any call of any task rejected and the worker stopped at any time: once no `remember` is under way the cache holds at most eighty entries unless the trim of the last storer was cut short, and it is never over by more than was stored since a last storer's trim finished |
| ServiceWorker.RejectedTrimBreaksTheBound | apps/web/sw/sw.js:68-78 | one more `remember` on an idle worker, its listing rejected or its deletions rejected after any number, leaves at most eighty entries if and only if fewer than eighty other requests were cached or the deletions done cover the surplus |
| ServiceWorker.RejectedTrimsPileUp | apps/web/sw/sw.js:75-77 | with `keys` rejected every time, `n` answers to different requests leave `n` entries and nothing under way |
| ServiceWorker.OneEntryPerRequest | apps/web/sw/sw.js:68-78 | for every interleaving the cache holds one entry per request |
| ServiceWorker.TrimKeepsNewest | apps/web/sw/sw.js:75-77 | trimming keeps exactly the newest eighty entries, in order |
| ServiceWorker.ServedAreRecent | apps/web/sw/sw.js:80-102 | every cached answer served is one the network gave to that very request, and may be kept, stored at most ten minutes before |
| ServiceWorker.AskFindsTheEntry | apps/web/sw/sw.js:92-92 | in every run, the cache asked for a request gives its one entry, and nothing if and only if it has none |
| ServiceWorker.YoungAnswersAreServed | apps/web/sw/sw.js:93-101 | what the cache gave is served, and announced as stale, if and only if it is at most ten minutes old by then |
| ServiceWorker.FailureIsAnsweredFromCache | apps/web/sw/sw.js:91-101 | in every run, a fetch that fails is answered from the cache if and only if a young entry of its request is in it, and with that entry |
| ServiceWorker.FreshAnswersStale | apps/web/sw/sw.js:86-101 | before every "fresh" to a client there is a "stale" to it with no "fresh" in between |
| ServiceWorker.FreshExactlyAfterStale | apps/web/sw/sw.js:86-89 | while the worker is not restarted, an answer is announced as fresh exactly when the client was last told its data was stale |
| Csv.CsvReadsBack | apps/admin/src/lib/csv.ts:4-14 | an RFC 4180 reader gets back the guarded cells row by row if and only if no row is empty |
| Csv.CsvIsInjective | apps/admin/src/lib/csv.ts:12-14 | tables without empty rows with the same text have the same guarded cells |
| Csv.GuardMerges | apps/admin/src/lib/csv.ts:3-10 | no guarded text starts a formula, and the guard merges only a formula with its own guarded spelling |
| Session.SessionStore.constructor | packages/ui-core/src/session.ts:83-94 | a new store restores an unexpired saved session and otherwise empties the storage |
| Session.SessionStore.PersistCopy | packages/ui-core/src/session.ts:35-40 | storage holds the kept form of the session, or is emptied |
| Session.SessionStore.Apply | packages/ui-core/src/session.ts:42-54 | the state is replaced and the timer re-armed exactly for a live session |
| Session.SessionStore.SetSession | packages/ui-core/src/session.ts:61-64 | signed in, stored, timer armed |
| Session.SessionStore.ClearSession | packages/ui-core/src/session.ts:65-68 | anonymous, storage emptied, no timer |
| Session.SessionStore.ExpireSession | packages/ui-core/src/session.ts:69-73 | only a live session expires; the state keeps who it was |
| Session.RunIsSound | packages/ui-core/src/session.ts:30-97 | in every reachable state: timer armed iff signed in, token defined iff signed in, storage decodes to the session iff signed in and is empty otherwise, EXPIRED entered only from AUTHENTICATED |
| Session.TokenIsLastSet | packages/ui-core/src/session.ts:58-97 | in every run the session kept is the one set last, or restored if none was, unless signed out since; the token handed out while signed in is its own |
| Session.SignedInUntil | packages/ui-core/src/session.ts:61-73 | a set session is signed in until a sign-out, a refusal or a timer that is due; only a refusal or the timer leaves a session expired |
| Session.NeverOverdue | packages/ui-core/src/session.ts:46-52 | with punctual timers the store is never signed in past the session's end (or past the moment it was set, if it had ended by then) |
| Session.PastItsEndOnlyIfSetAfterIt | packages/ui-core/src/session.ts:46-52 | with punctual timers a dated session is live past its end if and only if it was set, or restored, after its end |
| Session.EndedSessionIsBrieflyLive | packages/ui-core/src/session.ts:61-64 | setting an ended session reaches that state, and its timer of no delay ends it |
| Session.TimerEndsEarlyOnlyBeyondMaxDelay | packages/ui-core/src/session.ts:46-52 | in every run, a timer that fires before the session's end was armed with more than two billion milliseconds left; one that fires at its deadline is early if and only if it was |
| Session.LongSessionsEndEarly | packages/ui-core/src/session.ts:46-52 | every longer session, set and left alone, reaches such an early end under punctual timers |
| Session.RestartRestores | packages/ui-core/src/session.ts:83-94 | after any run, a new store on the same storage signs the same person in iff the session has not run out, and otherwise empties the storage |
| Session.CredentialNeverStored | packages/ui-core/src/session.ts:107-121 | behind `withoutCredential`, storage never comes to hold a token and none but the placeholder is restored |
| SessionMonitor.SessionMonitor.constructor | packages/ui-core/src/sessionMonitor.ts:62-68 | the monitor starts with the state computed from its store |
| SessionMonitor.SessionMonitor.Refreshed | packages/ui-core/src/sessionMonitor.ts:48-54 | the state becomes the computed one; listeners fire iff it changed and they are not disposed of |
| SessionMonitor.SessionMonitor.Rescheduled | packages/ui-core/src/sessionMonitor.ts:56-60 | the interval runs iff the store is signed in |
| SessionMonitor.SessionMonitor.OnStoreEvent | packages/ui-core/src/sessionMonitor.ts:62-65 | after a store event state and interval follow the store |
| SessionMonitor.SessionMonitor.Dispose | packages/ui-core/src/sessionMonitor.ts:95-99 | nothing ticks and nobody is told any more |
| SessionMonitor.ChangedIsNewFace | packages/ui-core/src/sessionMonitor.ts:48-54 | listeners are told exactly when the phase, or the whole second while expiring, is another |
| SessionMonitor.WarningIsExact | packages/ui-core/src/sessionMonitor.ts:37-46 | the warning is up exactly from `warnBeforeMs` before the end of a live session on, and stays up |
| SessionMonitor.RunFollows | packages/ui-core/src/sessionMonitor.ts:33-100 | in every run until disposal the phase fits the store, the interval runs iff signed in, and the last notification, or the face at creation before any, is what the monitor holds, never twice the same in a row |
| SessionMonitor.SubscriberIsCurrent | packages/ui-core/src/sessionMonitor.ts:70-79 | whoever reads the state at any moment and then follows the notifications knows the phase and second the monitor holds |
| SessionMonitor.QuietEvents | packages/ui-core/src/sessionMonitor.ts:48-68 | the passing of time alone tells the monitor nothing, nor does a tick of an interval that does not run |
| SessionMonitor.StateIsCurrent | packages/ui-core/src/sessionMonitor.ts:37-68 | right after a store event, a tick or a refresh the state is the one computed from the store at that moment, and its rest runs to the very end of the session |
| Standings.CountGoals | packages/ui-core/src/standings.ts:54-59 | both tallies gain the match and its goals as their team saw them |
| Standings.CountOutcome | packages/ui-core/src/standings.ts:61-77 | both tallies gain the outcome as their team saw it |
| Standings.Record | packages/ui-core/src/standings.ts:52-77 | both tallies gain the whole match, also when they are one and the same |
| Standings.BlankTallies | packages/ui-core/src/standings.ts:40-40 | one fresh blank tally per team id |
| Standings.CountMatch | packages/ui-core/src/standings.ts:44-78 | if every tally agrees with its team's history before, it does after the match, which counts only between teams of the league |
| Standings.RowFrom | packages/ui-core/src/standings.ts:80-94 | a tally that agrees with a history gives the row of its sums, form being the last five outcomes |
| Standings.RowsFrom | packages/ui-core/src/standings.ts:79-94 | one row per team, in the order of the teams, from the histories |
| Standings.ComputeStandings | packages/ui-core/src/standings.ts:32-106 | the whole pass computes the table defined without tallies: per-team sums, ranked and numbered |
| Standings.TableIsRanked | packages/ui-core/src/standings.ts:95-103 | one row per team, stably sorted by points, goal difference, goals and name, numbered from one |
| Standings.TableFollowsTheRules | packages/ui-core/src/standings.ts:95-101 | down the table points do not rise; at equal points the goal difference does not, at equal both the goals scored do not, and at equal all three the names are in order |
| Standings.RowsAddUp | packages/ui-core/src/standings.ts:44-94 | every row sums its team's counted matches: played, won, drawn, lost, goals each way, three points a win and one a draw, and the letters of its last five |
| Standings.WinnerIsAbove | packages/ui-core/src/standings.ts:61-103 | after one decisive match the winner has one win and three points, the loser one defeat and none, and the winner is above |
| Standings.AppearancesConserve | packages/ui-core/src/standings.ts:44-78 | matches played, over the table, are two per counted match |
| Standings.DifferencesCancel | packages/ui-core/src/standings.ts:44-90 | goal difference sums to zero over the table, and wins equal losses |
| Standings.PointsConserve | packages/ui-core/src/standings.ts:62-92 | points sum to three per decisive and two per drawn counted match |
| Standings.LatestMatchdayIsMax | packages/ui-core/src/standings.ts:50-50 | matchdays played is the highest matchday of a counted match, at least zero |
| Standings.OrderChangesOnlyForm | packages/ui-core/src/standings.ts:32-106 | permuting the results changes nothing in the table but the form of its rows |
| Sequences.SortIsStable | packages/ui-core/src/standings.ts:95-101 | the sort used gives a permutation, sorted, with ties in their order, whenever the order is one on the elements sorted |
| Sequences.StableSortIsUnique | packages/ui-core/src/standings.ts:95-101 | any stable sort by the same order gives the same sequence |
| Odds.ScaleSplits | packages/ui-core/src/money.ts:111-112 | the divisor by a hundred is exact and both divisors are even, so half of each is exact |
| Odds.ReturnIsHalfUp | packages/ui-core/src/money.ts:117-128 | the return is the exact product rounded half up, off by half a minor unit at most |
| Odds.TotalOddsAreHalfUp | packages/ui-core/src/money.ts:108-115 | the total odds shown are the exact product of the prices rounded half up to a hundredth |
| Odds.NothingToShow | packages/ui-core/src/money.ts:108-128 | an empty slip shows no odds and no return, and a stake of nothing no return |
| Odds.ReturnGrows | packages/ui-core/src/money.ts:117-128 | the return is monotone in the stake and in each price |
| Odds.LegOrderIsIrrelevant | packages/ui-core/src/betslip.ts:55-71 | the slip's totals do not depend on the order of its legs |
| Odds.SplittingCostsAtMostOne | packages/ui-core/src/money.ts:117-128 | splitting a stake over two slips changes the total return by at most one minor unit |
| Odds.ReturnFollowsDisplayedOdds | packages/ui-core/src/money.ts:108-128 | the return differs from stake times displayed odds by at most a two-hundredth of the stake and half a unit |
| Odds.ProfitIsExact | packages/ui-core/src/betslip.ts:55-71 | with prices of at least one the return covers the stake, so the profit shown is return less stake |
| Money.SplitAddsUp | packages/ui-core/src/money.ts:38-44 | whole and padded fraction together are the amount |
| Money.GroupsOfThree | packages/ui-core/src/money.ts:46-65 | counted from the right, exactly every fourth character of the grouped digits is a comma |
| Money.FirstOccurrenceGoes | packages/ui-core/src/money.ts:89-89 | of the cleaned text the first occurrence of the symbol goes, wherever it stands, and nothing else |
| Money.NothingGoes | packages/ui-core/src/money.ts:89-89 | a text without the symbol stays as it is |
| Text.SpaceCodes | packages/ui-core/src/money.ts:89-89 | which characters are white space |
| Money.SeparatorsAreFree | packages/ui-core/src/money.ts:89-89 | a space, comma or underscore anywhere changes nothing in what is read |
| Money.MatchesWhatIsWritten | packages/ui-core/src/money.ts:90-90 | the pattern finds whole and fraction exactly where the text is digits, or digits, a point and perhaps digits, and finds those |
| Money.ParsesToFloor | packages/ui-core/src/money.ts:85-99 | a text is read as `v` if and only if what is left of it writes an amount whose exact decimal value has floor `v` in minor units and `v` is safe |
| Money.FormatReadsBack | packages/ui-core/src/money.ts:52-99 | every safe amount, in any currency with a clear symbol, reads back from its print |
| Money.WholeFormatReadsBack | packages/ui-core/src/money.ts:52-99 | printed without fraction, an amount reads back as its whole units |
| Money.SignedIsNeverRead | packages/ui-core/src/money.ts:52-99 | a printed amount with a sign is never read as a typed amount |
| ActorCache.Ttl | apps/gateway/src/clients/actor.resolver.ts:71-74 | the lifetime is the largest positive number of whole seconds within `cacheSeconds` and within the session, and none if and only if there is no such number |
| ActorCache.RefusalFor | apps/gateway/src/clients/actor.resolver.ts:98-123 | which codes say the session has expired and which ask to sign in again; every other failure is the upstream's |
| ActorCache.Resolver.constructor | apps/gateway/src/clients/actor.resolver.ts:51-53 | an empty cache |
| ActorCache.Resolver.ReadCache | apps/gateway/src/clients/actor.resolver.ts:55-66 | the live value under the key, and nothing without Redis, caching or a working read |
| ActorCache.Resolver.WriteCache | apps/gateway/src/clients/actor.resolver.ts:68-79 | the key is set for the lifetime if there is one and the command succeeds, and nothing else changes |
| ActorCache.Resolver.Resolve | apps/gateway/src/clients/actor.resolver.ts:82-124 | a hit is answered without a write, a refusal caches nothing and maps to its error, an answer is returned and cached under its own key only |
| ActorCache.ServedFromIdentity | apps/gateway/src/clients/actor.resolver.ts:55-97 | over every run, an actor served from the cache is identity's answer for that very token, stored less than `cacheSeconds` earlier |
| ActorCache.NeverServedPastExpiry | apps/gateway/src/clients/actor.resolver.ts:68-79 | in every run, an answer stored so early that its lifetime ends with the session is never found in Redis, and so never served, by a read at or after the session's end |
| ActorCache.UndelayedIsInTime | apps/gateway/src/clients/actor.resolver.ts:71-78 | an answer whose store command takes effect at once is stored that early |
| ActorCache.LateStoreOutlivesSession | apps/gateway/src/clients/actor.resolver.ts:71-78 | a pending answer, stored now, is served by a resolve at the end of its session if and only if it was stored too late for its lifetime |
| ActorCache.RevokedIsForgotten | apps/gateway/src/clients/actor.resolver.ts:55-97 | in every reachable state, once identity deletes the key and gives no more answers on the token, some run still serves it from the cache if and only if, at the deletion, Redis had found it for a read whose reply was on its way, an answer on it was on its way to Redis, or one was on its way to the gateway with a lifetime left to cache it for |
| ActorCache.StoreUndoesRevocation | apps/gateway/src/clients/actor.resolver.ts:68-97 | in every reachable state, each such read or answer, left to run on after the deletion, serves the token once more, with the actor it carries |
| ActorCache.RevokedIsServedOnce | apps/gateway/src/clients/actor.resolver.ts:82-97 | one resolve that stores an answer and one that finds it, with the deletion at any moment after identity answered: the revoked actor is served while a reply or the store is on its way, and not while the value is only in Redis |
| ActorCache.ServedIsStoredSince | apps/gateway/src/clients/actor.resolver.ts:35-38 | whatever is served for a token after the deletion was stored since, or found by Redis before and on its way |
| BetSlip.SlipStaysWellFormed | packages/ui-core/src/betslip.ts:20-42 | any run of toggles and removals keeps at most twenty selections with distinct ids and distinct matches |
| BetSlip.RemoveTakesOut | packages/ui-core/src/betslip.ts:37-42 | a removal takes exactly its selection off and leaves the others in order, or changes nothing |
| BetSlip.ToggleTakesOutOrJoins | packages/ui-core/src/betslip.ts:20-35 | a selection on the slip goes and the others stay in order; a new one takes its match's place at the end, or joins unless twenty stand |
| BetSlip.SecondToggleRemoves | packages/ui-core/src/betslip.ts:20-35 | a new selection replaces its match's and goes last, a full slip refuses it, and a second toggle takes it off |
| BetSlip.ToggleTwiceRestores | packages/ui-core/src/betslip.ts:20-35 | toggling twice restores the slip exactly when nothing of that match stood on it |
| AttemptKey.AttemptKey.constructor | apps/mobile/src/lib/attemptKey.ts:10-11 | no current attempt |
| AttemptKey.AttemptKey.KeyForFingerprint | apps/mobile/src/lib/attemptKey.ts:14-18 | the key returned belongs to the fingerprint; a new one is made only if it differs from the current |
| AttemptKey.AttemptKey.ResetKey | apps/mobile/src/lib/attemptKey.ts:19-21 | the attempt is forgotten |
| AttemptKey.KeysRepeatExactly | apps/mobile/src/lib/attemptKey.ts:10-23 | two calls get the same key if and only if the request is the same and nothing else came between |
| Submission.BetSlipSheet.constructor | apps/mobile/src/components/BetSlipSheet.tsx:76-78 | an empty slip with no reference |
| Submission.BetSlipSheet.OnSlipChange | apps/mobile/src/components/BetSlipSheet.tsx:101-105 | a changed slip has no reference |
| Submission.BetSlipSheet.Begin | apps/mobile/src/components/BetSlipSheet.tsx:154-165 | offline nothing is called; online the reference is reused if there is one and created if not |
| Submission.BetSlipSheet.Settle | apps/mobile/src/components/BetSlipSheet.tsx:107-152 | every answer ends the reference; an acceptance also empties the slip |
| Submission.BetSlipSheet.Fail | apps/mobile/src/components/BetSlipSheet.tsx:166-171 | a call that threw keeps the reference |
| Submission.SharedReferenceIsRetry | apps/mobile/src/components/BetSlipSheet.tsx:101-172 | two calls share a reference if and only if nothing changed and nothing was answered between; then slip and stake are identical and the earlier call threw |
| Submission.EditsApply | packages/ui-core/src/betslip.ts:20-42 | an edit does to the sheet's slip what it does to a slip, also where the sheet sees no change |
| Submission.EditsForget | apps/mobile/src/components/BetSlipSheet.tsx:101-105 | in every reachable state, a new selection for a full slip is the one edit that changes nothing; every other ends the reference |
| Submission.StakeIsSet | apps/mobile/src/components/BetSlipSheet.tsx:96-105 | the stake is the one set last, and another stake ends the reference |
| Submission.SubmissionCalls | apps/mobile/src/components/BetSlipSheet.tsx:154-165 | in every reachable state, a submission calls exactly when online with no call under way, with slip and stake as they stand and the reference kept, or one never used |
| Submission.AnswersEndTheCall | apps/mobile/src/components/BetSlipSheet.tsx:107-152 | an answer ends the call and its reference; one that accepts the bet, in part or whole, empties the slip |
| Submission.FailureKeepsTheCall | apps/mobile/src/components/BetSlipSheet.tsx:160-172 | a call that threw is made again with the same slip, stake and reference |
| Submission.SheetStaysWellFormed | packages/ui-core/src/betslip.ts:20-42 | over every run of edits, submissions and answers the slip stays well formed |
| Fastbet.ReadEntry | packages/ui-core/src/fastbet.ts:57-71 | one turn of the loop: the pick, or the first error that applies |
| Fastbet.ParseFastbet | packages/ui-core/src/fastbet.ts:46-74 | the loop gives the picks of all entries, or the first error |
| Fastbet.MatchIsLongest | packages/ui-core/src/fastbet.ts:27-27 | an entry matches iff it can be read as digits, gap and code, and the digits found are the longest prefix of one or two that leaves a code |
| Fastbet.CharacterCodes | packages/ui-core/src/fastbet.ts:27-49 | which characters are code, dash and separator, and which are made capitals |
| Fastbet.NameReads | packages/ui-core/src/fastbet.ts:31-44 | every accepted spelling of a code has a name that parses to that very code |
| Fastbet.NamesAreUnambiguous | packages/ui-core/src/fastbet.ts:15-44 | two codes have the same name if and only if they bet on the same market, selection and line |
| Fastbet.OnePickPerEntry | packages/ui-core/src/fastbet.ts:46-74 | a successful parse has one pick per non-empty entry, in order, each in range |
| Fastbet.ResultCodesMean | packages/ui-core/src/fastbet.ts:15-18 | for every score, `n 1`, `n X` and `n 2` are one pick on event `n` that settlement finds won when home scored more, as many, or less, and lost otherwise |
| Fastbet.DoubleCodesMean | packages/ui-core/src/fastbet.ts:19-21 | `1X`, `12` and `X2` win exactly when one of their two results does |
| Fastbet.GoalCodesMean | packages/ui-core/src/fastbet.ts:22-23 | `GG` wins exactly when both sides score, and `NG` otherwise |
| Fastbet.TotalCodesMean | packages/ui-core/src/fastbet.ts:26-43 | in every spelling, over a digit wins exactly when more goals than that fall, and under it otherwise |
| Fastbet.PicksAreDecided | packages/ui-core/src/fastbet.ts:46-74 | whatever was typed and whatever the score, settlement finds every pick won or lost, never void |
| Fastbet.PrintReadsBack | packages/ui-core/src/fastbet.ts:46-74 | picks printed as number and name, joined by commas, parse to the same picks |
| Fastbet.ParseIsStable | packages/ui-core/src/fastbet.ts:46-74 | printing what any input was understood as and parsing that gives the same picks |
| Fastbet.CaseAndSeparatorsAreFree | packages/ui-core/src/fastbet.ts:46-51 | inputs that differ only in the case of letters and in which separator stands where parse to the same |
| Fastbet.BlankEntriesAreFree | packages/ui-core/src/fastbet.ts:47-51 | separators with nothing between them but white space count as one, and one at an end as none |
| Evaluation.OneResultWins | apps/services/settlement/src/utils/evaluation.util.ts:34-114 | for every score one result wins and the others lose; likewise of both teams scoring or not, and of the two sides of the spread |
| Evaluation.SelectionsMean | apps/services/settlement/src/utils/evaluation.util.ts:47-114 | a double chance wins exactly when one of its two results does, and the spread is a goal and a half |
| Evaluation.OneCorrectScoreWins | apps/services/settlement/src/utils/evaluation.util.ts:116-137 | for every score exactly one of the sixteen listed scores and the rest wins, and all others lose |
| Evaluation.TotalsMean | apps/services/settlement/src/utils/evaluation.util.ts:72-88 | over wins exactly when the goals exceed the line and under otherwise, with the line stored or not; with another line the leg is void |
| Evaluation.TenthsReadBack | apps/services/settlement/src/utils/evaluation.util.ts:60-69 | a stored line is read back, and exactly, if and only if it is below a thousand |
| Evaluation.VoidIsUnrecognised | apps/services/settlement/src/utils/evaluation.util.ts:28-32 | a leg is void exactly when its market or selection is not recognised |
| Payout.OddsAreExact | apps/services/settlement/src/utils/payout.util.ts:18-36 | stored odds are read if and only if they are a decimal of at most six and two places above zero, and then exactly |
| Payout.Multiply | apps/services/settlement/src/utils/payout.util.ts:57-65 | the loop over the winning legs gives the floor of stake times product over a hundred to the number of legs, or fails on unreadable odds |
| Payout.Resolve | apps/services/settlement/src/utils/payout.util.ts:38-66 | the resolution of a bet, its errors in the order of the code |
| Payout.VoidCountsAsOne | apps/services/settlement/src/utils/payout.util.ts:48-65 | a bet that is not lost pays the floor over all its legs, a void leg counting as 1.00, also where all are void |
| Payout.FormattedPriceReadsBack | apps/services/betting/src/utils/betPricing.helper.ts:16-21 | a price the betting service writes is read by settlement if and only if it is above zero and below a million, and then exactly |
| Payout.PricedAtFloors | apps/services/betting/src/utils/betPricing.helper.ts:45-78 | a slip is refused exactly for a stake or price out of range or for having no leg; its total odds and potential payout are the exact floors, unless one is too large |
| Payout.PlacedBetsSettle | apps/services/betting/src/repositories/bet.repository.ts:178-187 | over the texts stored with the legs of a priced slip: resolving fails if and only if no leg is lost and one is won at a price of a million or more; otherwise the payout fits a safe integer and is accepted by the betting service: nothing if lost, the stake if void, above zero and within the potential payout if won |
| Payout.ShownAgainstPaid | apps/services/settlement/src/utils/payout.util.ts:57-65 | with every leg won the slip showed what is paid or one minor unit more, and the same if and only if less than a half is floored away |
| Payout.ShownCanExceedPaid | apps/services/settlement/src/utils/payout.util.ts:57-65 | the input: a stake of one on one won leg at "1.50" pays one, where the slip showed two |
| Settlement.Ledger.constructor | apps/services/wallet/src/repositories/ledger.ts:64-70 | no accounts and no entries |
| Settlement.Ledger.PostWithinTransaction | apps/services/wallet/src/repositories/ledger.ts:64-124 | an entry under the same key is answered again or conflicts; otherwise entry and balance are written together, unless the account is frozen or the amount does not fit |
| Settlement.SettledOnce | apps/services/betting/src/repositories/bet.repository.ts:159-167 | a resolved bet takes its own settlement again and no other; a cancelled one stays as it is |
| Settlement.RunIsSound | apps/services/settlement/src/services/settlement/effects.applier.ts:66-119 | in every run: stamped settlements are paid up and told to the betting service, every payout entry is the one its bet's settlement calls for, keys are unique per account, and every balance is the sum of its entries |
| Settlement.SettlementIsFinal | apps/services/settlement/src/repositories/settlement.repository.ts:318-370 | a stored settlement stays as it is, whatever later calls make of the legs |
| Settlement.NeverOverdrawn | apps/services/wallet/src/repositories/ledger.ts:91-101 | in every run that reserves no more than there is, no balance is below its reserve, none is beyond a safe integer, and no entry is for nothing |
| Settlement.EntryIsWrittenExactly | apps/services/wallet/src/repositories/ledger.ts:64-124 | in every reachable state a post is written if and only if it is not for nothing, its key is new, the account is open, covers a debit by its entries less its reserve, and has room; otherwise nothing changes |
| Settlement.DebitIsWrittenExactly | apps/services/wallet/src/repositories/ledger.ts:91-95 | a debit under a new key on an open account is written if and only if its entries less the reserve cover it |
| Settlement.AnswersFromLedger | apps/services/wallet/src/repositories/ledger.ts:77-85 | a post is a repeat exactly if the very entry is there, and a conflict exactly if its key stands for another |
| Settlement.HeldAsTold | apps/services/wallet/src/repositories/ledger.ts:87-91 | an account is frozen, and its reserve held, exactly as last told, and neither before that |
| Settlement.PaymentsAreNamed | apps/services/settlement/src/services/settlement/effects.applier.ts:26-47 | every payment on a bet goes to the customer of its settlement, over its payout: a payout under the payout key if won, a refund under the refund key if void |
| Settlement.NoBetPaysBeyondItsTerms | apps/services/betting/src/repositories/bet.repository.ts:178-187 | in every run, whatever is proposed, a bet is resolved to nothing if lost, its stake if void, and to at least one unit and at most its potential payout if won |
| Settlement.EachBetIsPaidOnce | apps/services/settlement/src/services/settlement/effects.applier.ts:26-119 | over any interleaving of settle calls, retries and lost, late or repeated requests, all that is paid on a bet is nothing or what its one settlement owes, and exactly that once it is stamped |
| Settlement.RetryPays | apps/services/settlement/src/services/settlement/effects.applier.ts:86-119 | a retry in which nothing fails stamps a settled bet if and only if the betting service accepts it and the wallet has the credit already or can take it |
| Settlement.OnlyTheAccountHoldsUp | apps/services/settlement/src/services/settlement/effects.applier.ts:26-119 | for bets stored as their slips were priced and proposals that their stored legs resolve to: a retry in which nothing fails stamps a settled bet unless it pays an online customer who is missing, or whose account is frozen or full and has not had the credit |
| Settlement.PaidIsResolved | apps/services/settlement/src/services/settlement/match.settler.ts:341-375 | under the same hypotheses, over any run: once a settlement is stamped, what was paid on the bet is the payout its legs resolve to if it was placed online, and nothing if at a shop, and the betting service has that payout or had cancelled the bet |
| PageRows.PositionsOnlyBreakTies | packages/ui-core/src/pageRows.ts:41-45 | sorting with positions as tie-break is the stable sort without them, in both directions |
| PageRows.ArrangedIsStableSort | packages/ui-core/src/pageRows.ts:31-45 | exactly the rows that pass; stably sorted if a row has the sort column and the comparison orders the rows found; in their order if none has it |
| PageRows.RowsAreInOrder | packages/ui-core/src/pageRows.ts:37-45 | no two sorted rows compare against the direction asked for |
| PageRows.PageSize | packages/ui-core/src/pageRows.ts:47-47 | of the sizes from 1 to 100, the nearest to the one asked for, 25 by default |
| PageRows.PagesAddUp | packages/ui-core/src/pageRows.ts:47-50 | what the requests for pages 1 to the last are answered, laid end to end, is the whole arranged list |
| PageRows.AnswerNamesItsPage | packages/ui-core/src/pageRows.ts:47-50 | the page answered is the one asked for, or the first, the size the nearest allowed, and the items are those of that page |
| PageRows.AnswersFit | packages/ui-core/src/pageRows.ts:47-50 | no answer is longer than the page size, those past the last page are empty, and every answer gives the same total |
| NodeCrypto.RandomInt | apps/mobile/src/platform/nodeCrypto.ts:52-73 | bounds are refused exactly when unsafe or ill-spaced; the result is in range and comes from the first accepted word |
| NodeCrypto.EveryValueEquallyLikely | apps/mobile/src/platform/nodeCrypto.ts:61-70 | every value has exactly `limit / span` accepted words |
| NodeCrypto.MostWordsAccepted | apps/mobile/src/platform/nodeCrypto.ts:61-70 | more than half of all words are accepted, whatever the span |
| NodeCrypto.StampVersion | apps/mobile/src/platform/nodeCrypto.ts:41-46 | version and variant bits are set and every other random bit is kept |

## Left out

- Screens, layouts, navigation, styling, haptics and feedback texts: presentation only.
- Real Redis, RPC, fetch, Cache API, file system, timers and `Intl`: only the operations named above, with failures at any point.
- A process that dies inside the TOTP lock leaves the directory behind for ever; in the model every caller leaves the lock, by returning or by throwing.
- ServiceWorker.CacheIsBounded: the bound of eighty is not unconditional: after a rejected `keys` or `delete`, or a worker stopped on the way, nothing trims before the next store. The condition is in the lemma, and `RejectedTrimsPileUp` reaches the other case.
- The offline cache interrupted between its separate store writes, and storage edited by another tab: the code makes no promise about them.
- RateLimiter.AtMostLimitPerWindow: only for keys hit fail-closed under one rule; a fail-open hit is admitted uncounted while Redis is down, by design.
- ActorCache.ServedFromIdentity: an answer may be served past its session's end when the SET reaches Redis late, because the code computes the lifetime before sending it; `LateStoreOutlivesSession` says exactly when.
- ActorCache.Resolver.WriteCache: a date that does not parse gives Redis a lifetime that is no number; the model takes that command as refused.
- ActorCache.NeverServedPastExpiry: speaks of the moment Redis answers the read; its reply may take longer to reach the gateway.
- ActorCache.RevokedIsForgotten: deleting the key does not by itself keep a revoked session from being served: a reply or a store under way at that moment serves it or puts it back, for at most `cacheSeconds` counted from the SET. The lemma gives the exact condition, `RevokedIsServedOnce` the runs. Identity ends the session before it deletes the key (apps/services/identity/src/services/accountSecurity/commands/revokeSession/revokeSession.handler.ts:29-33), so it gives no answer afterwards; the deletion of the model is one that succeeds, as identity retries until it does.
- RateLimiter.AttemptsExactlyWhenQuiet: asks for a clock that is not before 1970, as the breaker starts at time zero.
- Settlement.EachBetIsPaidOnce: the match-level attempt counter, back-off, audit and notifications are left out, and in-process serialisation is not relied on; which legs a call read is an arbitrary proposal. The keys are told apart by bet and kind, as their texts are by prefix and id.
- Settlement.Ledger.PostWithinTransaction: sequence numbers, currency, references and notes are left out; the opening of an account in a transaction of its own is an account with nothing on it.
- Payout.PlacedBetsSettle: prices are those fixed at placement, in hundredths above 1.00; which outcome a leg has is not tied to a score here; `Evaluation` decides single legs. The failing case cannot be stored as long as the column for a leg's odds is `Decimal(8, 2)` (apps/services/betting/prisma/schema.prisma:99), which holds prices below a million; that the column gives back the text written to it is taken for granted.
- Settlement.OnlyTheAccountHoldsUp: the column's bound on prices is a hypothesis, as is that a call resolves the legs of a bet that exists; which outcomes it read for them is arbitrary.
- Session.NeverOverdue: a session set after its own end, or without a readable date, is signed in until its timer of zero delay fires, and the bound says so.
- Evaluation.OneResultWins: scores are whole numbers, as the code refuses all others.
- Fastbet.TotalCodesMean: the line of a market is taken to be stored as the text of its tenths.
- Hotp.HotpFollowsRfc4226: secrets over the base32 alphabet only; for another character the code joins the text of minus one into the bits, which is not modelled.
- Money.FormatReadsBack: for a locale that groups by threes with commas; other locales, the active-currency switch, `formatMoneyCompact` and `formatCurrency` are not modelled.
- Odds.ReturnIsHalfUp: prices are whole ten-thousandths and results whole numbers; the rounding of a floating-point price to ten-thousandths and results beyond 2^53 are not modelled.
- OfflineCache.EntryKeysSeparate: characters are Unicode scalar values, where the code counts UTF-16 units in the cut at 120.
- Fastbet.ParseFastbet: upper-casing is that of ASCII letters; error texts are their data, without wording.
- PageRows.ArrangedIsStableSort: how a row is searched, filtered and compared is a parameter; the comparison is asked to order the rows found, which numbers and texts mixed in one column need not be.
- NodeCrypto.RandomInt: the words come from a finite list, with an outcome of its own for a source that never gives an accepted word; the hexadecimal layout of a UUID is left out.
- TotpLock.Files.TakeStep: the clock readings of the wait come from a finite list; the waiting loop for the lock is the retrying `Mkdir` event of the state machine.
- UseAsync.Hook.RunRead: a `read` that calls the hook again before its first await is not modelled.
- SessionMonitor.SessionMonitor.Refreshed: listeners that change the store while they are told are not modelled; the answer of `refresh` itself is left out.
- Submission.BetSlipSheet.Begin: one submission at a time, as the disabled button ensures; sign-in on the way to placing is left out.
- Session listeners, `hasPermission`, stake validation, leading-selection labels, the gateway's route table, headers, cookies, redaction and link allowlists: one-branch facts or policy.
