# Verified model of the reliability layer

The service stores profile changes together with the events they cause, delivers those
events at least once, guards periodic work with Redis locks, caches reads, limits request
rates, runs background tasks in a bounded pool and signs tokens with rotating keys. This
project models that layer and proves what it promises. `dafny verify dfyconfig.toml`
checks everything.

Objects the program updates in place (the outbox table, the dispatcher, a lock key, the
cache, the limiter's sorted set, the revocation set, the scheduler's task, the user service)
are classes. Their methods are proved against functions of the old state. Where several
goroutines, processes or nodes interleave, the same functions are the effects of the steps of
a state machine, and a theorem quantifies over every run: every sequence of states and steps
that starts in the initial state. Clocks count nanoseconds, except in the limiter and the
token manager, which count milliseconds.

| file | what it models |
|---|---|
| `Base.dfy` | options, results, units of time |
| `Backoff.dfy` | the retry delay with 64-bit wrap-around |
| `OutboxRepository.dfy`, `OutboxDispatcher.dfy`, `OutboxDrain.dfy` | the outbox table, one dispatch run, many exclusive runs |
| `OutboxProtocol.dfy`, `OutboxSolo.dfy` | concurrent runs step by step, what every interleaving keeps, and why one run alone is a dispatch |
| `OutboxLease.dfy`, `OutboxCalls.dfy`, `OutboxBackoff.dfy` | runs that exclude one another, for whatever reason: finality, publish calls, retry delay |
| `OutboxTiming.dfy`, `SlowBatch.dfy` | how long the operation timeouts let a run take, and a run that takes that long |
| `PollingLease.dfy`, `PollingBound.dfy` | dispatchers that poll under the row lease alone |
| `DistributedLock.dfy`, `Watchdog.dfy` | the Redis lock, and its clients with background renewal |
| `Scheduler.dfy`, `SchedulerLock.dfy`, `SchedulerBound.dfy` | one scheduled task, all of them under the lock, and how long a lock they need |
| `Envelope.dfy`, `ReadThrough.dfy`, `Singleflight.dfy`, `CacheStaleness.dfy` | the cache: stored format, one lookup, concurrent lookups, age of what is served |
| `SlidingWindow.dfy` | the rate limiter and the full log it stands for |
| `WorkerPool.dfy` | submitters, workers and shutdown calls, lock by lock |
| `Jwt.dfy` | parsing under rotating keys, and revocation |
| `UserService.dfy` | profile update and cached profile read |

Limits of the code that the model makes exact:

- `retryBackoff` doubles only while its 64-bit product does. The product is negative for
  attempt 35 and zero from attempt 56 on, so the event is due again at once. `BackoffIsDoubling`
  lists the attempts for which the delay is the doubled one.
- Published and dead are final in polling mode only if a full batch is recorded before its
  lease is stale (`LeaseBoundIsExact`). Config validation does not imply that bound. For
  every configuration outside it there is a run in which a published event becomes pending
  or dead; the shipped values are outside it (`ShippedValuesUndoVerdicts`).
- Scheduled runs exclude each other exactly when a task times out no later than its lock
  expires (`UntimedLockBoundIsExact`). That asks nothing of the operations. If they keep
  their timeouts, and lock commands are answered within a latency, a lock that outlives a
  full batch is enough too (`LockBoundIsExact`), and verdicts are final exactly if tasks or
  batches fit the lock or the row lease (`FinalityBoundIsExact`). Backoff and the bound on
  publish calls hold under the same conditions.
- Watched clients exclude each other exactly when latency, renewal interval and renewal
  timeout stay below the lease (`WatchdogBoundIsExact`).
- The delayed second delete is enough exactly when every flight is strictly shorter than
  the pause (`DoubleDeleteBoundIsExact`). Profile updates use the plain delete, which can
  leave an older entry behind for the longest flight and the longest ttl together, and no
  longer (`StalenessBoundIsExact`).
- An entry that decodes but does not fit the caller's destination is an error as long as
  the second read decodes it. The loader replaces it only when the second read fails or finds
  it gone; `GetOrLoadJSON` states both exactly.
- A nil return of a shutdown call means that every accepted task has run exactly when that
  call found the pool open (`OnlyTheClosingCallWaits`).
- Limiter calls that share a member, which takes two calls with one clock reading, count
  once. The limit survives that exactly when it is one or less (`SharingBoundIsExact`).
- A comment in `parse` says the fallback over all keys serves tokens without a key id. The
  code also falls back when the named key does not verify, and the model follows the code.

## Model

| member | source | states |
|---|---|---|
| Backoff.Wrap64 | internal/event/outbox_dispatcher.go:187 | the one value of the signed 64-bit range that is congruent to the product modulo 2^64 |
| Backoff.BackoffIsDoubling | internal/event/outbox_dispatcher.go:183-192 | for every attempt number: the wrapped product gives one second doubled per failure and capped at five minutes if and only if the attempt is at most 34 or one of eight larger values |
| OutboxRepository.SelectionExists | internal/repository/outbox_repository.go:36-45 | the acquiring query has an answer for every table, limit and set of rows locked elsewhere, so no result that assumes one is vacuous |
| OutboxRepository.NewRow | internal/service/user_events.go:52-62 | a new event carries its topic and payload, is pending, untried, unlocked, and due at the time it is created |
| OutboxRepository.OutboxRepository.Create | internal/repository/outbox_repository.go:28-30 | a fresh id adds exactly one row, a taken id changes nothing |
| OutboxRepository.OutboxRepository.AcquirePending | internal/repository/outbox_repository.go:32-68 | exactly the selected rows become publishing with owner and lock time set, nothing else about them and no other row changes, and the records returned are those rows in the order selected |
| OutboxRepository.OutboxRepository.MarkPublished | internal/repository/outbox_repository.go:70-83 | the row with that id, whoever leased it and whatever its status, is published at that time, without error and unlocked; its other fields and the other rows stay |
| OutboxRepository.OutboxRepository.MarkFailed | internal/repository/outbox_repository.go:85-103 | the row with that id is pending or dead with the given attempts, error and due time, and unlocked; its other fields and the other rows stay |
| OutboxDispatcher.RunSendsWhatWasCommitted | internal/event/outbox_dispatcher.go:138-143 | a run sends one message for each event the query selected and for no other, oldest first, with the topic, payload and time of the event before it was leased |
| OutboxDispatcher.FailureIsRetriedInTime | internal/event/outbox_dispatcher.go:145-151 | the whole row a failed publish call leaves, with the doubled delay in place of the wrapped product, for every attempt that is exact for |
| OutboxDispatcher.BatchStep | internal/event/outbox_dispatcher.go:121-126 | the meaning of a batch grows by exactly the next event: its table, its messages and its first error |
| OutboxDispatcher.FirstErrorIsEarliest | internal/event/outbox_dispatcher.go:121-130 | a run reports no error if and only if no event had one, and otherwise that of the earliest event that had one |
| OutboxDispatcher.OutboxDispatcher.DispatchEvent | internal/event/outbox_dispatcher.go:136-174 | one publish call with the content of the row; a result that cannot be recorded changes nothing; a success is published at the clock read after it; a failure costs one attempt, is due after one second doubled per failure and capped, and is dead exactly from the maximum on; an error is reported if and only if either step failed |
| OutboxDispatcher.OutboxDispatcher.DispatchAll | internal/event/outbox_dispatcher.go:121-126 | the loop over a batch publishes every event once in order, records every result and keeps the first error |
| OutboxDispatcher.OutboxDispatcher.DispatchOnce | internal/event/outbox_dispatcher.go:104-134 | a failed acquire changes nothing and is reported; otherwise lease, publish and record the batch, going on after failures |
| OutboxDrain.TotalWorkUpdate | internal/event/outbox_dispatcher.go:147-151 | changing one row moves the sum of attempts left by that row's change only |
| OutboxDrain.RunDropsWork | internal/event/outbox_dispatcher.go:104-134 | an exclusive run whose results are recorded drops the attempts left in the table by at least the size of its batch |
| OutboxDrain.OutboxDrains | internal/event/outbox_dispatcher.go:87-134 | over any sequence of such runs, non-empty runs are at most as many as publish calls, publish calls plus attempts left at most the attempts left at the start, and those at most the maximum of attempts per event |
| OutboxDrain.RunDropsEvent | internal/event/outbox_dispatcher.go:136-174 | such a run takes at least one attempt from each event of its batch, or ends it, and none from any other |
| OutboxDrain.EventDrains | internal/event/outbox_dispatcher.go:87-134 | over any sequence of such runs an event is in no more batches, so in no more publish calls, than it had attempts left |
| OutboxDrain.EmptyRunMeansDrained | internal/repository/outbox_repository.go:36-48 | once every row is due and every lease stale, an empty answer means that every row is published or dead |
| OutboxDrain.OutboxIsDrained | internal/event/outbox_dispatcher.go:87-134 | among more such runs than the table has attempts left, each begun when everything is due, some run meets a table that is all published or dead |
| OutboxProtocol.StepKeepsInv | internal/event/outbox_dispatcher.go:104-174 | every step of every interleaving, stale holders and crashes included, keeps the invariant over rows, in-flight snapshots and calls |
| OutboxProtocol.InvHolds | internal/event/outbox_dispatcher.go:104-174 | that invariant holds in every reachable state for any number of concurrent runs |
| OutboxProtocol.NoFalseVerdict | internal/event/outbox_dispatcher.go:136-174 | in every reachable state attempts never exceed failed publish calls, a dead row has exactly the maximum of attempts, a published row was delivered, and an open row has attempts left |
| OutboxProtocol.RunExtends | internal/repository/outbox_repository.go:28-103 | between any two states of a run no row disappears, no topic, payload or creation time changes, and the log only grows |
| OutboxProtocol.NoEventLost | internal/repository/outbox_repository.go:32-103 | a committed event is never lost or changed, every publish call carries what was committed, publishing holds if and only if the lock time is set, and an open row can be acquired from a bounded later moment on |
| OutboxProtocol.CommittedIsSent | internal/service/user_events.go:52-62 | after an event is committed, every later publish call of it in every interleaving carries the topic, payload and time it was committed with |
| OutboxSolo.RunsAreDispatches | internal/event/outbox_dispatcher.go:104-134 | whatever `DispatchOnce` does, with any outcomes and clocks, the steps of one run can do, with the same table, the same messages in the same order, each with what came of it, and no run left behind |
| OutboxLease.StepKeepsLease | internal/repository/outbox_repository.go:36-60 | as long as acquires take no row a live run still holds, no two live runs hold one row and each held row is as its holder read it |
| OutboxLease.StepSettled | internal/repository/outbox_repository.go:70-103 | such a step changes no published or dead row and lowers no attempts |
| OutboxLease.ExclusiveRunsSettle | internal/repository/outbox_repository.go:70-103 | whatever makes the runs exclusive, published and dead are final and attempts never decrease between any two states of a run |
| OutboxCalls.CallersMove | internal/event/outbox_dispatcher.go:121-174 | under every interleaving, a step changes whether its own run has a call without a recorded result, and no other run's |
| OutboxCalls.StartedCallsAccounted | internal/event/outbox_dispatcher.go:137-144 | under every interleaving, the publish calls of an event that began are exactly those that returned, those under way and those a crash cut off |
| OutboxCalls.CallsAccounted | internal/event/outbox_dispatcher.go:136-174 | over every exclusive run, the publish calls of an event that began are exactly its attempts, its success, the calls without a recorded result yet, those a crash cut off and those whose result was lost |
| OutboxCalls.CallsBounded | internal/event/outbox_dispatcher.go:136-174 | so at most the maximum of attempts of publish calls of an event begin, plus those cut off, those lost and those whose run has expired |
| OutboxBackoff.DelayLasts | internal/event/outbox_dispatcher.go:145-151 | over every exclusive run, from a recorded failure to the next call that returns, the row is not due before the doubled delay, no lease on it is older, and no live run has a result to record |
| OutboxBackoff.BackoffRespected | internal/repository/outbox_repository.go:39-42 | over every exclusive run, after the recorded nth failure of an event, publish calls by whichever run, also those that never return, begin at least the doubled delay after the failed one ended, for every n the 64-bit product is exact for |
| OutboxTiming.AcquireStealsNothing | internal/repository/outbox_repository.go:39-40 | under the bound on a run's length, the query's staleness test never takes a row from a live run |
| PollingLease.PollingHolds | internal/event/outbox_dispatcher.go:104-174 | under that bound, the protocol, lease and timing invariants hold in every state of every polling run |
| PollingLease.OneHolderPerEvent | internal/event/outbox_dispatcher.go:104-174 | under that bound, each event has at most one run between its acquire and its mark, for any number of dispatchers |
| PollingLease.PollingSettles | internal/event/outbox_dispatcher.go:104-174 | under that bound, published and dead are final and attempts never decrease between any two states of a run |
| PollingLease.PollingIsExclusive | internal/event/outbox_dispatcher.go:104-174 | under that bound every polling run is an exclusive run |
| PollingLease.PollingCallsBounded | internal/event/outbox_dispatcher.go:136-174 | under that bound at most the maximum of attempts of publish calls of an event begin, plus those cut off and those lost |
| PollingLease.PollingBackoffRespected | internal/event/outbox_dispatcher.go:145-151 | under that bound the backoff is respected by any number of dispatchers |
| OutboxTiming.StepKeepsTime | internal/event/outbox_dispatcher.go:109-169 | the operation timeouts keep every run within the budget of its phase |
| SlowBatch.SlowUntil | internal/event/outbox_dispatcher.go:122-126 | a run may take the whole budget of its operations, one event after the other, up to the end of its row lease |
| SlowBatch.FastPublish | internal/repository/outbox_repository.go:40 | once the row lease is over, another run acquires the last event and publishes it |
| SlowBatch.SlowMarkUndoes | internal/repository/outbox_repository.go:85-103 | then the slow run's failure undoes the published verdict |
| PollingBound.VerdictUndone | internal/repository/outbox_repository.go:85-103 | for every configuration outside the bound, a reachable state undoes a recorded verdict |
| PollingBound.LeaseBoundIsExact | internal/event/outbox_dispatcher.go:104-174 | verdicts are final in every polling run if and only if operation timeout + batch size * (publish timeout + operation timeout) is below the lock timeout |
| PollingBound.ShippedValuesUndoVerdicts | config/config.yaml:81-86 | with the shipped batch size and timeouts, polling dispatchers can undo a recorded verdict |
| DistributedLock.LockKey.Acquire | pkg/cache/distributed_lock.go:49-69 | succeeds if and only if the key is free, and then the token has it for the ttl in whole milliseconds; otherwise the key stays |
| DistributedLock.LockKey.Renew | pkg/cache/distributed_lock.go:21-26 | succeeds if and only if the token has a live lease, which then begins again; otherwise the key stays |
| DistributedLock.LockKey.Release | pkg/cache/distributed_lock.go:14-19 | the holder of a live lease frees the key, any other token leaves it as it is |
| DistributedLock.ReleaseFrees | pkg/cache/distributed_lock.go:161-164 | after a release by the holder whoever asks next gets the lock, however long the lease would have lasted |
| Watchdog.OthersKeepLease | pkg/cache/distributed_lock.go:14-26 | under every interleaving, late commands included, nothing but its holder's own commands and time changes a live lease |
| Watchdog.StepKeepsInv | pkg/cache/distributed_lock.go:74-159 | every step keeps each client inside covered by a live lease until its next renewal is decided |
| Watchdog.InsideHoldsLease | pkg/cache/distributed_lock.go:136-159 | at every instant of every run, through any number of renewals, errors, expiries and crashes, a client inside `fn` with a live context holds a live lease, and there is at most one |
| Watchdog.RoundTrip | pkg/cache/distributed_lock.go:136-159 | a client that finds the key free enters with the whole lease before it and a running watchdog, is not inside after `fn` has returned, and releases once the watchdog has stopped |
| Watchdog.ReleaseLetsNextIn | pkg/cache/distributed_lock.go:149-155 | a release while the lease lasts frees the key, and the next client enters at once |
| Watchdog.RenewalExtends | pkg/cache/distributed_lock.go:89-96 | a renewal that reaches a live lease begins it again, and its client stays inside and watched |
| Watchdog.LostRenewalCancels | pkg/cache/distributed_lock.go:93-96 | a renewal that finds the lease gone, or fails, cancels the context and ends the watchdog |
| Watchdog.StuckClient | pkg/cache/distributed_lock.go:85-98 | outside the bound a client reaches the expiry of its lease inside `fn` and uncancelled |
| Watchdog.WatchdogBoundIsExact | pkg/cache/distributed_lock.go:74-159 | for a ttl of at least three seconds, mutual exclusion holds in every run if and only if latency + ttl/3 + 1 s is below the lease |
| Scheduler.Scheduler.HandleOutboxDispatch | internal/scheduler/scheduler.go:126-153 | no dispatcher, a failed lock command and a taken lock leave the outbox alone and report noop, error and skipped; otherwise one dispatch, then a release after which the lock is free unless it failed, and both errors joined |
| SchedulerLock.StepProjects | internal/scheduler/scheduler.go:141-143 | every step of the scheduled system is one step of the outbox protocol, or leaves the outbox alone |
| SchedulerLock.StepKeepsLock | pkg/cache/distributed_lock.go:113-131 | every step keeps each run under the deadline of its task, and the Redis key with each task that took it for the whole ttl |
| SchedulerLock.StepKeepsTimely | internal/scheduler/scheduler.go:141-143 | steps that keep the operation timeouts and the latency of lock replies keep every run within its budget, counted from its lock command |
| SchedulerLock.LockExpires | pkg/cache/distributed_lock.go:49-69 | in every run the lock is free again one ttl from now at the latest, also after crashes and failed releases |
| SchedulerLock.ReleaseLetsNextIn | pkg/cache/distributed_lock.go:123-127 | a task that returns while its lease lasts frees the lock, and the next task takes it at once |
| SchedulerLock.BusyLockSkips | internal/scheduler/scheduler.go:148-151 | a task that meets a live lease ends without changing anything |
| SchedulerLock.ScheduledIsExclusive | internal/scheduler/scheduler.go:126-153 | the runs of any number of nodes are exclusive if no task outlives the lock or the row lease, however long operations take; or, in runs whose operations and lock replies keep their timeouts, if no batch outlives the lock or the row lease. A run with either is called protected |
| SchedulerLock.ScheduledRunsDoNotOverlap | internal/scheduler/scheduler.go:126-153 | with the task timeout at most the lock ttl, whatever the row lease timeout and however long any operation takes, no two runs can both still change the table |
| SchedulerLock.TimelyRunsDoNotOverlap | internal/scheduler/scheduler.go:126-153 | nor can they, whatever the task timeout, if operations and lock replies keep their timeouts and these add up to less than the lock ttl |
| SchedulerLock.ScheduledRunsSettle | internal/scheduler/scheduler.go:126-153 | in every protected run, published and dead are final and attempts never decrease |
| SchedulerLock.ScheduledCallsBounded | internal/scheduler/scheduler.go:141-143 | in every protected run, at most the maximum of attempts of publish calls of an event begin, plus those cut off, lost or left to an expired run |
| SchedulerLock.ScheduledBackoffRespected | internal/scheduler/scheduler.go:141-143 | in every protected run, the backoff is respected by every call under a live context |
| SchedulerBound.TwoRunsOverlap | internal/scheduler/scheduler.go:81 | with a task and a batch that outlive the lock, two runs that both may act are reachable within the operation timeouts and the latency |
| SchedulerBound.LockBoundIsExact | internal/scheduler/scheduler.go:81-153 | in runs that keep the timeouts, no two overlap if and only if the task timeout is at most the lock ttl, or latency + operation timeout + batch size * (publish timeout + operation timeout) is below it |
| SchedulerBound.UntimedLockBoundIsExact | internal/scheduler/scheduler.go:81-153 | however long operations and replies take, no two runs overlap if and only if the task timeout is at most the lock ttl |
| SchedulerBound.VerdictUndone | internal/repository/outbox_repository.go:85-103 | a task and a batch that outlive both leases undo a recorded verdict within the operation timeouts and the latency |
| SchedulerBound.FinalityBoundIsExact | internal/scheduler/scheduler.go:81-153 | in runs that keep the timeouts, verdicts are final if and only if no task outlives the lock, none outlives the row lease, no batch outlives the row lease, or none outlives the lock |
| Envelope.StoredIsReadBack | pkg/cache/read_through.go:83-93 | a stored payload that is not null is read back as itself, a stored null as null |
| Envelope.LaterMembersWin | pkg/cache/read_through.go:253-256 | member by member, the last one that names a field in any spelling counts, a `null` literal leaves the flag, and a flag of another type spoils the entry |
| Envelope.DecodesByFields | pkg/cache/read_through.go:247-264 | an entry is null, a hit or undecodable exactly by those fields: null beats data, data beats the whole object |
| Envelope.CapitalsMatch | pkg/cache/read_through.go:253-256 | a field name is matched in any mixture of capitals |
| Envelope.LegacyDecodesToItself | pkg/cache/read_through.go:247-264 | an old entry without envelope decodes to itself if and only if it is an object with no payload under `data`, no true `null` key and no mistyped one; in particular when no key matches either name |
| ReadThrough.EffectiveTTL | pkg/cache/read_through.go:213-233 | for every base, jitter and random part the ttl is positive and at most max(1 s, base + jitter); a base above the jitter is moved by the random part and no more, and a base that is not positive becomes one second |
| ReadThrough.StoredTTL | pkg/cache/read_through.go:207-209 | no entry is stored without expiry: a positive ttl stays, any other becomes one second |
| ReadThrough.ReadThroughStore.WriteEnvelope | pkg/cache/read_through.go:199-211 | replaces exactly the entry of the key |
| ReadThrough.ReadThroughStore.Delete | pkg/cache/read_through.go:95-97 | removes exactly the entry of the key |
| ReadThrough.ReadThroughStore.GetOrLoadJSON | pkg/cache/read_through.go:117-170 | the loader is called if and only if the first read is of no use and the second decodes nothing; a usable entry is served by either read; the exact condition for an error; what is loaded is the answer whether or not it can be stored; only a successful load writes, under a positive ttl |
| ReadThrough.StoredLoadIsServed | pkg/cache/read_through.go:148-153 | what a load stored is what later lookups are answered with until it expires, and a miss from then on |
| Singleflight.LoadsBounded | pkg/cache/read_through.go:124-154 | for any number of callers and interleavings, loader calls are at most 1 + removals + failed writes + loader errors + bad rechecks |
| Singleflight.OneLoadServesAll | pkg/cache/read_through.go:130-154 | without any of those and without other writers, at most one load happens and every caller that is answered gets its value |
| Singleflight.AnswersAreReal | pkg/cache/read_through.go:130-169 | in every run, whatever a caller is served was loaded or found in the cache before, and a failure it is told of happened |
| Singleflight.WaitersAreTold | pkg/cache/read_through.go:130-157 | when a flight ends, everybody who waited gets what it decided: the cached value, the loaded value even if it could not be stored, or the loader's failure |
| Singleflight.FlightSteps | pkg/cache/read_through.go:124-152 | a usable entry answers its reader at once, others join the flight, which loads exactly if its own read is of no use and stores what it loaded |
| CacheStaleness.InvHolds | pkg/cache/read_through.go:117-211 | in every reachable state an entry is what the database held when its flight read it, and expires within the longest flight and ttl of that |
| CacheStaleness.CacheSteps | pkg/cache/read_through.go:95-153 | a delete leaves nothing cached, a flight reads the newest version and caches exactly that for its ttl |
| CacheStaleness.WriterKnowsItsCommit | internal/service/user_service.go:111-158 | in every run a writer deletes for exactly the version it committed |
| CacheStaleness.StalenessBounded | internal/service/user_service.go:75-96 | whichever deletes fail or lose a race, a hit shows every version committed longer ago than the longest flight plus the longest ttl |
| CacheStaleness.LateReaderServesOld | pkg/cache/read_through.go:95-97 | a reader that read before the commit stores after the plain delete, and serves the old version until the end of its ttl |
| CacheStaleness.StalenessBoundIsExact | pkg/cache/read_through.go:117-211 | hits show everything older than an age in every run if and only if the age is at least the longest flight plus the longest ttl |
| CacheStaleness.ProfileTTLFits | internal/service/user_service.go:79 | profiles and notes of absence are stored within the ttl that bound is stated for |
| CacheStaleness.DoubleDeleteWorks | pkg/cache/read_through.go:99-115 | with every flight shorter than the pause, after a writer's second delete nothing older than its write is ever cached, for any readers and writers |
| CacheStaleness.SlowReaderWins | pkg/cache/read_through.go:99-115 | a flight as long as the pause stores the old version after the second delete |
| CacheStaleness.DoubleDeleteBoundIsExact | pkg/cache/read_through.go:99-115 | the double delete leaves nothing older behind in any run if and only if every flight is shorter than the pause |
| SlidingWindow.SlidingWindowLimiter.Check | pkg/cache/sliding_window.go:59-81 | allowed if and only if fewer than the limit are counted; then its member is the one that is added, otherwise none; both prune and expire the key after the window in whole seconds; the remaining and reset values of the reply |
| SlidingWindow.PrunedShowsFullLog | pkg/cache/sliding_window.go:28-45 | over any calls whose clock does not go back, the pruned and expiring set shows at every later moment what a log that is never pruned and never expires shows, one entry per member |
| SlidingWindow.PruningRefinesFullLog | pkg/cache/sliding_window.go:28-45 | the script grants every call as counting the members last admitted in the window would, with nothing ever pruned or expired, whether or not calls share members |
| SlidingWindow.LogIsFull | pkg/cache/sliding_window.go:42 | with distinct members the full log has exactly one entry in any interval per call the script granted there |
| SlidingWindow.GrantsCountGrants | pkg/cache/sliding_window.go:35-44 | with distinct members, the script grants a call if and only if it granted fewer calls than its limit in the window before it |
| SlidingWindow.NeverOverLimit | pkg/cache/sliding_window.go:28-45 | with distinct members, over any run the script grants no more calls than the limit in any interval (t - window, t] |
| SlidingWindow.OneIsKept | pkg/cache/sliding_window.go:35-42 | a limit of one is kept even if calls share members |
| SlidingWindow.SharedMemberSlipsThrough | pkg/cache/sliding_window.go:61 | for every limit above one, any number of calls that share a member are all granted |
| SlidingWindow.SharingBoundIsExact | pkg/cache/sliding_window.go:59-62 | the script keeps the limit over every run, whatever members the calls have, if and only if the limit is at most one or the window is empty |
| SlidingWindow.RemainingIsKept | pkg/cache/sliding_window.go:66-80 | after an allowed reply with remaining r the next r calls are allowed, whenever they come |
| SlidingWindow.ResetForgets | pkg/cache/sliding_window.go:35-44 | a call at or after the reset time counts none of the admissions that reply counted |
| WorkerPool.StepKeepsLocks | internal/worker/pool.go:59-102 | every step keeps readers and writer apart, and the closed flag and the channel in step |
| WorkerPool.PoolIsSafe | internal/worker/pool.go:59-112 | in every interleaving no send on the closed channel, a queue within capacity, tasks taken in acceptance order, each accepted task exactly once in queue, running or finished, and accepted if and only if the caller was told so |
| WorkerPool.SubmittersAreTold | internal/worker/pool.go:59-78 | in every run a submitter is told shutting down, too many requests or accepted if and only if it looked at a closed pool, gave up waiting for room, or was sent |
| WorkerPool.DrainedMeansDone | internal/worker/pool.go:80-102 | when the shutdown call that closed the pool returns nil every accepted task has run exactly once, and nothing else has |
| WorkerPool.DrainEnds | internal/worker/pool.go:90-112 | after the close the workers take exactly a fixed number of steps in all, one of them can always move until then, and then all have left |
| WorkerPool.SecondShutdownDoesNotWait | internal/worker/pool.go:81-85 | a second shutdown call can return nil while an accepted task has not run |
| WorkerPool.OnlyTheClosingCallWaits | internal/worker/pool.go:80-102 | a nil return means in every run that every accepted task has run exactly once if and only if the call found the pool open |
| Jwt.BuildKeys | pkg/jwt/jwt.go:191-200 | a secret is among the keys if and only if it is configured and not empty; the primary comes first, no secret comes twice, and each key id is its secret's |
| Jwt.KeyID | pkg/jwt/jwt.go:202-207 | the header of a token shows at most the first eight bytes of a secret |
| Jwt.ContainsAudience | pkg/jwt/jwt.go:278-285 | the loop finds an audience if and only if it is in the list |
| Jwt.KeyMap | pkg/jwt/jwt.go:218-221 | every key id is present and maps to the secret of some key with that id |
| Jwt.ParseByKeys | pkg/jwt/jwt.go:223-259 | lookup by key id with fallback accepts if and only if the algorithm is HS256, some configured key verifies and the times are valid, whatever the header's key id |
| Jwt.Parse | pkg/jwt/jwt.go:209-276 | accepts exactly what the rule over all keys accepts, returns the token's claims, and tells an absent token from an invalid one |
| Jwt.MintedForSubject | pkg/jwt/jwt.go:154-181 | a minted token carries its subject's user, role and tenant, its id, issuer, audience and times, and is signed with the primary key |
| Jwt.RotationKeepsTokens | pkg/jwt/jwt.go:69-102 | a minted token is accepted under the rotated keys exactly from its minting, rounded down to the second, until its expiry, which is the reported one rounded down to the second |
| Jwt.MintedIsAuthenticated | pkg/jwt/jwt.go:69-117 | minting and authenticating: the token is taken for the subject it was minted for, exactly until it expires or is revoked, whether or not its key was rotated |
| Jwt.Manager.AuthenticateAccessToken | pkg/jwt/jwt.go:104-117 | succeeds if and only if the store answers, the token is accepted and its id is not in the revocation set |
| Jwt.Manager.BlacklistAccessToken | pkg/jwt/jwt.go:134-144 | succeeds if and only if the token is accepted, not yet expired and the store works, and then adds exactly its id for the remaining lifetime; a token the parser rejects is rejected with or without an expiry |
| Jwt.EntryCoversToken | pkg/jwt/redis_store.go:24-26 | through any later revocations the entry lasts at least to the token's expiry |
| Jwt.RevocationIsComplete | pkg/jwt/jwt.go:104-144 | a revoked token is rejected by every authentication whose lookup comes before its expiry or whose parse comes at or after it; it passes if and only if its parse passes and its entry is gone |
| UserService.UserService.UpdateProfile | internal/service/user_service.go:98-166 | succeeds if and only if the transaction commits; then the profile has the trimmed input and the lower-case address and is otherwise as before, exactly one row is added with the topic, the text over before and after, pending, untried and due now, and the cache entry goes unless the delete fails; a failure changes nothing and is named |
| UserService.UserService.GetProfile | internal/service/user_service.go:75-96 | a usable entry answers on the first read or on the second; one that does not fit is an error; the database is asked if and only if the second read decodes nothing, and then its answer is stored unless the write fails; an absent user is reported as not found |

## Left out

- HTTP handlers, routing, locale, recovery, configuration loading, migrations, metrics, logging, tracing, policy matching and file storage.
- The inside of PostgreSQL, Redis, RabbitMQ, asynq and the JWT library: every transaction, single-row update, Redis command and script is one atomic step, and which due rows a query may skip because others lock them is a parameter.
- Clock skew between machines, scheduling delay of goroutines, read replicas, and database updates that commit after their client's deadline: every machine reads one clock, an update has no effect after the deadline of its context, and loaders read the primary. Lock commands that arrive late are modelled.
- Start, stop and polling interval of the dispatcher and the scheduler: a run may begin at any time, which covers every schedule.
- Operation timeouts: polling mode trusts every operation to end by its own timeout, and so do the scheduled results that say so. A publish call that waits for the publisher's mutex (pkg/mq/rabbitmq.go:91-93) can outlast its timeout; the scheduled results for a task timeout within the lock ttl or the row lease cover that.
- The worker pool, lock clients and concurrent cache callers are state machines over values and not classes: their methods interleave between statements, which a sequential method contract cannot express.
- Worker tasks that panic, and the time a submitter waits: a full queue may be answered by timeout or cancellation at any moment.
- Local event bus and the audit subscriber: publishing there follows the commit and its error is only logged.
- Refresh tokens: minting, storing and revoking them repeats the access path without a revocation set.
- Parsing a token reads one clock; the library reads it at every attempt, so a token may expire between two attempts.
- OutboxRepository.OutboxRepository.AcquirePending: rows with the same creation time are read back in the order the query selected them; the database may order them either way.
- UserService.UserService.UpdateProfile: fresh ids, the JSON text of the event and the text functions for e-mail addresses are parameters, and the domain error chosen for a fault inside the transaction is one database error.
- Jwt.Manager.BlacklistAccessToken: takes accepted tokens to carry an expiry, because the source dereferences it; every token the manager mints has one.
- Jwt.MintedForSubject: leaves out the issued-at and subject claims, which the parser does not read.
- Jwt.RevocationIsComplete: takes one expiry per token id; ids are fresh per minted token.
- OutboxBackoff.BackoffRespected: speaks of exclusive runs and of calls under a context that has not expired; a stale holder may publish at once, and a publisher is trusted to make no call under an expired context.
- OutboxDrain.RunDropsWork: for runs one after another whose updates succeed; a lost result costs a publish call without an attempt, which OutboxCalls.CallsBounded counts.
- SlidingWindow.PruningRefinesFullLog: one window length per key, and clocks that do not go back.
- CacheStaleness.DoubleDeleteWorks: a flight exactly as long as the pause is not covered, because it can store after the second delete.
- Ttls finer than a millisecond, which Redis cannot keep, and the Retry-After header, which the middleware rounds.
- HMAC is an arbitrary function of secret and body; nothing is said about forging signatures.
- JSON is a value type; bytes, escapes and number formats are not modelled.
