# Verification of the runtime primitives of rust-zero

This project models the stateful core of `rust-zero-core` and the map-reduce crate in Dafny and proves
what they promise over whole runs. Every concurrent component is a step machine: a state, an event for
each stretch of code that runs without interruption, and theorems about the state after *any* legal list
of events. What the program does to its fields in one stretch, under a lock or alone, is a class with methods
that are proved against the functions the step machine uses. Run `dafny verify dfyconfig.toml`.

| file | component |
|---|---|
| `sqlcoherence.dfy`, `sqlsteps.dfy`, `sqlinvariant.dfy` | the coherence protocol of `CachedSqlStore`: loads, commits and invalidations around a generation counter and a gate; its invariant |
| `sqlguarantees.dfy`, `sqlretention.dfy`, `sqlhits.dfy`, `sqlruns.dfy` | what the protocol guarantees and what it keeps, when index hits are right, and two runs step by step |
| `sqlstores.dfy` | the store itself, over two caches |
| `cache.dfy`, `cachelaws.dfy` | the bounded LRU cache; its laws of recency and of values, stated on the calls alone |
| `readthrough.dfy`, `takes.dfy` | read-through loading on top of it; what each `take` returns and when it fetches |
| `singleflight.dfy` | call coalescing with leaders that can be cancelled |
| `rolling.dfy`, `rollingwindow.dfy` | bucket rotation; the rolling window |
| `breaker.dfy`, `breakerphases.dfy`, `rollingbreaker.dfy` | the consecutive circuit breaker and when it opens, wakes and closes; the rolling one |
| `limiter.dfy` | the token bucket |
| `rotation.dfy`, `calendar.dfy` | size-rotated logs; civil dates, their texts and the retention of daily logs |
| `subscription.dfy` | the reconnecting subscription and its loss accounting |
| `discovery.dfy` | leases, reference counts, change events and their replay |
| `executor.dfy` | batch and chunk workers |
| `hashring.dfy` | the consistent-hash ring, for an arbitrary hash function |
| `mapreduce.dfy` | bounded-concurrency map-reduce under any order of completion |
| `sequences.dfy`, `counters.dfy`, `wrappers.dfy` | shared facts about sequences; saturating counters; optional values |

Instants and durations are natural numbers of nanoseconds, except in the token bucket, which works on
real seconds; `f64` is `real`. Instants read under one lock never go backwards: where a method takes
`now`, that is the assumption `currentStarted <= now`. What other tasks, the network, the random number
generator or the scheduler decide is a parameter of the events, so the theorems hold whatever they decide.

## What the proofs found

These are places where the code does less than its documentation or a first reading suggests. Each entry
names a concrete run and the condition under which the expected property holds.

- **A dropped mutation leaves a stale row.** `execute` (core/src/stores_sql.rs:399-409) says that the
  affected keys are invalidated after the mutation succeeds. When the caller drops the future after the
  database has committed and before the operation returns, or the operation fails after it has committed,
  nothing is invalidated. The old row is then served although every call has ended (run:
  `AbandonedCommitLeavesStaleRow`). If nobody answered for the cached row or mapping before, it is stale
  right after such a drop if and only if the commit changed it (`DroppedCommitLeavesRowStaleIff`,
  `DroppedCommitLeavesMappingStaleIff`); nothing else leaves stale entries behind
  (`StaleRowsComeFromAbandonedMutations`, `StaleMappingsComeFromAbandonedMutations`); and the next
  invalidation that names the key makes up for it (`InvalidationSettlesRow`,
  `InvalidationSettlesIndex`).
- **An index hit can be torn.** `find_by_index` reads the index cache and then the row cache
  (core/src/stores_sql.rs:349-358). A mutation that is committed and fully invalidated between the two
  reads can make it return a row to which the secondary key no longer leads (run: `TornHit`). The hit is
  right if no commit in between changes where the secondary key leads (`TwoStepHitIsCurrent`); after one
  that does, it is wrong if and only if the row it reads differs from the row the key now leads to
  (`RemappedHitExactly`).
- **Two guards of one key can be armed at once.** A leader disarms its guard only after it has removed its
  flight and sent its result (core/src/singleflight.rs:77-86), so a newcomer may lead the next flight
  meanwhile (run: `TwoArmedGuards`). A second guard appears if and only if a flight is opened while a
  leader of its key is sending (`SecondGuardIff`), and at most one armed guard is not sending
  (`OneOfTwoGuardsIsSending`). It does no harm, because only a running leader can be dropped at an await
  (`GuardRemovesItsOwnFlight`), unless cloning the result panics: then the newcomer loses its flight if and
  only if it is running under the same key (`SendingPanicHitsNewcomerIff`), and the panicking leader's own
  waiters fail if and only if it had not sent to them (`SendingPanicStrandsWaiterIff`).
- **A late drop admits an extra probe.** Permits from before the half-open phase give a slot back when they
  are dropped (core/src/breaker.rs:478-482), so more than `half_open_max_calls` probes can be in flight
  (run: `LateDropAdmitsSecondProbe`). The excess is at most the number of permits dropped late, late
  successes do not add to it (`ProbesInFlight`), and for every limit and every number of late drops some run
  reaches that bound (`ProbeBoundIsReached`).
- **Looking at a window can move it.** A snapshot changes how later buckets are aligned, so with a record
  after it, it can decide whether an old observation is still counted (runs:
  `ExtraSnapshotCanShiftAlignment`). It makes no difference to any later snapshot if and only if the record
  comes before the whole window has passed, or the window is realigned to the very instant of the record
  (`ExtraSnapshotMattersIff`); then it never does, whatever is recorded later (`KeptAlignmentForever`).
  With no record after it, it makes none (`ExtraSnapshotIsInvisible`).
- **A closing subscription may not report its last losses.** `Closed` is sent without the pending count
  (core/src/stores_redis.rs:2090-2093; run: `CloseCanLeaveALossUnreported`); the stream is fully accounted
  for if and only if none was pending (`CloseAccountsForAllIffNothingPending`).
- **A removal can overtake an addition.** Events are sent after the registry's lock is released
  (core/src/discov.rs:255-260, 394-399). A subscriber that has caught up can then miss a listed endpoint
  (run: `OvertakenRemovalLosesEndpoint`), exactly when the last event sent for it was a removal
  (`CaughtUpExactly`). It never keeps a withdrawn one (`NoPhantomEndpoints`).
- **Stamped log backups need distinct clock readings.** With `max_backups == 0`, two rotations that read the
  same time leave one file for two closed ones (run: `EqualStampsLoseAFile`). With one compression setting,
  every closed file keeps a file of its own if and only if no two rotations read the same time
  (`OwnFileIffStampsDiffer`).
- **Date texts do not always compare as dates.** The retention of daily files compares texts
  (core/src/log.rs:634-660). A year of four digits compares rightly with another date if and only if that
  date's year is at most 9999, or its leading four digits are no smaller (`TextFollowsOrderIff`; pair:
  `TextOrderEnds`). In the year 10000 a pass leaves files that are long due (run:
  `YearTenThousandKeepsOldFiles`); which files it decides as documented is `DecidedAsDocumentedIff`.
- **The largest retention settings are cast to negative numbers.** `days.saturating_sub(1) as i64`
  (core/src/log.rs:637) wraps above 2^63, although `with_retention_days` accepts any positive `u64`. With
  `u64::MAX`, which reads as "keep everything", a pass removes today's file (run:
  `KeepEverythingRemovesToday`), and a band of settings overflows (`CutoffOverflowsIff`). A pass keeps
  exactly the last `days` days if and only if `days` is at most 2^63 and the year of the cutoff at most
  9999, or, by accident, `days` is above 2^63 without overflow and the cutoff's year is above 9999 with
  leading digits below 1970 (`RetentionIsRightIff`).

## Model

| member | source | states |
|---|---|---|
| SqlGuarantees.CachedRowsAreCurrent | core/src/stores_sql.rs:294-333 | in every interleaving of loads, mutations with any number of commits, invalidations, expiry and cancellation, a cached row (or cached absence) is the database's, unless a mutation naming its key has committed and no invalidation has named the key since, or an invalidation is about to remove it |
| SqlGuarantees.CachedMappingsAreCurrent | core/src/stores_sql.rs:340-397 | the same for secondary keys, positive and negative, where naming is by the secondary key or by the mapped primary key |
| SqlGuarantees.SlowReadersAreCurrentOrOutdated | core/src/stores_sql.rs:306-327 | a load in flight either holds a value with the same guarantee or has an outdated generation, and then storing it changes neither cache |
| SqlGuarantees.QuietCacheIsExact | core/src/stores_sql.rs:434-482 | whenever nothing is owed, whatever was abandoned before, both caches agree with the database, and a mapping leads to the database's answer for its secondary key |
| SqlGuarantees.InvalidationSettlesRow | core/src/stores_sql.rs:434-455 | after an invalidation that names a key, its cached row is the database's until the next commit naming it, even if mutations of it were abandoned before |
| SqlGuarantees.InvalidationSettlesIndex | core/src/stores_sql.rs:457-482 | the same for a mapping, named by its secondary key or by the primary key it leads to |
| SqlGuarantees.StaleRowsComeFromAbandonedMutations | core/src/stores_sql.rs:400-409 | when every call has ended, a stale cached row is due to a mutation that was dropped after its commit, named the key, and has had no invalidation of the key since |
| SqlGuarantees.StaleMappingsComeFromAbandonedMutations | core/src/stores_sql.rs:416-431 | the same for a stale mapping |
| SqlGuarantees.DroppedCommitLeavesRowStaleIff | core/src/stores_sql.rs:400-409 | a mutation dropped right after its commit leaves a cached row, for which nobody answered before, stale if and only if the commit changed that row |
| SqlGuarantees.DroppedCommitLeavesMappingStaleIff | core/src/stores_sql.rs:416-431 | the same for a cached mapping |
| SqlRuns.AbandonedCommitLeavesStaleRow | core/src/stores_sql.rs:400-431 | a concrete run in which such a drop leaves a stale row although every call has ended |
| SqlHits.TwoStepHitIsCurrent | core/src/stores_sql.rs:349-358 | an index hit returns the row its secondary key leads to when no commit between its two reads changes where that key leads, whatever else is committed |
| SqlHits.RemappedHitExactly | core/src/stores_sql.rs:349-358 | after a commit between the reads that makes the key lead elsewhere, the returned value is wrong if and only if the row read differs from the row the key now leads to |
| SqlRuns.TornHit | core/src/stores_sql.rs:349-358 | a concrete run with both reads in quiet states in which the hit returns the wrong user |
| SqlInvariant.EveryInterleavingKeepsInv | core/src/stores_sql.rs:294-482 | the invariant behind these: cache contents, saved generations, who holds the gate |
| SqlStores.InvalidationInOneGo | core/src/stores_sql.rs:463-482 | the single steps of an invalidation, run without interruption, add up to what the method `InvalidateRelated` does |
| SqlStores.RowLoadInOneGo | core/src/stores_sql.rs:312-330 | the single steps of a load's gated end, run without interruption, store if and only if the generation is unchanged and there is a lifetime, as `StoreRow` does |
| SqlStores.AnswerLoadInOneGo | core/src/stores_sql.rs:376-393 | the same for a load by secondary key, as `StoreAnswer` does |
| SqlStores.EveryJitterOccurs | core/src/cache.rs:22-40 | the lifetimes given out are exactly those from the base to the base plus the jitter |
| SqlRetention.RowsLeaveIff | core/src/stores_sql.rs:294-482 | in every interleaving a cached row leaves if and only if it is looked up after its time, removed by an invalidation that names it, or least recent in a full cache that takes another row |
| SqlRetention.MappingsLeaveIff | core/src/stores_sql.rs:340-482 | the same for mappings, which also leave when an invalidation names the row they lead to |
| SqlStores.CachedSqlStore.StoreRow | core/src/stores_sql.rs:312-330 | the gated end of `find`: with an unchanged generation a row is stored for `ttl` and a missing row for `not_found_ttl`, each with jitter, a missing row not at all if no such time is set; otherwise nothing changes |
| SqlStores.CachedSqlStore.StoreAnswer | core/src/stores_sql.rs:376-393 | the gated end of `find_by_index`: mapping and row for the same time, a missing answer as a missing mapping for its own time or not at all |
| SqlStores.CachedSqlStore.InvalidateRelated | core/src/stores_sql.rs:463-482 | bumps the generation and removes exactly the named rows, the mappings into them and the named secondary keys, keeping recency order |
| SqlStores.CachedSqlStore.InvalidateMany | core/src/stores_sql.rs:443-455 | the same without secondary keys |
| SqlStores.CachedSqlStore.Invalidate | core/src/stores_sql.rs:434-441 | one key, reporting whether a positive or negative record was held |
| SqlStores.CachedSqlStore.InvalidateIndex | core/src/stores_sql.rs:457-461 | one secondary key, reporting whether it was held |
| MemoryCaching.LruInclusion | core/src/cache.rs:169-273 | after the same trace on the same clock a smaller cache holds a subset of a larger one's entries in the same relative recency order, and the larger confirms every hit and count of the smaller |
| MemoryCaching.CacheAgainstPlainMap | core/src/cache.rs:169-273 | every cached entry is the entry of an unbounded map given the same calls, and the two are equal while that map never held more than `capacity` keys |
| MemoryCaching.RunWellFormed | core/src/cache.rs:137-166 | after every trace the recency queue lists exactly the keys, once each, and no more than `capacity` |
| MemoryCaching.InsertShape | core/src/cache.rs:184-191 | the eviction loop evicts nothing, or exactly the least recent key |
| MemoryCaching.InsertKeepsNewest | core/src/cache.rs:169-191 | eviction never hits the entry just inserted |
| CacheLaws.RecencyIsLastUse | core/src/cache.rs:169-220 | after every trace the recency queue lists the keys in the order in which the calls last stored them or looked them up |
| CacheLaws.EvictedIff | core/src/cache.rs:184-191 | a store pushes a key out if and only if the stored key is new, the cache is full, and that key was stored or looked up longest ago |
| CacheLaws.EntriesAreLastStored | core/src/cache.rs:169-191 | every entry is the value last stored under its key, with the instant at which it lapses |
| CacheLaws.FetchedIff | core/src/cache.rs:193-220 | a lookup returns a value if and only if it is the one last stored, the key is still held and its time has not come |
| CacheLaws.DeletedIff | core/src/cache.rs:222-225 | a removal returns the value last stored if and only if the key is still held, lapsed or not |
| CacheLaws.KeptIff | core/src/cache.rs:193-273 | which keys every call other than a store keeps, exactly |
| CacheLaws.NumbersAreRight | core/src/cache.rs:232-273 | the numbers returned are how many entries went and how many are left |
| CacheLaws.EvictionsAreCounted | core/src/cache.rs:184-273 | evictions are counted once for each entry that capacity or expiry took away |
| MemoryCaching.MemoryCache.Insert | core/src/cache.rs:169-191 | the new entries, recency order and counters, with the in-place eviction loop |
| MemoryCaching.MemoryCache.Get | core/src/cache.rs:193-220 | a live entry is returned and becomes most recent; an expired one is removed; counters |
| MemoryCaching.MemoryCache.Remove | core/src/cache.rs:222-225 | removes the entry and its place in the queue and returns what was held |
| MemoryCaching.MemoryCache.RemoveWhere | core/src/cache.rs:232-248 | removes exactly the accepted entries and returns how many |
| MemoryCaching.MemoryCache.Len | core/src/cache.rs:256-273 | drops exactly the expired entries and returns how many are left |
| MemoryCaching.RemoveFromRecency | core/src/cache.rs:289-296 | the queue without the first occurrence of the key |
| SingleFlights.OneRunningLeader | core/src/singleflight.rs:48-60 | in every interleaving a key has at most one running leader, and a flight entry exactly while it runs |
| SingleFlights.WaitersGetTheirLeadersOutcome | core/src/singleflight.rs:62-87 | a served waiter has its own leader's result, or `LeaderCancelled` if and only if that leader was dropped; no task panics, so neither `expect` fires |
| SingleFlights.NobodyIsLeftWaiting | core/src/singleflight.rs:77-110 | once a leader has returned or was dropped, everyone who joined it has been sent its outcome |
| SingleFlights.SentExactlyOnce | core/src/singleflight.rs:83-110 | every channel is written at most once over the whole run, and holds an outcome exactly when it was |
| SingleFlights.GuardRemovesItsOwnFlight | core/src/singleflight.rs:101-113 | a dropped leader removes the flight it inserted, tells all of its waiters, and touches no other flight |
| SingleFlights.TwoArmedGuards | core/src/singleflight.rs:68-86 | two guards of one key can be armed at once, because a leader stays armed while it sends |
| SingleFlights.OneOfTwoGuardsIsSending | core/src/singleflight.rs:68-86 | of two armed guards of one key, at most one belongs to a leader still in its operation |
| SingleFlights.SecondGuardIff | core/src/singleflight.rs:48-72 | a call that opens a flight becomes a second armed guard if and only if a leader of its key is sending |
| SingleFlights.SendingPanicHitsNewcomerIff | core/src/singleflight.rs:83-113 | a panic while cloning the result makes a running leader fail if and only if it has the same key |
| SingleFlights.SendingPanicStrandsWaiterIff | core/src/singleflight.rs:62-86 | and makes a waiter fail if and only if the panicking leader still held its sender |
| SingleFlights.EveryInterleavingKeepsInv | core/src/singleflight.rs:43-114 | the invariant behind these |
| SingleFlights.SingleFlight.Enter | core/src/singleflight.rs:48-60 | joining an existing flight or inserting a new one |
| SingleFlights.SingleFlight.Complete | core/src/singleflight.rs:77-86 | removes the flight and sends the result to each waiter once |
| SingleFlights.SingleFlight.DropGuard | core/src/singleflight.rs:101-113 | the drop of an armed guard |
| ReadThrough.NoRedundantFetch | core/src/cache.rs:321-345 | a fetch never starts or runs while its key is live in the cache, and two fetches of one key never overlap |
| Takes.HitNeverFetches | core/src/cache.rs:332-334 | a call that finds its key live returns what it found and never leads a flight or fetches, in any continuation |
| Takes.MissGoesOn | core/src/cache.rs:332-336 | a call that does not goes on to the flight |
| Takes.FetchedIsKept | core/src/cache.rs:340-342 | when the leader has stored it, the fetched value is live under its key for the lifetime given |
| Takes.KeptStaysLive | core/src/cache.rs:321-350 | and it stays live with that value until its time comes, unless it is removed, stored again, or pushed out as the key used longest ago |
| Takes.LeaderReturnsItsOwn | core/src/cache.rs:336-344 | a leading call returns what its own fetch came back with, stored first if it is a value, or what its second look found |
| Takes.WaiterReturnsItsLeaders | core/src/cache.rs:336-344 | a waiting call returns the result of a leader of the same key, with the same origin, or that it was cancelled |
| Takes.HitReturnsTheLastStored | core/src/cache.rs:332-334 | a hit is the value last stored under the key and not lapsed when the call looked |
| Takes.FailureStoresNothing | core/src/cache.rs:340-341 | a call whose fetch failed never stores anything |
| Takes.EndOfFetchKeepsCache | core/src/cache.rs:340-341 | a fetch that comes back leaves the cache as it was, and a failed one is the result |
| Takes.CacheIsItsTrace | core/src/cache.rs:321-350 | in every interleaving the cache is what one sequence of calls makes of it, so that the laws of caches apply |
| ReadThrough.EveryInterleavingKeepsInv | core/src/cache.rs:321-345 | the invariant that ties the stages of `take` to cache and flights |
| Windows.WindowIsExact | core/src/rolling.rs:71-93 | after rotation to `now` the buckets hold exactly the log since `started - (n-1)*width`, with `now - width < started <= now`; age at most `(n-1)*width` is held, age `n*width` is not |
| Windows.ExtraSnapshotIsInvisible | core/src/rolling.rs:44-93 | an extra rotation with no record after it changes no later result, across the clear-and-realign branch too |
| Windows.ExtraSnapshotCanShiftAlignment | core/src/rolling.rs:71-93 | with a record after it, it can change a later result: two concrete runs |
| Windows.ExtraSnapshotMattersIff | core/src/rolling.rs:71-93 | with a record after it, every later result is the same if and only if the record comes before the whole window has passed or the window is realigned to the instant of the record |
| Windows.KeptAlignmentForever | core/src/rolling.rs:33-93 | under that condition the extra snapshot never matters, whatever is recorded and looked at later |
| Windows.RotateAccounts | core/src/rolling.rs:71-93 | rotation keeps the bookkeeping that splits the log into buckets and dropped observations |
| Windows.RecordAccounts | core/src/rolling.rs:33-42 | so does recording |
| RollingWindows.SummaryMeaning | core/src/rolling.rs:109-116 | a bucket's fields are the size, the total and attained bounds of what was recorded into it |
| RollingWindows.RollingWindow.Record | core/src/rolling.rs:33-42 | appends exactly one observation to what the window accounts for |
| RollingWindows.RollingWindow.Snapshot | core/src/rolling.rs:44-62 | the snapshot summarizes exactly the observations of the window |
| RollingWindows.RollingWindow.Rotate | core/src/rolling.rs:71-93 | the in-place rotation refines the function the theorems are about |
| RollingWindows.RollingWindow.Reset | core/src/rolling.rs:64-69 | forgets everything recorded |
| ConsecutiveBreakers.HalfOpenNeverWedges | core/src/breaker.rs:405-484 | for any completions and drops, late ones included, half-open keeps its bounds, and a rejection there means that a probe of this phase is outstanding |
| ConsecutiveBreakers.ProbesInFlight | core/src/breaker.rs:405-484 | probes in flight exceed the limit by no more than the older permits dropped during the phase; with no older permit completed, attempts are exactly probes plus successes |
| ConsecutiveBreakers.ProbeBoundIsReached | core/src/breaker.rs:405-484 | that bound is the exact worst case: for every configuration and every number of late drops some run reaches it |
| ConsecutiveBreakers.LateDropAdmitsSecondProbe | core/src/breaker.rs:478-482 | a run with two probes at a limit of one |
| ConsecutiveBreakers.EveryCallIsCountedOnce | core/src/breaker.rs:392-441 | the calls of a run equal its rejections plus outcomes plus outstanding permits |
| ConsecutiveBreakers.EveryRunKeepsInv | core/src/breaker.rs:405-484 | the invariant behind these |
| BreakerPhases.ClosedOpensIff | core/src/breaker.rs:443-467 | a closed breaker opens exactly on the failure that makes `max_failures` since the last success or since it closed |
| BreakerPhases.OpenWakesIff | core/src/breaker.rs:405-416 | an open breaker stays open until the first call at `reset_timeout` or more after the failure that opened it |
| BreakerPhases.HalfOpenEndsIff | core/src/breaker.rs:443-476 | a half-open breaker closes exactly on the success that makes `half_open_max_calls` in the phase, and opens on any failure |
| BreakerPhases.AdmittedIff | core/src/breaker.rs:392-423 | which calls are admitted, by what was asked and settled before |
| BreakerPhases.CountersAreTheCounts | core/src/breaker.rs:405-484 | the breaker's counters are the counts of what was settled, in every run |
| ConsecutiveBreakers.CircuitBreaker.BeforeConsecutive | core/src/breaker.rs:405-423 | admission and the phase after it |
| ConsecutiveBreakers.CircuitBreaker.RecordConsecutive | core/src/breaker.rs:443-484 | the phase after an outcome |
| ConsecutiveBreakers.CircuitBreaker.Acquire | core/src/breaker.rs:290-300 | asks once in the run; a permit if and only if the phase admits, outstanding until it is finished or dropped |
| ConsecutiveBreakers.Permit.FinishWithOutcome | core/src/breaker.rs:658-662 | settles the permit in the run once and moves the counter of that outcome only; the drop that follows adds nothing |
| ConsecutiveBreakers.Permit.Drop | core/src/breaker.rs:664-670 | a permit dropped unreported counts as one cancellation, a reported one as nothing |
| RollingBreakers.RatioBounds | core/src/breaker.rs:574-587 | the drop ratio is in [0, 1), positive exactly when the calls above the minimum outnumber the weighted accepted ones |
| RollingBreakers.RatioIsTheExcessShare | core/src/breaker.rs:574-587 | the ratio is the share of calls above the minimum and the weighted accepted ones, in the calls plus one |
| RollingBreakers.DroppedIff | core/src/breaker.rs:546-556 | a call is dropped if and only if its ratio is positive and above the number drawn and it is not every `probe_interval`-th call with a positive ratio |
| RollingBreakers.SomeProbeGetsThrough | core/src/breaker.rs:546-556 | no `probe_interval` consecutive decisions are all rejections, whatever the history and the random numbers |
| RollingBreakers.TallyMeaning | core/src/breaker.rs:558-572 | a bucket's counters are the true counts, capped where they saturate |
| RollingBreakers.RollingBreaker.Record | core/src/breaker.rs:558-572 | successes and failures enter the history, cancellations do not |
| RollingBreakers.RollingBreaker.History | core/src/breaker.rs:574-587 | the counts of exactly the outcomes in the window, and the ratio they give |
| RollingBreakers.RollingBreaker.ShouldDrop | core/src/breaker.rs:546-556 | drops exactly when the ratio of the present window, the counter and the random number say so |
| TokenBuckets.GrantsRespectTheRate | core/src/limit.rs:104-133 | over every run and every interval, permits granted are at most the burst plus the yield of the rate in it |
| TokenBuckets.GrantsIffBoundKept | core/src/limit.rs:104-133 | a request is granted if and only if granting it keeps every interval ending with it within that bound |
| TokenBuckets.RetryAfterIsExact | core/src/limit.rs:126-132 | after a refusal the same request succeeds at a delay if and only if the delay is at least the reported one |
| TokenBuckets.HitQuotaIff | core/src/limit.rs:120-125 | `HitQuota` is a grant after which not one more permit would be granted at that instant |
| TokenBuckets.NeverIff | core/src/limit.rs:104-110 | exactly the requests above the burst are told never, and they are never granted and take nothing |
| TokenBuckets.YieldIsProduct | core/src/limit.rs:114-116 | the yield of the rate is rate times time |
| TokenBuckets.BucketBounds | core/src/limit.rs:114-121 | the level stays between zero and the burst |
| TokenBuckets.TokenLimiter.Take | core/src/limit.rs:104-133 | the bucket and the decision after a call |
| LogRotation.OnlyTheOldestIsLost | core/src/log.rs:585-624 | backups from the highest index to 1 followed by the log are the end of everything written, all of it until more than `max_backups` files were closed; compression may be switched at any time |
| LogRotation.DirectoryShape | core/src/log.rs:537-624 | backups are contiguous from 1, one variant each, at most `max_backups`; each file keeps to `max_bytes` unless only its last record has bytes |
| LogRotation.ClosedForWantOfRoom | core/src/log.rs:545-549 | every closed file has bytes, and with the first record of the next file it would have exceeded `max_bytes` |
| LogRotation.NothingClosedWhileAllFits | core/src/log.rs:545-549 | while all that was written fits into one file, it is in the open one |
| LogRotation.CompressedAsSet | core/src/log.rs:601-621 | a backup is compressed if and only if compression was on when it was closed, wherever it has moved since |
| LogRotation.StampedBackupsLoseNothing | core/src/log.rs:591-598 | with `max_backups == 0` and distinct stamps every closed file is kept intact |
| LogRotation.EqualStampsLoseAFile | core/src/log.rs:591-598 | a run with two equal stamps in which the first closed file is gone |
| LogRotation.OwnFileIffStampsDiffer | core/src/log.rs:591-598 | every closed file has a file of its own if and only if the stamps differ |
| LogRotation.RunIsNumbered | core/src/log.rs:585-624 | backup `i` is the `i`-th most recently closed file of a reference that cuts the stream with no directory in sight |
| LogRotation.HistoryIsWellCut | core/src/log.rs:546-563 | that reference loses nothing and respects the size limit |
| LogRotation.MoveBackupsAt | core/src/log.rs:602-611 | the renaming loop moves every backup up by one and leaves index 1 free |
| LogRotation.RotatingFile.RotateSize | core/src/log.rs:585-624 | the in-place rotation refines the function the theorems are about |
| LogRotation.RotatingFile.WriteAll | core/src/log.rs:537-563 | the record ends up in the log, and the directory matches the reference |
| Calendar.DateOfEveryDay | core/src/log.rs:832-846 | for every integer day the result is a valid Gregorian date, and a day count of the calendar gives the day back |
| Calendar.DayOfEveryDate | core/src/log.rs:832-846 | every valid date is the result for its own day, so the map is a bijection |
| Calendar.EpochIsDayZero | core/src/log.rs:832-846 | day 0 is 1970-01-01 |
| Calendar.NextDayIsSuccessor | core/src/log.rs:832-846 | the next day has the next calendar date |
| Calendar.DatesFollowDays | core/src/log.rs:832-846 | dates are ordered exactly as days |
| Calendar.CountFollowsOrder | core/src/log.rs:832-846 | the reference day count follows the calendar order |
| Calendar.TextFollowsOrder | core/src/log.rs:845-845 | date texts compare as dates, for years 0 to 9999 against any year up to 9999 |
| Calendar.TextOrderEnds | core/src/log.rs:845-845 | a pair beyond the year 9999 that compares wrongly |
| Calendar.TextFollowsOrderIff | core/src/log.rs:845-845 | for a year of four digits against any date, texts compare as dates if and only if the other year is at most 9999 or its leading four digits are no smaller |
| Calendar.DailyNameDate | core/src/log.rs:667-679 | the date is recovered from the name of a daily file, compressed or not, if its year has four digits; later files are not recognized |
| Calendar.RecognizedIff | core/src/log.rs:667-679 | a pass looks exactly at the files named by the prefix, ten characters that look like a date, and `.log` or `.log.gz` |
| Calendar.RetentionKeepsTheLastDays | core/src/log.rs:632-664 | up to the year 9999 and for settings up to 2^63, a maintenance pass removes a daily file if and only if it is older than the retained days |
| Calendar.DecidedAsDocumentedIff | core/src/log.rs:632-664 | for every active day and any such setting, a pass decides a file as documented if and only if the cutoff has a year of four digits, or its leading four digits are no smaller than the year of the file |
| Calendar.CutoffOverflowsIff | core/src/log.rs:635-637 | the computation of the cutoff overflows if and only if the setting exceeds 2^63 by at least 1 and at most the active day plus 719469 |
| Calendar.RetentionIsRightIff | core/src/log.rs:632-664 | a pass completes and decides every file the program can have written as documented if and only if the setting is at most 2^63 and the cutoff's year at most 9999, or the setting is above 2^63, nothing overflows and the cutoff's year is above 9999 with leading digits below 1970 |
| Calendar.YearTenThousandKeepsOldFiles | core/src/log.rs:658-660 | a pass on the first day of the year 10000 that leaves yesterday's file although one day is retained |
| Calendar.KeepEverythingRemovesToday | core/src/log.rs:635-637 | with the setting `u64::MAX`, on every day until 9999-12-29, a pass removes today's file |
| Subscriptions.EveryLossInItsPlace | core/src/stores_redis.rs:2196-2218 | for any pattern of full queues, lag reports expanded to that many gaps, then the pending count, reproduce the received stream with every gap in its exact place |
| Subscriptions.LossesAreReportedBeforeDisconnection | core/src/stores_redis.rs:2107-2113 | from the report of a disconnection until messages flow again no loss is pending |
| Subscriptions.WhatHasRoomIsSent | core/src/stores_redis.rs:2196-2218 | a message is delivered if and only if there is room for it and for the lag report owed first, which goes out ahead of it; anything else is owed |
| Subscriptions.ShutdownSaysClosed | core/src/stores_redis.rs:2090-2093 | a shutdown ends the loop, with `Closed` if it can still be delivered |
| Subscriptions.CloseAccountsForAllIffNothingPending | core/src/stores_redis.rs:2090-2093 | at the end the consumer can account for every message if and only if no loss was pending |
| Subscriptions.CloseCanLeaveALossUnreported | core/src/stores_redis.rs:2090-2093 | a run that ends with a loss pending |
| Subscriptions.EventsMakeSense | core/src/stores_redis.rs:2072-2172 | messages only over a live link, reconnections only after disconnections, nothing after the close |
| Subscriptions.BackoffDoubles | core/src/stores_redis.rs:2165-2168 | the delay after each failure in closed form |
| Subscriptions.RetryFollowsBackoff | core/src/stores_redis.rs:2115-2136 | the report names the last error and the delay after as many failures as the signals show since the stream ended |
| Subscriptions.Subscription.EnqueueSubscriptionMessage | core/src/stores_redis.rs:2196-2218 | what is sent and what is owed after one message |
| Subscriptions.Subscription.Run | core/src/stores_redis.rs:2072-2172 | the nested loops follow the step machine for every list of signals |
| Subscriptions.Subscription.SendSubscriptionEvent | core/src/stores_redis.rs:2220-2232 | the event goes out, or the loop ends |
| BatchWorkers.BatchesAreTheStream | core/src/executor.rs:381-489 | executed batches followed by the pending items are the accepted items in order, over any run |
| BatchWorkers.BatchesRespectTheLimit | core/src/executor.rs:449-456 | batches are not empty, every chunk minus its last item is below the limit, and the tracked size is the saturating sum of the pending sizes |
| BatchWorkers.BatchSizes | core/src/executor.rs:400-406 | batches of the batch executor have between one and `max_batch_size` items |
| BatchWorkers.OnlyFlushesCutShort | core/src/executor.rs:381-489 | a batch below the limit is due to a flush, a tick or the end, at most one for each |
| BatchWorkers.AcknowledgedMeansDone | core/src/executor.rs:407-415 | when a flush or shutdown is answered, everything accepted before it has been executed |
| BatchWorkers.NothingPendingAfter | core/src/executor.rs:400-427 | nothing stays pending past a flush, a tick, a shutdown or the closing of the channel |
| BatchWorkers.EveryRequestIsAnswered | core/src/executor.rs:407-420 | every flush and shutdown that reaches the worker is answered, once, and nothing else is |
| BatchWorkers.Worker.RunChunkWorker | core/src/executor.rs:429-479 | the loop refines the step machine |
| BatchWorkers.Worker.RunWorker | core/src/executor.rs:381-427 | the batch worker is the chunk worker with sizes of one |
| BatchWorkers.Worker.FlushBatch | core/src/executor.rs:481-489 | runs the pending items once, if there are any |
| HashRings.AddMovesKeysOnlyToTheNode | core/src/hash.rs:20-33 | adding a node changes the answer for a key only to that node, collisions included |
| HashRings.RemoveMovesOnlyItsKeys | core/src/hash.rs:35-53 | removing a node changes only the answers it gave |
| HashRings.RemoveUndoesAdd | core/src/hash.rs:20-53 | removing a node just added restores the ring exactly |
| HashRings.HistoryMattersIffNodesCollide | core/src/hash.rs:20-53 | the order of additions shows in the ring if and only if two nodes share a point |
| HashRings.AnswerIsUnique | core/src/hash.rs:55-63 | a lookup has exactly one answer, a present node, and none if and only if there are no nodes |
| HashRings.AnswerIsFirstAdded | core/src/hash.rs:55-63 | the answer lies at the first point from the key's hash on, or the first of all, and was added first of the nodes placed there |
| HashRings.NearestIsFirstFrom | core/src/hash.rs:55-60 | nearest clockwise is the first point from the hash on, or the first of all |
| HashRings.RingHoldsTheReplicas | core/src/hash.rs:20-53 | the ring holds every replica of every present node at its own point, and nothing else |
| HashRings.ConsistentHash.Add | core/src/hash.rs:20-33 | nodes, order and ring after an addition |
| HashRings.ConsistentHash.Remove | core/src/hash.rs:35-53 | nodes, order and ring after a removal |
| HashRings.ConsistentHash.Get | core/src/hash.rs:55-63 | the first node at the nearest point clockwise |
| Discovery.ListedWhileLeased | core/src/discov.rs:220-268 | an endpoint is listed if and only if it has an active lease, its count is the number of leases, and no service is empty |
| Discovery.ListedAsPublished | core/src/discov.rs:220-268 | as long as a lease is held, its endpoint is listed with exactly the metadata it was published with |
| Discovery.RefusedIffListedOtherwise | core/src/discov.rs:226-237 | a publication is refused if and only if the endpoint is listed with other metadata, and then changes nothing |
| Discovery.ChangesAlternate | core/src/discov.rs:220-268 | additions and removals of an endpoint alternate, additions first |
| Discovery.CaughtUpExactly | core/src/discov.rs:403-473 | a caught-up subscription holds an endpoint if and only if it is listed and the last event sent for it since the start was not a removal |
| Discovery.OrderedSendsConverge | core/src/discov.rs:306-329 | with events sent in the order of changes, replay over any later snapshot converges, for `subscribe` and `resync` |
| Discovery.NoPhantomEndpoints | core/src/discov.rs:363-400 | whatever the order of sends, a withdrawn endpoint never stays behind |
| Discovery.OvertakenRemovalLosesEndpoint | core/src/discov.rs:363-400 | a run in which a listed endpoint is lost |
| Discovery.EveryInterleavingKeepsInv | core/src/discov.rs:220-473 | the invariant behind these |
| Discovery.ServiceRegistry.PublishEndpoint | core/src/discov.rs:220-268 | the registry, the event and the lease after a publication, and the conflict that changes nothing |
| Discovery.ServiceLease.Release | core/src/discov.rs:363-400 | a lease counts once, however often it is released |
| Discovery.ServiceSubscription.Recv | core/src/discov.rs:450-473 | replays the channel and returns only an event that changed the snapshot, or how many events were lost if and only if it is more than the buffer behind |
| Discovery.ServiceSubscription.Changed | core/src/discov.rs:487-498 | the endpoint set after a change, taken afresh after a lag |
| Discovery.ServiceRegistry.Subscribe | core/src/discov.rs:306-329 | a snapshot and the place from which to replay |
| MapReduces.MapReduce.Execute | mapreduce/src/mapreduce.rs:39-53 | for every order of completion: exactly the emitted keys, the sequential result if the reduction ignores order, an error if and only if a job panics, and never more than `max_concurrent_tasks` jobs |
| MapReduces.OrderBlindIsSequential | mapreduce/src/mapreduce.rs:39-53 | confluence, for any bag-preserving order of the mapped pairs |
| MapReduces.MapReduce.MapPhase | mapreduce/src/mapreduce.rs:55-86 | the emitted pairs as a bag, and the bound on jobs |
| MapReduces.MapReduce.ShufflePhase | mapreduce/src/mapreduce.rs:88-96 | the values of each key in order |
| MapReduces.MapReduce.ReducePhase | mapreduce/src/mapreduce.rs:98-133 | every group reduced, and the bound on jobs |
| MapReduces.ValuesOfPermutation | mapreduce/src/mapreduce.rs:88-96 | the values of a key, as a bag, do not depend on the order of the pairs |
| MapReduces.ValuesConcat | mapreduce/src/mapreduce.rs:88-96 | the values of a key come in the order of the pairs |

## Left out

- SQL pools, metrics, telemetry, HTTP and gRPC transports, the etcd and Kubernetes clients, Redis commands and scripts: wrappers over libraries that are not modelled.
- `MongoStore` in core/src/stores_mongo.rs runs the same coherence protocol as `CachedSqlStore`.
- Load shedding, balancing, Bloom filters, queues, tracing and gateway routing: counters and lookups with easier invariants than the ones above.
- Mutex poisoning, allocation failure, counters wrapping at 2^64, the `as u32` truncation of bucket counts and overflow of instants and durations, and of days elsewhere than in the retention cutoff. Where the source saturates a counter that a theorem uses, the model saturates too, except for the counters of hits, losses and bytes written.
- Rounding of floating point and of durations: the rolling sums, the drop ratio and the token bucket are over the reals.
- Queries read the database at one instant, and every change of the database is one commit.
- SqlGuarantees.CachedRowsAreCurrent: speaks of cache contents; a caller that joins a load in flight may still be handed that load's older value.
- SqlInvariant.EveryInterleavingKeepsInv: single flight is left out of this machine, so it allows more loads of a key at a time than the program does; the lifetimes are arbitrary there.
- SqlStores.CachedSqlStore.StoreRow: what the generator makes of the sequence number is an arbitrary number.
- `find` and `find_by_index` as a whole are step machines, not methods: the model has no threads; the stretches they run under the gate are the methods `StoreRow` and `StoreAnswer`, to which the single steps are tied. `take` is a step machine throughout.
- SingleFlights.WaitersGetTheirLeadersOutcome: for operations and clones of results that do not panic; what a panic while sending does is `SendingPanicHitsNewcomerIff` and `SendingPanicStrandsWaiterIff`.
- SingleFlights.SingleFlight.Complete: removal and sends run in one method; the step machine interleaves them with other callers.
- RollingBreakers.SomeProbeGetsThrough: the admission counter does not wrap, and decisions are ordered by their increment of it.
- The random generator of the rolling breaker: its numbers are arbitrary in [0, 1).
- LogRotation.RotatingFile.WriteAll: size rotation only, no file-system errors, and decompression is assumed to undo compression; the file handle and `reopen_active` are left out.
- Daily rotation other than the retention decision, and the parsing of record formats.
- Calendar.RetentionKeepsTheLastDays: for settings up to 2^63 and active days up to the year 9999, because it fails beyond (`RetentionIsRightIff`); for files dated from the year 0 on, as the program's clock starts in 1970.
- Calendar.CutoffOverflowsIff: what a build without overflow checks computes after such an overflow.
- Subscriptions.Subscription.Run: the endpoint to reconnect to is left out, and so is the rewriting of channel names; `endpoint_index` does not influence the events.
- Validation of service names, endpoints and weights; names are assumed to have passed it. Sorting of endpoint lists.
- Discovery.ServiceRegistry.PublishEndpoint: changes and sends in one method; the step machine separates them. In the step machine the capacity of the channel appears as subscriptions that lag.
- Discovery.ServiceSubscription.Recv: a call that would wait returns `Pending`. `RegistryClosed` cannot occur, because the subscription itself keeps the sending half alive.
- HashRings.ConsistentHash.Get: the ordered map's search is a choice of the least suitable key; `hash_bytes` is an arbitrary function.
- MapReduces.MapReduce.Execute: jobs run to completion between spawn and join; a panic is a job without a result.
