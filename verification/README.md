# Verified model of the query service core

A Dafny model, with proofs, of the parts of the service that carry its hardest promises:

- the connection pools (asynchronous and threaded) as state machines over every
  interleaving of their critical sections;
- the quantile arithmetic: the P-squared streaming estimator (Jain and Chlamtac, 1985), bucket
  histograms, interpolated percentiles, and the merge of many workers' summaries;
- the two-level query cache: LRU level, stored level, single flight, the index between keys
  and tables, and invalidation after writes;
- the request trace tree and its accounting of time;
- bounded results and placeholder rewriting;
- the rate-limit window and the migration runner.

`dafny verify dfyconfig.toml` checks everything. Floats are modelled by `real`; clocks, the
database, the connection factory and the scheduler are parameters or events.

## How it is built

Each component has a model on values (a step function and runs of steps) and, where the
source updates objects in place, a class whose methods are proved to make exactly those
steps. The theorems are about all runs of the model. `PoolStories`, `FlightStories` and
`TraceTimes` tell what a run must have done from its events alone, and prove that the model's
state says so.

| component | model and theorems | objects |
|---|---|---|
| pool size | `AdaptiveSizing` | `AdaptiveSizing.AdaptiveSizer` |
| asynchronous pool | `PoolModel`, `PoolSafety`, `PoolWakeups`, `PoolStories`, `PoolWaits` | `AsyncPool` |
| threaded pool | `SyncPool`, `PoolStories` | `SyncPool.SyncConnectionPool` |
| streaming quantiles | `P2Estimator`, `Sorting` | `P2Estimator.StreamingPercentileEstimator` |
| histograms, percentiles, merge | `Histograms`, `Percentiles`, `Merging`, `StreamingHistograms` | `Histograms.Histogram`, `StreamingHistograms.StreamingHistogram` |
| traces | `TraceModel`, `TraceTimes` | `Traces` |
| limits and placeholders | `BoundedRows`, `Placeholders` | their methods |
| L1 cache | `LruCache` | `LruCache.LRUQueryCache`, `LruCache.HybridQueryCache` |
| coordinator and query service | `CacheIndex`, `SingleFlight`, `FlightStories`, `CacheRaces`, `QueryCaching` | `QueryObjects` |
| rate limit | `RateLimiting` | `RateLimiting.PersistentAuthState` |
| migrations | `Migrations` | `Migrations.Runner` |

## Where the code does not do what it says

The model follows the code. Each finding has a witness and the exact condition under which it
happens, for all inputs unless a hypothesis is named.

- **Lost wake-ups in the asynchronous pool.** A failed or cancelled creation
  (core/db/pool/async_pool.py:124-131), growth of the size, a signalled caller that times out
  or is cancelled (109-115 and 144-151), and a broken release cancelled while it closes the
  connection (189-194) free capacity or use up a wake-up without waking anyone. Runs:
  `FailedCreationStrands`, `GrowthStrands`, `SignalledTimeoutStrands`,
  `CancelledEvictionStrands`. `StrandsExactlyWhen` says exactly when a step leaves a queued
  caller beside capacity nobody is coming for; `NoLostWakeup` shows there is no other way. In
  the threaded pool only a failed creation and growth can do it (`SyncStrandsExactlyWhen`),
  because a blocked thread looks again before it gives up.
- **A cancelled creation can lose its slot.** The comment at
  core/db/pool/async_pool.py:125-128 promises that cancellation gives the reserved slot back.
  It does so exactly when it strikes inside the factory call. At the pool lock, which a
  release holds while it closes a broken connection, nothing handles it, whether the factory
  has returned (line 134) or raised (line 129): `SlotReturnsExactlyWhen`, with the run
  `CancelledAtLockLeaks`. Without evictions of broken connections it cannot happen:
  `OnlyEvictionsLeak`.
- **Timing out beside capacity.** The asynchronous pool does not look again after a timeout.
  In a run without lossy events, a queued caller is refused beside capacity only while others
  are on their way to it (`QueuedTimesOutBeside`). A signalled one, if nothing is returned,
  given back or resized between its wake-up and its timeout, is refused beside capacity exactly
  when fewer calls have looked in between than was spare after the wake-up
  (`RefusedBesideExactlyWhen`), with the run `SignalledTimeoutStrands`. The threaded pool
  refuses only when it is full: `RefusedOnlyWhenFull`.
- **Units of the wait histogram.** The pools feed it milliseconds (core/db/pool/policy.py:64-66),
  and it divides what it is fed by a million before it looks for the bucket
  (core/performance/histogram.py:51-81). A wait is counted in its own bucket if and only if no
  bound lies between a millionth of it and itself: `WaitInRightBucketExactlyWhen`. With the
  default bounds that is every wait up to half a millisecond, and none longer below 115 days
  (`DefaultBoundsRightExactlyWhen`, `WaitInWrongBucket`). It reaches the bucket counters only:
  the pool's metrics read the snapshot (core/db/pool/metrics.py:80-82), which has none of them,
  so only a reader of the histogram's own counters sees it.
- **Warm-ups and the cooldown.** A warm-up raises the size and leaves the idle streak alone, so
  the next quiet observation can take a connection back at once: `WarmUpKeepsStreak`. The five
  quiet observations before a shrink were made at the higher size if and only if no warm-up
  among them raised it (`ShrinksOnlyAfterQuiet`).
- **The last bound does not mean overflow.** `percentile_from_buckets` also returns the last
  bound when the target rank is the last sample of the last finite bucket:
  `LastBoundWithoutOverflow`, and exactly when: `LastBoundExactlyWhen`.
- **Mixed bucket layouts.** The merge keeps the first layout it sees: the result depends on
  the order of the workers if and only if their layouts differ (`OrderMattersExactlyWhen`);
  `MixedLayoutsDisagree` is an instance.
- **Cached answers and limits.** The entry in L1 or L2 that answers a read holds the full
  result cut by limits of an earlier time. The rows returned are right if and only if the limits
  in force keep no more rows than the entry has, and the truncation flag if and only if they
  keep fewer, or everything: `AnswerRightExactlyWhen`. `HitsGoWrong` shows both failures for
  every query whose result is cut.
- **Reads in flight during a write.** After a write has invalidated, data from before it can
  still get into L1 if and only if a call over one of its tables is past its read, in L2 or in
  the database, and has not filled, or the old data is still in L2 or in a queued persistence
  job: `OutlivesInvalidationExactlyWhen`, with the runs `ReadOutlivesWrite` and
  `RowOutlivesWrite`.
- **The rate limit** admits up to 2 * max_attempts - 1 attempts in a window's length
  (`AtMostTwiceLessOne`), and that many happen (`BoundIsReached`); the limit is what its name
  says exactly for max_attempts <= 1 (`PromiseKeptExactlyWhen`).

## Assumptions kept visible

- Pools: a connection is released by whoever was handed it, once, or not known to the pool;
  a factory returns connections the pool does not know; nothing is said about `close_all`.
- The identity of a placeholder object is not reused while `_in_use` holds it. The identities
  of live objects differ, so this matters only for slots that have leaked.
- `NoLostWakeup` assumes a run without the lossy events listed above; everything in
  `PoolSafety` holds without it.
- Cache coherence (`QueryCaching`): requests follow one another; distinct queries have distinct keys; a read
  depends only on the tables its text names; a write that names tables changes no others; a
  name that was extracted occurs in the text (`QueryCaching.Reasonable`) and is not empty;
  L1 has room for at least one entry.
- Retry convergence: a statement only adds objects that are absent, so that the schema is a
  map that grows.
- Traces and rate limits: the clock does not go backwards.

## Model

| member | source | states |
|---|---|---|
| AdaptiveSizing.StreakIsQuiet | core/db/pool/adaptive.py:60-91 | at any time, in any run of observations and warm-ups, the idle streak is the number of quiet observations since one last met pressure or moved the size |
| AdaptiveSizing.ShrinksExactlyWhen | core/db/pool/adaptive.py:80-91 | a move shrinks the pool if and only if it is a quiet observation above the minimum and with it the quiet ones in a row are five; it shrinks it by one |
| AdaptiveSizing.GrowsExactlyWhen | core/db/pool/adaptive.py:80-91 | it grows if and only if below the maximum an observation meets pressure, then by one, or a warm-up has a larger target, then to it or the maximum |
| AdaptiveSizing.ShrinksOnlyAfterQuiet | core/db/pool/adaptive.py:24-45 | in any such run the size drops only when the last five observations were quiet; they were all made at the higher size if and only if no warm-up among them raised it |
| AdaptiveSizing.WarmUpKeepsStreak | core/db/session.py:494-501 | a run in which one quiet observation after a warm-up shrinks the pool |
| AdaptiveSizing.AdaptiveSizer.AdjustSize | core/db/pool/adaptive.py:60-91 | one observation moves size and streak as the specification says, from waiters and recent wait |
| AdaptiveSizing.AdaptiveSizer.RaiseTo | core/db/session.py:494-501 | warm-up raises the size to the capped target and never lowers it |
| PoolModel.RemovedAt | core/db/pool/async_pool.py:111-112 | removing a waiter cuts out exactly that one and keeps the order of the others |
| PoolSafety.CapacityKept | core/db/pool/async_pool.py:76-143 | every step keeps min <= current <= max and idle + in use (reservations included) <= max |
| PoolSafety.CallsKept | core/db/pool/async_pool.py:85-143 | every step keeps the queue equal to the queued callers, once each, the reservations equal to the callers in or past the factory (or leaked), and nobody held up by a free lock |
| PoolSafety.ExclusiveKept | core/db/pool/async_pool.py:76-84 | every step keeps idle and checked-out connections disjoint and every checked-out connection with exactly one holder |
| PoolSafety.OrderedKept | core/db/pool/async_pool.py:197-199 | every step keeps the idle heap strictly ordered by the stored time then counter, the queue first in, first out, and the window equal to the newest of all waits recorded |
| PoolSafety.LedgerKept | core/db/pool/async_pool.py:70-211 | every step keeps successes = hits + misses = waits recorded, misses = creations = idle + held + evicted, and requests = successes + timeouts + those who left by a failure or a cancellation, leaking ones too, + those still inside |
| PoolSafety.SlotsKept | core/db/pool/async_pool.py:85-143 | every step keeps the number of entries in use equal to holders plus creations under way plus leaks |
| PoolSafety.SafeInEveryRun | core/db/pool/async_pool.py:15-211 | all of the above hold at the end of every interleaving, from any state where they hold |
| PoolSafety.SafeFromStart | core/db/pool/async_pool.py:32-68 | and therefore in every interleaving of a new pool |
| PoolSafety.SizerFollowsMoves | core/db/pool/async_pool.py:225-234 | in every run of the pool the sizer does just what the observations of `metrics()` and the warm-ups of that run do to it, so the results on the size hold there |
| PoolSafety.HandsOutOldest | core/db/pool/async_pool.py:77-84 | the connection handed out is the one the heap stores under the earliest time; the others stay idle |
| PoolStories.StoredAsTold | core/db/pool/async_pool.py:70-211 | in every run of a new pool: the time stored with a connection, idle or checked out, is that of the event that last handed it out; the connections idle or checked out are exactly those created and not evicted; every counter is the number of the events it counts, and every total and wait is the sum or the list of their times |
| PoolStories.HandsOutLongestIdle | core/db/pool/async_pool.py:77-84 | so a look that finds idle connections is handed one that was last handed out longest ago, and no other |
| PoolStories.CountsBlocked | core/db/pool/async_pool.py:102-104 | the total of waiters is the number of looks that found the pool full |
| PoolStories.PressedExactlyWhen | core/db/pool/async_pool.py:213-234 | reading the metrics sees pressure if and only if a call is queued or the newest fifty calls served waited more than five milliseconds on average |
| PoolWakeups.CoveredInEveryRun | core/db/pool/async_pool.py:70-211 | in every run, whatever fails, spare capacity beside a queue is at most the signalled callers plus the wake-ups lost since a caller last queued |
| PoolWakeups.NoLostWakeup | core/db/pool/async_pool.py:200-211 | without lossy events nobody is stranded, and once every signalled caller has looked again a queued caller means nothing idle and no slot free |
| PoolWakeups.StrandsExactlyWhen | core/db/pool/async_pool.py:105-151 | a step strands a caller if and only if it is lossy, somebody waits, and, counted before the step, no caller on its way is left over for the capacity |
| PoolWakeups.OldestIsWoken | core/db/pool/async_pool.py:210-211 | a release wakes the caller that queued first, removes exactly it, and leaves the rest queued |
| PoolWakeups.FailedCreationStrands | core/db/pool/async_pool.py:124-131 | a run of a pool of one that leaves a caller asleep beside a free slot |
| PoolWakeups.GrowthStrands | core/db/pool/async_pool.py:225-234 | a run in which reading the metrics grows the pool beside a sleeping caller |
| PoolWakeups.CancelledEvictionStrands | core/db/pool/async_pool.py:187-211 | a run in which an eviction cancelled while closing leaves a caller asleep beside a free slot |
| PoolWakeups.SignalledTimeoutStrands | core/db/pool/async_pool.py:107-118 | a run in which a signalled caller times out beside the idle connection it was woken for, and the next sleeps on beside it |
| PoolWakeups.QueuedTimesOutBeside | core/db/pool/async_pool.py:107-115 | in a run of a new pool without lossy events, a queued caller times out beside capacity only while at least as many callers are on their way as there is capacity |
| PoolWakeups.RefusedBesideExactlyWhen | core/db/pool/async_pool.py:107-118 | if nothing is returned, given back or resized in between, a signalled caller that times out is refused beside what it was woken for exactly when fewer calls have looked since than was spare after the wake-up |
| PoolWakeups.LeakedSlotNeverReturns | core/db/pool/async_pool.py:124-135 | a leaked slot stays reserved in every continuation, while its key is not reused |
| PoolWakeups.LeaksShrinkCapacity | core/db/pool/async_pool.py:124-143 | in every run the leaks only grow, and what is idle, held or being created fits into max minus the leaks |
| PoolWakeups.SlotReturnsExactlyWhen | core/db/pool/async_pool.py:122-143 | after a cancellation some continuation gives the slot back if and only if it struck inside the factory call; otherwise none does |
| PoolWakeups.OnlyEvictionsLeak | core/db/pool/async_pool.py:187-194 | without evictions of broken connections no run loses a slot |
| PoolWakeups.CancelledAtLockLeaks | core/db/pool/async_pool.py:134-143 | a run of a pool of two in which a caller is cancelled at the lock while an eviction holds it |
| PoolModel.Windowed | core/db/pool/policy.py:50-69 | the window of recent waits keeps the newest entries, at most fifty, in order |
| PoolWaits.WaitInRightBucketExactlyWhen | core/db/pool/policy.py:64-66 | the wait histogram counts a wait in the bucket it belongs to if and only if no bound lies between a millionth of the wait and the wait |
| PoolWaits.RightOnlyBeyondTheBounds | core/performance/histogram.py:51-81 | if no bound is a million times another: if and only if the wait is within the first bound or a millionth of it is beyond the last |
| PoolWaits.DefaultBoundsRightExactlyWhen | core/performance/constants.py:25-40 | with the default bounds: if and only if it took at most half a millisecond or more than ten million seconds |
| PoolWaits.WaitInWrongBucket | core/db/pool/policy.py:64-66 | with the default bounds a wait of a second is counted as at most half a millisecond |
| AsyncPool.AsyncConnectionPool.RecordAcquire | core/db/pool/async_pool.py:153-164 | counts a success, a hit if it was one, and the wait: in the total, in the window, and in what the wait histogram has been fed |
| AsyncPool.AsyncConnectionPool.BeginAcquire | core/db/pool/async_pool.py:70-73 | counts the request; the invariant holds before and after, as for all methods below |
| AsyncPool.AsyncConnectionPool.TryAcquire | core/db/pool/async_pool.py:76-104 | the locked block hands out the head of the heap, or reserves a slot, or queues; exactly the model's step |
| AsyncPool.AsyncConnectionPool.WaitTimedOut | core/db/pool/async_pool.py:109-115 | dequeues the caller if still queued, and counts the timeout and the wait |
| AsyncPool.AsyncConnectionPool.AcquireCancelled | core/db/pool/async_pool.py:144-151 | dequeues the caller if still queued and counts nothing; a signalled caller leaves at once |
| AsyncPool.AsyncConnectionPool.CreationFailed | core/db/pool/async_pool.py:124-131 | gives the slot back and wakes nobody, or waits for the lock to do so |
| AsyncPool.AsyncConnectionPool.CancelledAtLock | core/db/pool/async_pool.py:129-135 | a cancellation while waiting for the lock leaves the slot reserved |
| AsyncPool.AsyncConnectionPool.CreationDone | core/db/pool/async_pool.py:132-143 | turns the reservation into a checked-out connection and counts it with its creation time |
| AsyncPool.AsyncConnectionPool.ReleaseConnection | core/db/pool/async_pool.py:184-211 | puts the connection back in the heap and wakes the oldest waiter; ignores unknown connections |
| AsyncPool.AsyncConnectionPool.BeginEviction | core/db/pool/async_pool.py:184-194 | takes the broken connection out for good and keeps the lock while it is closed |
| AsyncPool.AsyncConnectionPool.EndEviction | core/db/pool/async_pool.py:189-211 | wakes the oldest waiter, unless the closing was cancelled, and gives the lock back |
| AsyncPool.AsyncConnectionPool.ResizeForMetrics | core/db/pool/async_pool.py:225-234 | reading the metrics adjusts the size from the queue and the average of the window |
| AsyncPool.AsyncConnectionPool.RaiseForWarmUp | core/db/session.py:494-501 | warm-up is the model's step |
| AsyncPool.AsyncConnectionPool.Interleave | core/db/pool/async_pool.py:70-234 | any run of the model, by the methods it belongs to, ends where the model ends |
| AsyncPool.AsyncConnectionPool.Acquire | core/db/pool/async_pool.py:70-151 | the retry loop, cancelled anywhere or not: whatever others do while it is suspended, a connection it returns is checked out to this call and to nobody else, and a call that fails leaves no waiter behind, and no slot unless it was cancelled at the lock after the factory call |
| SyncPool.CountingKept | core/db/pool/sync_pool.py:80-83 | the waiter count is the number of counted calls, among them every blocked one and none that has yet to look |
| SyncPool.BaseKept | core/db/pool/sync_pool.py:58-165 | every step of the threaded pool keeps all the safety properties of the other pool |
| SyncPool.SyncSafeInEveryRun | core/db/pool/sync_pool.py:58-165 | so they and the count hold in every interleaving of threads |
| SyncPool.SyncSafeFromStart | core/db/pool/sync_pool.py:21-56 | from a new pool |
| PoolStories.SyncStoredAsTold | core/db/pool/sync_pool.py:58-165 | the stored times, the connections and the counters of the threaded pool are those its events tell, in every interleaving |
| PoolStories.SyncHandsOutLongestIdle | core/db/pool/sync_pool.py:66-79 | and it too hands out a connection last handed out longest ago |
| PoolStories.SyncCountsBlocked | core/db/pool/sync_pool.py:80-83 | the waiters ever counted are the calls that found the pool full, each once |
| PoolStories.SyncPressedExactlyWhen | core/db/pool/sync_pool.py:183-193 | its pressure is a call that counts as a waiter, or the same average |
| PoolStories.SyncSizerFollowsMoves | core/db/pool/sync_pool.py:183-193 | its sizer does just what its observations and warm-ups do to it |
| SyncPool.RefusedOnlyWhenFull | core/db/pool/sync_pool.py:66-89 | in every run the timeouts counted are exactly the calls refused, past their deadline, while connections held and in the making filled the pool |
| SyncPool.SyncStrandsExactlyWhen | core/db/pool/sync_pool.py:103-108 | a step strands a thread if and only if it is a failed creation or growth, somebody waits, and the free slots with those it frees, counted before the step, exceed the calls on their way |
| SyncPool.SyncNoLostWakeup | core/db/pool/sync_pool.py:160-165 | without those nobody is ever stranded, although threads time out whenever they like |
| SyncPool.SyncConnectionPool.TryAcquire | core/db/pool/sync_pool.py:66-100 | one turn of the loop: hand out, reserve, refuse, or wait; exactly the model's step, and the invariant is kept, as by all methods below |
| SyncPool.SyncConnectionPool.JoinOrRefuse | core/db/pool/sync_pool.py:80-98 | a full pool counts the call as a waiter once, and refuses it exactly past its deadline, counting the wait |
| SyncPool.SyncConnectionPool.CreationFailed | core/db/pool/sync_pool.py:103-108 | gives the slot back and notifies nobody |
| SyncPool.SyncConnectionPool.CreationDone | core/db/pool/sync_pool.py:109-119 | turns the reservation into a checked-out connection and counts it with its creation time and wait |
| SyncPool.SyncConnectionPool.ReleaseConnection | core/db/pool/sync_pool.py:138-165 | puts the connection back and notifies the thread that has waited longest |
| SyncPool.SyncConnectionPool.BeginEviction | core/db/pool/sync_pool.py:145-153 | takes the broken connection out for good and keeps the lock while it is closed |
| SyncPool.SyncConnectionPool.EndEviction | core/db/pool/sync_pool.py:161-165 | notifies the thread that has waited longest |
| SyncPool.SyncConnectionPool.ResizeForMetrics | core/db/pool/sync_pool.py:183-193 | the pressure is the count of waiters, not the length of the queue, or the average of the window |
| SyncPool.SyncConnectionPool.FinishAcquire | core/db/pool/sync_pool.py:120-123 | the call stops counting as a waiter |
| Sorting.SortRanks | core/performance/histogram.py:203-207 | the r-th element of the sorted samples is an r-th smallest sample |
| P2Estimator.CellBrackets | core/performance/histogram.py:168-176 | the cell found is the one between whose markers the sample lies |
| P2Estimator.ParabolicExact | core/performance/histogram.py:210-215 | the parabolic formula follows the one parabola through the marker and its two neighbours |
| P2Estimator.LinearExact | core/performance/histogram.py:218-222 | the linear formula follows the line through the marker and the neighbour it moves to |
| P2Estimator.NeverBlocked | core/performance/histogram.py:183-190 | the end markers never block the moves that keep markers 1 and 3 on track |
| P2Estimator.KeepsRunning | core/performance/histogram.py:164-196 | one update keeps positions strictly rising from 1 to n, heights sorted between true minimum and maximum, targets exact, and the tracking bounds of all three inner markers |
| P2Estimator.RunsOnEveryStream | core/performance/histogram.py:143-196 | for every stream of five or more samples: all of that, with desired[i] = 1 + (n - 1) * increment[i], desired[3] - positions[3] < 1, desired[1] - positions[1] > -1 and -2 < desired[2] - positions[2] < 3 |
| P2Estimator.EstimateTracksQuantile | core/performance/histogram.py:198-207 | the estimate is the height of a marker that stands less than three positions from the rank 1 + (n - 1) * q |
| P2Estimator.StartsAtSamples | core/performance/histogram.py:156-162 | after five samples the markers are those samples in order |
| P2Estimator.EveryUpdate | core/performance/histogram.py:164-196 | every later sample, from the markers before and after it: the extremes stretch, the markers it falls below move on, and each inner marker moves by one towards its target if and only if it is a whole position off and has room, to the parabola through it and its neighbours if that lies strictly between them, else to the line |
| P2Estimator.EstimateInRange | core/performance/histogram.py:198-207 | every non-empty stream's estimate lies between its least and greatest sample |
| P2Estimator.EarlyEstimate | core/performance/histogram.py:203-206 | before five samples the estimate is the sample of rank floor(q * (n - 1)) + 1 |
| P2Estimator.StreamingPercentileEstimator.Observe | core/performance/histogram.py:143-154 | one sample does what the model's observation does |
| P2Estimator.StreamingPercentileEstimator.InitializeMarkers | core/performance/histogram.py:156-162 | sorts the first five samples in place and sets markers and targets |
| P2Estimator.StreamingPercentileEstimator.UpdateMarkers | core/performance/histogram.py:164-196 | placing the sample and the three turns of the adjustment loop, in place |
| P2Estimator.StreamingPercentileEstimator.PlaceSample | core/performance/histogram.py:168-181 | stretches the extremes, moves the markers above the sample and all targets |
| P2Estimator.StreamingPercentileEstimator.AdjustInner | core/performance/histogram.py:183-196 | moves each inner marker that is a whole position off and has room |
| P2Estimator.StreamingPercentileEstimator.AdjustOne | core/performance/histogram.py:184-196 | one turn: a whole position towards the target, by the parabola if that keeps the heights in order, else by the line |
| Histograms.FedIsExact | core/performance/histogram.py:51-81 | count, sum, minimum, maximum and every bucket counter are exactly those of the stream |
| Histograms.CumulativeCounts | core/performance/histogram.py:90-99 | the running sum of the counters up to a bound is the number of samples not above it |
| Histograms.Histogram.CumulativeCountsOf | core/performance/histogram.py:90-99 | the dictionary of labels and running counts |
| Histograms.LabelsAre | core/performance/histogram.py:92-98 | it has every bound's label and +Inf, and nothing else |
| Histograms.LabelledAt | core/performance/histogram.py:92-98 | equal bounds share a label, which carries the last of their running counts |
| Histograms.CheckBounds | core/performance/histogram.py:44-49 | comparing the bounds with their sorted copy accepts exactly the ascending ones |
| Percentiles.PercentileFromBuckets | core/performance/histogram.py:225-262 | the loop computes the specified interpolation, or fails when lengths differ |
| Percentiles.EstimateReachesTarget | core/performance/histogram.py:248-262 | for any counts: drawn as a line through each bucket, the running counts reach the target rank at the estimate, if the finite buckets reach it; else it is the last bound |
| Percentiles.TargetIsShare | core/performance/histogram.py:248 | the target rank is the share q of the total |
| Percentiles.SameBucketAsExact | core/performance/histogram.py:238-262 | the estimate lies in the bucket of the exact ceil(q * N)-th smallest sample, so the error is at most that bucket's width; the last bound if that sample overflows |
| Percentiles.ExactExists | core/performance/histogram.py:248-262 | that sample exists for every non-empty stream and every q in (0, 1] |
| Percentiles.LastBoundExactlyWhen | core/performance/histogram.py:250-262 | the result is the last bound if and only if the rank lies beyond the finite buckets or is the last sample of the last finite one |
| Percentiles.LastBoundWithoutOverflow | core/performance/histogram.py:259-262 | a stream without overflow whose result is the last bound |
| Percentiles.MonotoneInQ | core/performance/histogram.py:225-262 | a larger quantile never gives a smaller estimate, for any counts |
| StreamingHistograms.EstimateWithinHistogram | core/performance/histogram.py:286-313 | the streaming estimate lies between the minimum and maximum the paired histogram reports |
| StreamingHistograms.StreamingHistogram.Observe | core/performance/histogram.py:286-290 | histogram and all estimators stay at the same stream |
| StreamingHistograms.StreamingHistogram.Quantile | core/performance/histogram.py:292-300 | the tracked estimate, or which of the two errors |
| Merging.CombineFed | core/performance/dashboard/merge.py:142-165 | combining two histograms is the histogram of both streams |
| Merging.FedPermuted | core/performance/histogram.py:51-81 | a histogram does not depend on the order of its samples |
| Merging.MergeIsHomomorphic | core/performance/dashboard/merge.py:123-194 | for any split of a stream over workers with equal bounds, the merged histogram and everything reported from it are those of one histogram fed the whole stream |
| Merging.ReportIsExact | core/performance/dashboard/merge.py:167-194 | number, sum, mean and extremes reported are those of all samples together, and each quantile, in nanoseconds, is where their interpolated running counts reach it |
| Merging.OrderOfSnapshotsDoesNotMatter | core/performance/dashboard/merge.py:123-165 | with equal bounds any order of the snapshots gives the same histogram |
| Merging.OrderMattersExactlyWhen | core/performance/dashboard/merge.py:139-165 | for any number of workers, every order merges alike if and only if all bucket layouts agree |
| Merging.MixedLayoutsDisagree | core/performance/dashboard/merge.py:139-145 | two workers with different layouts whose two orders disagree |
| Merging.FirstLayoutWins | core/performance/dashboard/merge.py:139-145 | whatever the layouts, the merge is the histogram of the samples of exactly the workers that share the first layout |
| Merging.FleetQuantileInExactBucket | core/performance/dashboard/merge.py:179-194 | the fleet-wide quantile lies in the bucket of the exact order statistic of all samples together and is off by at most its width; it is the last bound if that sample overflows |
| Merging.MergeHistograms | core/performance/dashboard/merge.py:123-165 | the loops leave, under each name and tag key, all workers' histograms of that key combined in order, and nothing else; they fail exactly when two entries of one key agree on bounds but not on the number of counters |
| Merging.MergeValues | core/performance/dashboard/merge.py:97-121 | counters are summed per key; gauges are summed, except host-level ones, which take the maximum |
| TraceModel.EveryRunKeeps | core/performance/trace.py:36-131 | after any calls under a non-decreasing clock: the unfinished nodes are exactly the path from the root to the active node, children lie inside their parent, siblings do not overlap |
| TraceModel.OnlyStateErrors | core/performance/trace.py:85-126 | such calls fail only because the trace is over or nothing is active |
| TraceModel.ClampNeverBites | core/performance/trace.py:66-72 | the clamp at zero never changes an exclusive duration |
| TraceModel.TimeIsConserved | core/performance/trace.py:66-72 | once no node is active all are finished and the exclusive durations of the tree add up to the root's duration |
| TraceTimes.NodeTimes | core/performance/trace.py:36-121 | from the calls alone: there is one node for each bracket opened; it started at the reading of the start that opened it and lasted until the reading of the finish that closed it, matched as brackets are |
| TraceTimes.ExclusiveIsActiveTime | core/performance/trace.py:66-72 | the exclusive duration of a node that has ended is the time between calls during which its bracket was the innermost one open |
| Traces.TraceNode.Finish | core/performance/trace.py:36-47 | idempotent; refuses to end before the start; else records end and duration |
| Traces.TraceNode.AddChild | core/performance/trace.py:49-55 | refuses a node that has a parent; else appends it and sets the pointer |
| Traces.Trace.Start | core/performance/trace.py:85-111 | adds a node under the active one, started at the reading, and makes it active, or fails as the model does |
| Traces.Trace.Finish | core/performance/trace.py:113-121 | ends the active node at the reading, with the time since its start, and makes its parent active; fails if and only if nothing is active or the reading is earlier than the start |
| Traces.Trace.FinishAll | core/performance/trace.py:123-126 | ends the active node and all its ancestors; terminates because the cursor climbs |
| Traces.Trace.ExclusiveDuration | core/performance/trace.py:66-72 | own time minus the children's, from the mutable tree |
| BoundedRows.FetchBounded | core/db/adapters/postgresql.py:497-518 | for every batch size the loop returns the longest prefix within both limits, and says truncated exactly when rows are missing |
| BoundedRows.ApplyResultLimits | core/services/query_service.py:249-274 | the second implementation returns the same |
| BoundedRows.BoundedIsLongest | core/services/query_service.py:249-274 | what both return is the longest prefix within the row limit and the byte limit, flagged as cut if and only if a row is missing |
| BoundedRows.Kept | core/services/query_service.py:249-274 | the number kept fits both limits and no larger prefix does |
| BoundedRows.BoundedTwice | core/services/query_service.py:249-274 | limiting a limited result equals limiting the full one by the tighter of each limit |
| BoundedRows.BoundedAgain | core/services/query_service.py:249-274 | applying the same limits again is a no-op that reports nothing missing |
| Placeholders.TranslateQmarkPlaceholders | core/db/adapters/postgresql.py:129-154 | the scanner with its doubled-quote look-ahead computes the quote-parity rewriting |
| Placeholders.EveryCharacter | core/db/adapters/postgresql.py:129-154 | every input character stands at its place in the output, a `?` as `%s` if and only if an even number of quotes precede it |
| Placeholders.RewrittenLength | core/db/adapters/postgresql.py:129-154 | the output is longer by one for each replacement |
| Placeholders.NoPlaceholderLeft | core/db/adapters/postgresql.py:129-154 | quotes are untouched and no placeholder is left |
| Placeholders.RewritingTwice | core/db/adapters/postgresql.py:129-154 | rewriting twice is rewriting once, and changes nothing exactly when there is no placeholder |
| LruCache.AlwaysValid | core/db/cache.py:155-175 | the size never exceeds the bound and the order lists the keys once each, in every run |
| LruCache.HoldsLastPut | core/db/cache.py:155-192 | whatever is cached is what was last put and not since invalidated or cleared |
| LruCache.GetIsCurrent | core/db/cache.py:130-153 | in every run a get hits if and only if the key is cached and was put without a time to live or no longer ago than that; it returns the value last put |
| LruCache.CountersCountGets | core/db/cache.py:130-153 | hits are the gets since the last clear that returned a value, and hits plus misses all of them |
| LruCache.OrderIsByLastTouch | core/db/cache.py:130-192 | in every run, with whatever expiry, invalidation and clearing, the order is by last touch |
| LruCache.LeavesExactlyWhen | core/db/cache.py:130-192 | in every run a cached key leaves if and only if it is invalidated, cleared or found expired, or a new key is put into a full cache and every other cached key has been touched since this one was |
| LruCache.MissingOnlyIfOld | core/db/cache.py:130-192 | in every run, whatever is cached was put and not taken out since, and of that only keys with at least max_size others touched since are missing |
| LruCache.RunByRecency | core/db/cache.py:130-175 | in a run without expiry, invalidation or clear, the keys touched since a cached one are exactly those after it in the order, and every absent key has had at least max_size others touched since |
| LruCache.HoldsMostRecent | core/db/cache.py:130-175 | without expiry, invalidation or clear the cache holds exactly the max_size most recently touched keys, each with its last value |
| LruCache.LRUQueryCache.Get | core/db/cache.py:130-153 | the specified get, in place |
| LruCache.LRUQueryCache.PutEntry | core/db/cache.py:155-175 | the specified put, in place; with no room at all the first put fails |
| LruCache.LRUQueryCache.Invalidate | core/db/cache.py:177-185 | drops the key if present |
| LruCache.LRUQueryCache.Clear | core/db/cache.py:187-192 | empties the cache and the counters |
| LruCache.HybridQueryCache.PutEntry | core/db/cache.py:369-382 | an entry without a time to live gets the default one; with no room at all the put fails |
| CacheIndex.TaggingKeepsSound | core/caching/query_cache_coordinator.py:187-193 | tagging keeps every key's tags findable from their tables and loses no earlier tag |
| CacheIndex.UntaggingKeepsSound | core/caching/query_cache_coordinator.py:213-248 | invalidation keeps that too and leaves no key tagged with an invalidated table |
| SingleFlight.EveryInterleaving | core/caching/query_cache_coordinator.py:102-248 | calls, futures and registry stay consistent, and every L1 entry can be found from each of its tables, in every interleaving |
| SingleFlight.OneLeaderPerKey | core/caching/query_cache_coordinator.py:133-140 | each key has at most one unresolved leader, and its future is the registered one |
| SingleFlight.FollowersGetLeadersOutcome | core/caching/query_cache_coordinator.py:142-155 | all who joined a future return the same value or exception as its leader |
| FlightStories.ReturnsAsTold | core/caching/query_cache_coordinator.py:102-159 | in every run, whoever has returned gave back what the events say: a hit the entry L1 held; a leader whose query failed that error, else what it read in L2 or with the query, with its source; and every follower what its leader did |
| FlightStories.StoredAsTold | core/caching/query_cache_coordinator.py:161-185 | an L1 entry is what was last filled in for its key, an L2 row or queued one is what a query fetched for its key, and a query is run for each read of L2 that misses |
| SingleFlight.OutcomeIsFinal | core/caching/query_cache_coordinator.py:149-154 | a future keeps its first outcome in every continuation |
| SingleFlight.ExecutionsBoundedByLeaders | core/caching/query_cache_coordinator.py:161-185 | the query runs at most once per leader |
| SingleFlight.NothingLeftInFlight | core/caching/query_cache_coordinator.py:156-159 | once every call has returned nothing is registered |
| CacheRaces.InvalidationDropsAll | core/caching/query_cache_coordinator.py:231-244 | scoped or not, invalidation leaves nothing over the written tables in L1, in any interleaving |
| CacheRaces.SparesExactlyWhen | core/caching/query_cache_coordinator.py:231-244 | in every interleaving an L1 entry survives an invalidation if and only if that is scoped, finds a key, and the entry reads none of the written tables |
| CacheRaces.FinishedPurgeLeavesNone | core/caching/query_cache_coordinator.py:244-248 | once a writer has finished, L2 holds nothing over its tables but what was stored meanwhile |
| CacheRaces.PurgeSparesOthers | core/caching/query_cache_coordinator.py:246-248 | and purging a table leaves the rows that do not read it |
| CacheRaces.SurfacesExactlyWhen | core/caching/query_cache_coordinator.py:161-185 | without another write of the table, old data over it can be in L1 now or later if and only if there is some in L1, in L2, in a queued job, or with a call past its read |
| CacheRaces.OutlivesInvalidationExactlyWhen | core/services/query_service.py:165-172 | after an invalidation it can if and only if, at that moment, a call is past its read with old data and has not filled, or the old data is in L2 or in a queued job |
| CacheRaces.ReadOutlivesWrite | core/caching/query_cache_coordinator.py:180-182 | a run in which a read in flight during a write fills L1 with old data after everything was cleared |
| CacheRaces.RowOutlivesWrite | core/caching/query_cache_coordinator.py:244-248 | a run in which an old row is read after L1 was invalidated and before L2 is purged, and fills L1 |
| QueryCaching.FoundIsGood | core/services/query_service.py:146-163 | in a coherent state a read, from whatever level, returns what the query gives now, limited first by some limits that have been in force and then by those in force |
| QueryCaching.ReadsCached | core/caching/query_cache_coordinator.py:128-185 | L1 before L2 before the database: a read returns the entry that answers it, limited again, with the flag of that limiting |
| QueryCaching.CachedIsGood | core/services/query_service.py:146-163 | in a coherent state the entry that would answer is what the query gives now under limits once in force |
| QueryCaching.ReadIsCurrent | core/services/query_service.py:80-163 | while the limits in force are the tightest so far, that is bounded execution on the current database |
| QueryCaching.ReadKeepsCoherent | core/caching/query_cache_coordinator.py:161-185 | hits and fills keep both levels coherent |
| QueryCaching.WriteKeepsCoherent | core/services/query_service.py:165-172 | scoped or full invalidation after a write keeps both levels coherent |
| QueryCaching.AlwaysCoherent | core/services/query_service.py:80-172 | so does any sequence of requests, changes of limits, purges and restarts |
| QueryCaching.DatabaseIsEffects | core/services/query_service.py:122-131 | after any requests the database has the effects of exactly the permitted writes that succeeded, in order, and the limits are those last set |
| QueryCaching.WriteOutcome | core/services/query_service.py:80-131 | after any requests: a write without the scope is refused and one that fails is reported, and neither changes anything; else its rows are returned as far as they fit both limits, with the flag |
| QueryCaching.SparesExactlyWhen | core/services/query_service.py:165-172 | after any requests, a successful write leaves the L1 entry of a read if and only if invalidation is scoped, finds a key and the two name no common table; and an L2 row if and only if, of scoped invalidation, no written name matches its text |
| QueryCaching.RemembersInL1 | core/caching/query_cache_coordinator.py:168-181 | a read that L1 did not answer is answered by L1 up to the time to live later, and no longer |
| QueryCaching.RemembersInL2 | core/caching/query_result_cache.py:59-89 | a fresh, non-empty result whose job was done outlives a restart in L2 for the time to live in whole seconds, and no longer |
| QueryCaching.CacheCoherence | core/services/query_service.py:80-172 | from a new service, after any such sequence, while the limits in force are the tightest so far, every read returns the longest prefix that fits of what the query gives on the database as the events left it |
| QueryCaching.AnswerRightExactlyWhen | core/services/query_service.py:146-163 | after any such sequence, on the database and the limits as the events left them: a read that nothing cached answers is exactly right; an entry that answers one is the full result cut by limits once in force; its rows are right if and only if the limits in force keep no more rows than it has, its flag if and only if they keep fewer or everything |
| QueryCaching.HitsGoWrong | core/services/query_service.py:146-163 | for every query whose result is cut: the second answer denies it, and raised limits do not bring the missing rows |
| BoundedRows.LimitedTwiceExactlyWhen | core/services/query_service.py:249-274 | when limiting twice gives the rows, and the flag, of the second limits alone |
| QueryObjects.QueryResultCache.GetCachedResult | core/caching/query_result_cache.py:59-89 | the stored row unless it has expired |
| QueryObjects.QueryResultCache.CacheResult | core/caching/query_result_cache.py:105-183 | the upsert, with text and user; a time to live that is not positive means none |
| QueryObjects.QueryResultCache.InvalidateCache | core/caching/query_result_cache.py:209-244 | deletes exactly the rows that meet every condition given, pattern and user, and counts them; nothing without a condition |
| QueryObjects.QueryResultCache.ClearAll | core/caching/query_result_cache.py:185-207 | deletes and counts all rows |
| QueryObjects.QueryCacheCoordinator.TagTables | core/caching/query_cache_coordinator.py:187-193 | updates both maps of the index as specified |
| QueryObjects.QueryCacheCoordinator.PopTables | core/caching/query_cache_coordinator.py:234-239 | pops the tables and then the keys found under them |
| QueryObjects.QueryCacheCoordinator.InvalidateTables | core/caching/query_cache_coordinator.py:213-248 | true if and only if a key was found, and then exactly those keys leave L1 and exactly the matching rows leave L2 |
| QueryObjects.QueryCacheCoordinator.ClearAll | core/caching/query_cache_coordinator.py:201-211 | empties index and both levels |
| QueryObjects.QueryService.Resolve | core/caching/query_cache_coordinator.py:161-185 | L2, else the database; both fill and tag L1 |
| QueryObjects.QueryService.RunRead | core/services/query_service.py:122-163 | the read path of a request |
| QueryObjects.QueryService.InvalidateAfterWrite | core/services/query_service.py:165-172 | scoped if that finds anything, else everything |
| QueryObjects.QueryService.RunWrite | core/services/query_service.py:122-131 | a write returns its rows, bounded, with the flag, and invalidates if it succeeded |
| QueryObjects.QueryService.RunQuery | core/services/query_service.py:80-163 | the whole request: read, refused write, failed write or write with invalidation |
| RateLimiting.AtMostTwiceLessOne | core/auth/shared_state.py:197-230 | any half-open interval of the window's length holds at most 2 * max - 1 allowed attempts |
| RateLimiting.BoundIsReached | core/auth/shared_state.py:197-230 | for every limit some attempts reach that bound |
| RateLimiting.PromiseKeptExactlyWhen | core/auth/shared_state.py:197-230 | every interval of the window's length holds at most max allowed attempts, whatever the attempts, if and only if max <= 1 |
| RateLimiting.RefusedOnlyAtTheLimit | core/auth/shared_state.py:229-230 | a refusal means at least max attempts were recorded in the window's length before |
| RateLimiting.RowIsOwnHistory | core/auth/shared_state.py:214-228 | each key's row is the history of that key alone |
| RateLimiting.PersistentAuthState.CheckAndRecordAttempt | core/auth/shared_state.py:197-230 | one upsert and the decision on the count it returns |
| RateLimiting.PersistentAuthState.ResetAttempts | core/auth/shared_state.py:232-237 | forgets the key |
| Migrations.LoadMigrations | core/db/migrations.py:147-187 | succeeds exactly when all names match and versions are distinct, and then lists exactly the files, versions strictly rising; else reports what is wrong with the first offending file |
| Migrations.OneFailureConverges | core/db/migrations.py:381-431 | after one run that failed anywhere a clean run ends as it would have from the start |
| Migrations.RetryConvergence | core/db/migrations.py:381-431 | any number of failed runs and one success end in the schema and records of one clean run |
| Migrations.SucceedsExactlyWhen | core/db/migrations.py:205-236 | a clean run succeeds if and only if no file contradicts its recorded checksum |
| Migrations.RunIsItsCalls | core/db/migrations.py:393-421 | whatever has been recorded and wherever the database fails, a run makes the first calls of its plan, as many as succeed: unrecorded files are executed and then recorded, missing checksums filled in, and at the first contradicted one it stops; it fails if and only if calls are left |
| Migrations.FurtherRunChangesNothing | core/db/migrations.py:393-402 | after a success a further run makes no call and changes nothing |
| Migrations.FreshRun | core/db/migrations.py:393-421 | with nothing recorded a clean run executes all statements in order and appends the records |
| Migrations.RecordsAscend | core/db/migrations.py:411-419 | one record per file, with its checksum, versions strictly rising |
| Migrations.NewDatabaseConverges | core/db/migrations.py:362-436 | the whole claim for a new database, whatever fails on the way |
| Migrations.Runner.AppliedChecksums | core/db/migrations.py:386-391 | the dictionary read at the start agrees with the tracking table |
| Migrations.Runner.Apply | core/db/migrations.py:380-436 | the runner, deciding on the dictionary read at the start, does the specified run and, if it succeeds, returns the files it applied in order |
| Migrations.Runner.ExecuteStatements | core/db/migrations.py:407-409 | statements run in order until one fails |

## Left out

- `close_all` of both pools, and what creations in flight do after it.
- The values `metrics()` returns; only the resizing it does. The wait histogram is represented by the stream it has been fed, and is always there.
- PoolWakeups.LeakedSlotNeverReturns: assumes that the identity of the dead placeholder is not reused; a new object with that identity would overwrite the entry.
- Which of several callers waiting for the pool lock gets it next, and the order between them and new ones: any order.
- A cancellation of a queued caller takes effect when its handler gets the lock, one of a signalled caller, who is no longer in the queue, at once; a second cancellation before the handler has the lock, which leaves its event in the queue, is not modelled.
- Exceptions other than `Exception` in a thread's factory call, which keep its slot.
- The unlocked increments of the request counters, which are atomic here.
- Reuse of a Python object identity by a new connection while the old one is known to the pool: the factory's connections are fresh.
- The constructor checks of sizes and quantiles: they are preconditions.
- Rounding of floats, infinities and not-a-number: proofs are over `real`.
- Request totals, `recent_requests`, display fields and list order in merged summaries, and the failure of the quantile step for counters that do not match their bounds.
- TraceTimes.NodeTimes: nodes are ended by the trace; a caller that ends a node object itself, which the trace then passes over, is not among the calls.
- Span tags, thread identities and exporters of traces.
- SingleFlight.FollowersGetLeadersOutcome: nothing is said when a follower is cancelled, which cancels the shared future.
- CacheRaces.OutlivesInvalidationExactlyWhen: failed invalidations, and a thread that goes on reading for a cancelled call, are not modelled; the answers that followers of an older read get are not cached data and not counted.
- QueryCaching.CacheCoherence: requests do not overlap; overlapping ones are the subject of `CacheRaces`. Failed or timed-out reads and failed invalidations are not requests of the model.
- The persistence queue itself: in `QueryCaching` a queued write to L2 happens before the next request or is dropped; in `SingleFlight` at any time or never.
- QueryObjects.QueryResultCache.InvalidateCache: does not model a failing delete, which counts zero.
- Access counts and times in both cache levels, cache statistics, `TTLQueryCache`, and the `query_cache` decorator.
- The text classifiers (`classify_operation`, `extract_tables`) and hashing: parameters, under the assumptions above.
- JSON: a row's size is a parameter, and cached rows equal the rows fetched.
- Negative limits of rows or bytes.
- Cursors, transactions, statement timeouts, and exceptions of the driver in `fetch_bounded`.
- Token revocation and its cache in `core/auth/shared_state.py`, and creation of its tables.
- Advisory locks, creation of the tracking table, splitting of files into statements, checksums as such, and the synchronous runner, which repeats the asynchronous one.
- Statements that drop or alter objects: convergence under retry is not promised for them.
