# Verified model of the outbox delivery protocol

A transactional outbox moves events from a PostgreSQL table to a broker. Its safety is
spread over parts that never share a transaction: the lease of a row lives in SQL, the
broker's answers in a worker's local vector, the failure count in a Redis sorted set, and the
final move to the dead letters in another SQL statement. This project models those parts and
proves what they guarantee together, with the `dlq` feature on.

## How it is organised

| file | what it holds |
|---|---|
| `Types.dfy` | rows, dead letters, drained entries, results |
| `Tables.dfy` | every SQL statement as a transition on maps, and `OutboxStore`, the class that performs them in place |
| `Heap.dfy` | failure counters with binary64 scores, and the class `DlqHeap` |
| `Reservation.dfy` | `SET NX EX` behind a local cache, the classes `Redis` and `Provider`, cached runs against uncached runs |
| `Processor.dfy`, `DrainPass.dfy`, `Services.dfy` | the worker's batch, the manager's inner loop, the reaper, the collector and the producer as methods over those objects |
| `Protocol.dfy` | the whole system as one state machine: any number of managers, reapers, producers and collectors in any interleaving |
| `History.dfy` | what an observer counts in a run, from the steps alone |
| `Frames.dfy` | what each kind of step leaves alone |
| `Claims.dfy`, `Quarantine.dfy`, `Conservation.dfy`, `ExactlyOnce.dfy`, `Bypass.dfy`, `Workers.dfy`, `Tokens.dfy`, `Progress.dfy` | theorems about every run |
| `Refinement.dfy` | every call of the methods above is a run of the state machine |

"Accepted" always means that the broker call answered Ok.

A run (`Trace`) is any sequence of enabled steps from the empty system. A crash is an actor
that never steps again; its local variables are lost with it. A storage or Redis call can fail
before it takes effect, or take effect and lose its reply. In the methods every such failure
comes from a `Link`, which counts it; the contracts say that an error is answered exactly when
a call failed or the statement was rejected, and what holds when no call failed. Times are integers in milliseconds.

The methods and the state machine use the same transition functions, and `Refinement.dfy`
ties the two: each method's contract names all the ways a call can end (`BatchEnd`,
`ProcessEnd`, `Chain`, `TickEnd`, `AddEnd`), and each such end is reached by enabled steps of
that actor alone, with the same tables, counters, keys and broker calls. For the reaper, the
collector and the producer the steps and their instants are spelled out. What is proved of every run
therefore holds when the methods run one at a time; the finer interleavings are those of the
state machine.

## Assumptions

- Event ids are fresh (UUID v4, section 5.4 of RFC 9562), and all actors read one monotone
  clock that starts past the Unix epoch.
- `lock_timeout_mins` is not negative. `batch_size`, the threshold and the ttl are unsigned;
  where a result needs more, the lemma says so.
- A SQL statement, a Redis command or script, and a broker call are each atomic.
- A broker call that answers an error was not delivered. A lost acknowledgement, delivered yet
  answered with an error, is a delivery the counts of accepted publishes do not include.
- Whether a producer's service was built with a token provider is fixed per producer
  (`Config.wired`); the token theorems speak of the producers that have one.
- Token keys and the failure counters share a key prefix (`outbox-redis/src/lib.rs:51`,
  `outbox-redis/src/dlq.rs:100-102`); no token is the string `dlq`, so the two are separate.
- Redis drops no key before its deadline, and a key or cache entry is dead at its deadline.
- Nobody edits the tables or Redis by hand.
- The shutdown flag is never lowered again once it is up.

## Where the code and its documentation differ

The model follows the code.

- `outbox-postgres/README.md:17` names the dead-letter table `dead_letter_outbox_events`; the
  migration and the statement use `outbox_dead_letters`.
- `outbox-core/src/processor.rs:68-73` lists only storage errors as propagated; a heap error
  leaves the batch through `?` as well (lines 114 and 135), and then no row of the batch is
  marked `Sent`.
- `outbox-core/src/model.rs:95-98` counts a row with an expired lock among the pending ones;
  the code leaves it `Processing` and claims it by its lease.
- `outbox-core/src/storage.rs:41-42` says that concurrent workers cannot pick up the same
  row. They can once the lease has ended. `ExactlyOnceIff` gives the condition, a bound on how
  long a batch may take: nobody shares an event, whatever calls fail, if and only if the bound
  is at most the lease. Duplicates are then paid for one by one: an event is accepted at most
  once more than it was dropped, a drop being a failed call of a worker that counted the event
  among its successes. `FailedCallPublishesTwice` shows that one drop is enough; a failed
  claim, or a heap call that fails before anything was accepted, costs nothing.
- `outbox-redis/README.md:38` documents `local_cache_capacity`; the cache builder never reads
  it. The model allows arbitrary eviction, which covers both.
- The local cache is meant to be invisible. It is not when the ttl has a fraction of a second,
  because Redis gets the truncated ttl and the cache the full one; nor when the command comes
  any later than the cache lookup, or the reply any later than the command.
  `CacheTransparentIff` gives the exact condition, and `CacheNeverGrantsMore` what holds
  always: the cache can only refuse more.

## Model

| member | source | states |
|---|---|---|
| ClaimTheorems.ClaimSpacing | outbox-postgres/src/lib.rs:49-80 | in every run two claims of one row, by whatever workers, are more than a lease apart |
| ClaimTheorems.ClaimsTakeTime | outbox-postgres/src/lib.rs:53-59 | n claims of an event span at least n - 1 leases, and strictly more from two claims on |
| ClaimTheorems.ClaimsAttemptsFailures | outbox-core/src/processor.rs:101-135 | in every run recorded failures are at most publish attempts, and these at most claims |
| QuarantineTheorems.ScoreIsHistory | outbox-redis/src/dlq.rs:27-75 | the score of an id is the binary64 count of its failures since its last success or drain, and the member exists exactly while that count is positive |
| QuarantineTheorems.FailuresConserved | outbox-redis/src/dlq.rs:27-96 | in every run the score in the sorted set, the counts handed to reapers and the scores removed by successes never exceed the recorded failures, and equal them up to 2^32 - 1 failures |
| QuarantineTheorems.DrainBudget | outbox-core/src/dlq/processor.rs:118-133 | threshold times the drains of an id, plus its current streak, is at most its failures and so at most its claims |
| QuarantineTheorems.DrainIsExact | outbox-redis/src/dlq.rs:56-96 | a drain takes an id if and only if its failures since the last success or drain reached the threshold, each entry carries that number, and afterwards every streak is below the threshold |
| QuarantineTheorems.PersistedCount | outbox-redis/src/dlq.rs:85-93 | after c failures the count that survives binary64, the u32 cast and the i32 clamp is min(c, 2^31 - 1), for every c |
| QuarantineTheorems.DeadLetterCount | outbox-postgres/src/lib.rs:148-198 | in every run the count of a dead letter is, up to the i32 clamp, the streak its id had at some drain of the run |
| QuarantineTheorems.QuarantineNeverEarly | outbox-postgres/src/lib.rs:148-198 | a dead letter with count k was claimed at least k times, was quarantined at least k - 1 leases after its first claim (strictly more if k > 1), carries at least the threshold, and was not pending |
| QuarantineTheorems.QuarantineWaits | outbox-core/src/dlq/processor.rs:118-133 | for thresholds up to 2^31 - 1: at least threshold claims, and threshold - 1 times lock_timeout_mins minutes between first claim and quarantine |
| ConservationTheorems.NothingLost | outbox-postgres/src/lib.rs:82-116 | under any interleaving, crash or failed call an inserted id is in exactly one of the active table, the dead letters and the collected events |
| ConservationTheorems.SentMeansPublished | outbox-core/src/processor.rs:101-159 | a row that is `Sent`, or was collected, was accepted by the broker |
| ConservationTheorems.GoneMeansPublished | outbox-core/src/processor.rs:96-161 | at-least-once: an inserted event that is not waiting and not quarantined was accepted |
| ConservationTheorems.RetentionKept | outbox-postgres/src/lib.rs:95-116 | an event is collected more than retention_days days after it was constructed, and after it was accepted |
| ConservationTheorems.DeadLetterWasRow | outbox-postgres/src/lib.rs:159-198 | in every run each dead letter was, at the instant in its quarantined_at, an active row with the same token, event type, payload, status, created_at and locked_until |
| ConservationTheorems.DeadLetterIsEvent | outbox-postgres/src/lib.rs:159-198 | in every run a dead letter carries the token, event type, payload and created_at its event was inserted with |
| ConservationTheorems.QuarantineNeverConflicts | outbox-postgres/src/lib.rs:159-198 | whatever a reaper holds in a reachable state, the insert half of its quarantine finds only fresh keys |
| ConservationTheorems.StatusForward | outbox-core/src/model.rs:80-108 | between any two instants of a run the status of a surviving row only moves Pending, Processing, Sent, its content is unchanged, dead letters never change, and no id comes back |
| ConservationTheorems.MarkedWasClaimed | outbox-postgres/src/lib.rs:82-93 | the bulk update checks neither lease nor status, yet never meets a pending row |
| ExactlyOnceTheorems.ExactlyOnce | outbox-core/src/processor.rs:96-161 | if every batch ends within a bound that is at most the lease, whatever calls fail: one holder per event, no `Sent` row with a failure counter, and at most one accepted publish more than the failed calls that dropped the accepted event |
| ExactlyOnceTheorems.ExactlyOnceIff | outbox-core/src/storage.rs:39-42 | with a positive batch size, for any bound d on the duration of a batch, each of these holds of all runs if and only if d is at most the lease: events are held alone; events never dropped are accepted at most once; events are accepted at most once more than they are dropped |
| ExactlyOnceTheorems.FailedCallPublishesTwice | outbox-core/src/processor.rs:111-114 | for every configuration with a positive batch size, a run in which no batch takes any time and one single call fails, the heap call after an accepted publish: one drop, two acceptances |
| ExactlyOnceTheorems.LateWorkerPublishesTwice | outbox-postgres/src/lib.rs:51-63 | for every configuration with a positive batch size, a run without a failed call in which a worker one millisecond past its lease causes a second delivery |
| BypassTheorems.FetchTakesAhead | outbox-postgres/src/lib.rs:52-63 | a fetch that overlooks an eligible row takes exactly batch_size other rows, all with a lease no later than its own |
| BypassTheorems.BoundedBypass | outbox-postgres/src/lib.rs:52-63 | with r rows ahead of it an eligible row is overlooked by at most floor((r + fresh inserts) / batch_size) fetches |
| WorkerTheorems.BatchContract | outbox-core/src/processor.rs:96-161 | until its next failed call, and whatever the others do, a worker's claims are its attempts in batch order plus those still to come, each answer changed its counter once, and the ids marked are the accepted ones in order |
| WorkerTheorems.OneMoreFetch | outbox-core/src/manager.rs:186-235 | once the shutdown flag is up a manager starts at most one more fetch, and only if it had passed its check |
| WorkerTheorems.ReturnedStrandsNothing | outbox-core/src/manager.rs:186-238 | a manager that returned without a failed call attempted all it claimed, recorded every answer and marked every accepted event |
| TokenTheorems.ReservationExclusive | outbox-redis/src/lib.rs:49-85 | two successful reservations of a token, through whatever providers and caches, are at least the whole seconds of the ttl apart |
| TokenTheorems.GrantsBounded | outbox-redis/src/lib.rs:54-84 | a token is granted at most 1 + floor(elapsed / whole seconds of ttl) times |
| TokenTheorems.InsertFollowsGrant | outbox-core/src/service.rs:145-159 | every token-bearing insert with a provider follows a grant of the same token to the same producer, with no other such insert in between |
| TokenTheorems.GrantsNotShared | outbox-core/src/service.rs:145-159 | no two such inserts follow the same grant |
| TokenTheorems.GrantsPay | outbox-core/src/service.rs:145-159 | for each token, the inserts that carry it with a provider and the unspent reservations together are at most its grants |
| TokenTheorems.RecordedBounded | README.md:31-33 | however often clients retry, producers with a provider record a token at most 1 + floor(elapsed since its first grant / whole seconds of ttl) times |
| TokenTheorems.ActiveTokensUnique | outbox-postgres/migrations/20260213152819_init.sql:20-22 | in every reachable state no two active rows share a token |
| Reservation.CacheTransparentIff | outbox-redis/src/lib.rs:39-85 | when commands follow their lookups and replies reach the cache within given bounds, the cache changes no answer and no key in any run, under arbitrary eviction, if and only if Redis rejects the ttl, or the ttl is a whole number of seconds and both bounds are zero |
| Reservation.CacheNeverGrantsMore | outbox-redis/src/lib.rs:49-85 | for every ttl, delay and eviction, at every moment of a run a token has been granted no more often with the cache than without it |
| Reservation.OutlivingRun | outbox-redis/src/lib.rs:54-80 | whenever the ttl or either bound fails the condition, a run within the bounds with two requests that the cache answers differently |
| Reservation.Provider.TryReserve | outbox-redis/src/lib.rs:49-85 | with separate instants for lookup, command and cache insert: the cache refuses, or the answer and the keys are those of Redis; the cache grows only after a grant |
| Heap.ScoreSticks | outbox-redis/src/dlq.rs:27-40 | c increments give min(c, 2^53): exact, then stuck by roundTiesToEven (section 4.3.1 of IEEE 754-2008) |
| Heap.DlqHeap.RecordFailure | outbox-redis/src/dlq.rs:27-40 | on success the score is min(score + 1, 2^53) and every other member is unchanged; on error that happened or nothing did |
| Heap.DlqHeap.RecordSuccess | outbox-redis/src/dlq.rs:42-54 | on success the member is gone and every other one is unchanged; on error that happened or nothing did |
| Heap.DlqHeap.DrainExceeded | outbox-redis/src/dlq.rs:56-96 | lists every counter at or above the threshold exactly once, in ascending order, with its count and no error text, and removes exactly those; fails only when its call fails |
| Tables.OutboxStore.FetchNext | outbox-postgres/src/lib.rs:49-80 | claims at most `limit` rows that are pending or whose lease has ended, oldest lease first, all of them if fewer exist; exactly these are `Processing` with a new lease; fails only when its call fails |
| Tables.OutboxStore.UpdateStatusSent | outbox-postgres/src/lib.rs:82-93 | no row appears or vanishes; the given ids that exist become `Sent`, whatever their lease or status, with every other field kept, and other rows are unchanged |
| Tables.OutboxStore.DeleteGarbage | outbox-postgres/src/lib.rs:95-116 | deletes only rows with status `Sent` and created_at before now - retention, and either 5000 of them or all; fails only when its call fails |
| Tables.Quarantined | outbox-postgres/src/lib.rs:159-198 | a conserving move: each row that leaves becomes a dead letter, column by column, with the clamped count and the instant of the statement; nothing else changes, all or nothing on a key conflict |
| Tables.OutboxStore.QuarantineEvents | outbox-postgres/src/lib.rs:148-205 | performs that move as one statement; fails only when its call fails or a key conflicts |
| Tables.OutboxStore.InsertEvent | outbox-postgres/src/lib.rs:225-245 | when its call does not fail, succeeds if and only if the id is new and no row has the same token; then it adds the row and nothing else |
| Processor.EventPublish | outbox-core/src/processor.rs:96-161 | fails exactly when a storage or heap call failed, a refusal being no failure; otherwise every event was attempted once in order, the accepted ids are marked and each counter moved by its own answer; a heap error at index i stops after i + 1 attempts with no row marked; a storage error leaves all recorded |
| Processor.ProcessPending | outbox-core/src/processor.rs:74-94 | one call claims one batch and publishes it; it fails exactly when a call failed; otherwise each accepted event is `Sent` without a counter, each refused one keeps its lease with its counter one higher, and nothing else changed |
| DrainPass.Pass | outbox-core/src/manager.rs:207-234 | for one manager alone, while less than a lease elapses and nothing is inserted: the loop terminates; it fails exactly when a call failed and stops exactly when the shutdown flag is up; it attempts no row twice and, if drained, every row that was due; with a fixed eligible set of N rows it makes ceil(N / batch_size) non-empty fetches |
| ProgressTheorems.FetchesInWindow | outbox-core/src/manager.rs:207-234 | among any number of managers and other actors, in a window of at most a lease without inserts: each non-empty fetch uses up at least one of the rows that can become eligible in it |
| ProgressTheorems.FetchesOfFixedSet | outbox-core/src/manager.rs:207-234 | if no row becomes eligible in such a window that was not at its start, all managers together make at most ceil(N / batch_size) non-empty fetches of the N eligible rows |
| ProgressTheorems.ClaimedOnceInWindow | outbox-postgres/src/lib.rs:51-63 | in such a window no row is claimed twice |
| ProgressTheorems.EmptyFetchLeavesNothing | outbox-postgres/src/lib.rs:51-63 | in every run, when any manager's fetch comes back empty, each row that was due at an earlier moment has since been claimed by someone, marked or removed |
| ProgressTheorems.GarbageCleared | outbox-postgres/src/lib.rs:95-116 | when 5000 times the collector steps of a stretch cover the `Sent` rows past retention by its end plus those marked meanwhile, every row that was `Sent` and past retention at its start is gone |
| DrainPass.Finished | outbox-core/src/manager.rs:213-217 | an empty fetch means that nothing due is left and that the count of fetches is the ceiling |
| Services.ReaperTick | outbox-core/src/dlq/processor.rs:117-134 | when no call fails, exactly the counters below the threshold are left and every active row with a higher one becomes a dead letter, column by column, unless a key conflicts; otherwise nothing happened, or the counters were drained and the tables stayed, or the move was made |
| Services.CollectorTick | outbox-core/src/gc.rs:51-53 | when the call does not fail, 5000 rows went or no `Sent` row past retention is left; in any case it removes one legal purge or nothing, and swallows the error |
| Services.AddEvent | outbox-core/src/service.rs:134-160 | when no call fails, succeeds if and only if the id is new, no row has the token, and with a provider neither cache nor Redis knows the token; then the row has the given type, payload and token, is pending, unlocked and new; other rows never change |
| RefinementTheorems.ProcessIsRun | outbox-core/src/processor.rs:74-161 | every end of a call of the processor is reached by enabled steps of that worker alone, with the same broker calls |
| RefinementTheorems.PassIsRun | outbox-core/src/manager.rs:207-234 | so is every pass of the inner loop, however many calls it makes |
| RefinementTheorems.ShutdownIsRun | outbox-core/src/manager.rs:199-211 | once the flag is up or its sender gone, a manager in the outer select can return at once, and one at the top of the inner loop once the flag is up, with nothing else changed |
| RefinementTheorems.TickIsRun | outbox-core/src/dlq/processor.rs:117-134 | every tick of an idle reaper is nothing, or its drain at that instant, followed, if anything was drained, by its quarantine or by a failed call without effect |
| RefinementTheorems.CollectorTickIsRun | outbox-core/src/gc.rs:51-53 | every collector tick is exactly one collect step at that instant, or nothing |
| RefinementTheorems.AddIsRun | outbox-core/src/service.rs:134-160 | every call of `add_event` with a fresh id by an idle producer is that producer's own steps, listed by outcome, with the same row, key and cache |

## Left out

- Broker delivery: `publish` is an arbitrary answer that is logged. Kafka headers, partitions and payload serialization are not modelled.
- SQL execution: row locks, `SKIP LOCKED`, query plans, connection pools and row mapping. A row locked by an uncommitted statement is not skipped in the model, because statements are atomic.
- Commit delay: an insert made inside a caller's open transaction becomes visible at its `Insert` step.
- The outer wake-up loop of the manager, the collector and the reaper, LISTEN/NOTIFY, ticks and sleeps: wake-ups and ticks are arbitrary steps.
- Interleaving inside a method: the methods are sequential, and concurrency is in the state machine, whose steps are the single calls.
- Token generation (`IdempotencyStrategy::invoke`) and its panic: the token is an input.
- UUID text in the sorted set and its parse errors: members are ids. The order of equal scores is left open.
- The order of rows in `RETURNING`: any order of the claimed set is allowed.
- `last_error`: always absent from Redis, so it is carried unread.
- Reopening of the SQL listener, configuration defaults, builders, metrics and tracing.
- Lost acknowledgements of the broker: a publish that answers an error counts as not delivered.
