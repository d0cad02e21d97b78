# RelayForge delivery queue, verified

RelayForge accepts webhook events once, keeps a delivery for each in PostgreSQL, and lets many workers
claim deliveries under leases, send them, and record what happened. Its guarantees are spread over SQL
`WHERE` and `CASE` clauses, Go checks and table constraints. This project models the queue as a state
machine over its four tables, proves what holds after every run of it, and adds the two parts that meet
the queue: the retry schedule and the worker that reports to the store.

`dafny verify dfyconfig.toml` checks everything.

## How the model is built

- `Queue`: the tables, the steps (create, disable, enqueue, claim, recover, finish, replay, clock), their
  guards and their effects. A step whose guard fails changes nothing, so **every** sequence of steps is a
  run, and late, repeated and stale calls are ordinary members of it. Attempt rows form a list in order of
  insertion, so that uniqueness of attempt numbers is proved and not built in.
- `QueueInvariant`: the invariant, kept by every step. `Guarantees`, `Fencing`, `LeaseTiming`, `Breaker`,
  `AttemptLog`, `DeliveryHistory`, `Workload`, `Quiescence`, `Fairness`, `RecoveryWait` and `Ingestion` hold
  the results about whole runs. Histories (leases granted, breaker outcomes, replays, last outcomes) are
  functions of the run, never columns. `Scenario`, `Overtaking` and `Lifecycle` hold concrete runs.
- `Calls`: each call of the store as a function of the tables, all error branches included. `Store`: the
  same calls as methods of a class that updates its tables in place. Every method keeps `Valid()`: the tables
  are those of a run from empty tables, the ghost `history`, so every result about runs holds of the object.
- `Answers`: what each call promises, in the columns of the rows it leaves. `Choices`: what the two queries
  may answer, and that they always can.
- `Backoff`: the doubling loop on 64-bit integers and the jitter. `AttemptResults` and `Worker`: validation
  in the store, and what the dispatcher and the worker hand to it. `Sending`: what an exchange with the
  receiver does, in the end, to the delivery, its endpoint and its log.

## Assumptions

- A committed transaction is atomic, and a return before its commit changes nothing. Recovery and claim
  inside one claim transaction are separate steps at the same time.
- The database clock never goes back from one step to the next. Times are nanoseconds since Go's zero time.
- `SKIP LOCKED` may hide any rows: a claim in a run may take any candidate, a recovery any expired lease.
  Only the two bounded-wait results suppose that no row is hidden.
- A claim reads its endpoint without locking it, so "enabled" and "circuit closed" mean the state it reads.
- Lease tokens and ids may repeat; an insertion that meets an existing primary key is an error that
  changes nothing. Only the duplicate flag needs a new event id.
- A finish does not look at `locked_until`: an expired lease that nobody has recovered can still finish.

## Where the code differs from its description, or from what one would expect

- A replay does not always grant "a fresh endpoint-sized retry budget": it adds the endpoint's budget to
  what is left, which is the same exactly when the delivery died exhausted
  (`ReplayGrantsFreshBudgetIffExhausted`, `ReplayAfterDiscard`).
- The doubling loop jumps to the cap when doubling would land one nanosecond below an odd cap
  (`CappedIsNearlyExponential`, `OddCapRoundsUp`).
- With a cap so large that the jittered delay leaves 64 bits the delay may be negative
  (`DelayIsSafeIffRepresentable`, `SampledDelayIsSafeIff`, `ValidPolicyMayOverflow`).
- The configured lease must exceed the longest timeout and the finish timeout, but it is cut to whole
  milliseconds later, which can use up the whole difference and let a second worker in
  (`ConfiguredLeaseMayNotExclude`; exactly when: `ExclusionIff`, `ConfiguredLeaseExcludesIff`).
- A worker can build a report that the store refuses (`ReportAcceptedIff`, `EveryConditionIsNeeded`). As far as
  the configuration decides it, the condition is `ConfigurationReportsIff`.
- A claim trims the worker's name and a finish does not, so a name with white space around it claims and
  cannot finish (`ClaimThenFinishIffTrimmed`, `PaddedWorkerLosesItsLease`). The pool's own names have none.
- A retry reported late with an old completion time is claimed before deliveries that became due in between
  (`RetryJoinsAheadIff`, `BackdatedReportsOvertake`).

## Model

| member | source | states |
|---|---|---|
| Guarantees.ExactlyOneOutcomePerAttempt | internal/store/queue.go:81-103 | After any run a delivery's rows are numbered exactly 1 to its attempt count (one less while processing), and no number occurs twice in the table |
| Guarantees.InsertionsNeverCollide | internal/store/queue.go:239-257 | In every reachable state a finish commits exactly when it is valid and holds the lease, and recovery's ON CONFLICT never fires: it always adds its row |
| Guarantees.SchemaIsATheorem | migrations/001_init.up.sql:1-63 | Every CHECK, UNIQUE and REFERENCES clause holds after any run, so the database never has to refuse a step for them: lock columns, attempt bounds, log rows and links follow from the guards; an endpoint's limits and a finish's free attempt number are also tests of those steps |
| Guarantees.StatusMovesAreLegal | internal/delivery/model.go:76-87 | Every step from any state moves a status only along CanTransition, leaves a final status only by a replay, keeps event, endpoint and creation time, and never lowers the attempt count |
| Lifecycle.StatusGraphIsExact | internal/delivery/model.go:76-87 | A delivery moves from one status to another in some run if and only if CanTransition allows it |
| Guarantees.NoStrandedDelivery | internal/store/queue.go:17-29 | A waiting delivery always has budget left, so being claimable is, in the columns, waiting, due, and an endpoint that is neither disabled nor cooling down |
| Guarantees.SuccessIsTheLastRow | internal/store/queue.go:198-203 | A delivery has a 2xx row if and only if it is succeeded; the row is unique and numbered by the attempt count |
| Guarantees.SuccessIsAbsorbing | internal/store/deliveries.go:147-149 | No continuation changes any column or any row of a succeeded delivery |
| Guarantees.SummaryColumnsAgreeWithLog | internal/store/queue.go:208-215 | last_error and last_completed_at always repeat the highest-numbered row |
| QueueInvariant.ReachableInv | internal/store/queue.go:144-332 | Locks, budgets, log, links and uniqueness together hold after every run from empty tables |
| Fencing.FinishIsRecordedIffLeaseIsOpen | internal/store/queue.go:216-234 | After any run, every acceptable report is recorded if and only if its number is that of a claim, it carries the worker and the token of that claim, and no step has finished or recovered the attempt; every other one gets ErrLeaseLost and changes nothing |
| Fencing.AttemptsCloseOnce | internal/store/queue.go:216-234 | At most one step of a run closes a given attempt, a finish or a recovery but not both |
| Fencing.ClosedIffRecorded | internal/store/queue.go:81-103 | An attempt has been closed by some step if and only if its number is among the recorded ones |
| Fencing.LeasesMatchRun | internal/store/queue.go:30-42 | The attempt count is the number of claims committed, and the lock columns of a processing row are those of the last claim |
| LeaseTiming.AtMostOneAtWork | internal/store/queue.go:85-88 | If leases outlast the workers' budget, two workers are never at work on one delivery at the same moment of any run |
| LeaseTiming.NoLeaseLostWithinBudget | internal/store/queue.go:216-234 | A worker within its budget never gets ErrLeaseLost for a valid finish |
| LeaseTiming.ExclusionIff | internal/store/queue.go:30-42 | All runs whose claims use a lease exclude a second worker if and only if the budget is below the lease in whole milliseconds; otherwise a takeover run has two workers at work |
| LeaseTiming.ConfiguredLeaseExcludesIff | internal/config/config.go:139-141 | A lease that passes the configuration test excludes if and only if it reaches the next whole millisecond above overhead, longest endpoint timeout and finish timeout |
| LeaseTiming.ConfiguredLeaseMayNotExclude | internal/config/config.go:139-141 | A lease and finish timeout that pass the configuration test and let two workers be at work on one delivery |
| LeaseTiming.ConfiguredLeaseOutlasts | internal/config/config.go:139-141 | With whole milliseconds the test leaves a full millisecond, enough for any permitted endpoint timeout, the finish and less than a millisecond of overhead |
| Breaker.BreakerRefinesHistory | internal/store/queue.go:259-281 | If the failures committed for the endpoint share one threshold and cooldown, consecutive_failures is the number of failures since the last success, circuit_open_until is set exactly when it reaches the threshold, and is then the latest cooldown end of the failures that tripped it |
| Breaker.ClaimableIff | internal/store/queue.go:17-26 | A waiting delivery that is due can be claimed if and only if its endpoint is not disabled and the cooldown of every failure that tripped the breaker, with no success since, is over |
| DeliveryHistory.BudgetLaw | internal/store/deliveries.go:147-159 | max_attempts is the endpoint's limit times one plus the committed replays, fits in 32 bits, and bounds the attempts; a waiting delivery is below it |
| DeliveryHistory.ReplayGrantsFreshBudgetIffExhausted | internal/store/deliveries.go:151-159 | A replay leaves budget plus remainder, which is a fresh budget if and only if nothing was left |
| DeliveryHistory.ReplayAfterDiscard | internal/store/deliveries.go:151-159 | A four-step run after which a replay leaves 15 attempts under a budget of 8 |
| DeliveryHistory.DeadOnlyForCause | internal/store/queue.go:199-203 | A dead delivery has exhausted its budget or its last outcome was a discard |
| DeliveryHistory.NoEarlyRetry | internal/store/queue.go:204-207 | A retrying delivery is claimed only from the time its last finish scheduled, which is after that attempt's completion |
| DeliveryHistory.StatusCodeComesFromLastFinish | internal/store/queue.go:212 | last_status_code is the code in the row of the last finish, that row repeats its report field by field, and all later rows come from recovery |
| AttemptLog.FinishIsInTheLog | internal/store/queue.go:239-254 | At the end of any run, row n repeats the report that finished attempt n field by field, its duration the smaller of the milliseconds and the largest 32-bit number |
| AttemptLog.ExpiryIsInTheLog | internal/store/queue.go:310-325 | The row of a recovered attempt begins when its own lease was granted, ends with the recovery, and has no code, no body and the expiry text |
| Workload.BudgetIsConserved | internal/store/queue.go:33-37 | For every run: weight left plus claims, finishes and recoveries committed equals weight before plus twice the attempts granted |
| Workload.WorkIsBounded | internal/store/queue.go:199-203 | Without new events and replays, the claims, finishes and recoveries of any run number at most the weight at its beginning |
| Quiescence.DisabledEndpointWindsDown | internal/store/endpoints.go:90-96 | After disabling, rows plus attempts under way stay constant in every continuation, so at most those under way are still recorded; the moment never changes and no delivery is added |
| Quiescence.NothingStartsLater | internal/store/events.go:37-39 | No enqueue, claim or replay on a disabled endpoint commits anywhere in a continuation |
| Quiescence.DisableTakesEffectOnce | internal/store/endpoints.go:90-96 | Disabling takes effect at once and a later second call changes nothing |
| Quiescence.DisabledIffRequested | internal/store/endpoints.go:90-96 | After any run an endpoint is disabled exactly if a request to disable it committed, since the moment of the first |
| Fairness.DueDeliveryIsClaimed | internal/store/queue.go:22-29 | If no row is hidden and its endpoint stays open, a due delivery is claimed before one more claim than there are deliveries ahead of it plus finishes that put theirs ahead meanwhile, whatever else happens |
| Fairness.DueDeliveryIsClaimedInTurn | internal/store/queue.go:22-29 | If every committed retry is scheduled after the due time, nothing joins and the bound is the number of deliveries ahead |
| Fairness.RetryJoinsAheadIff | internal/store/queue.go:204-207 | A retry joins those ahead of a due delivery if and only if it is scheduled no later, which takes a completion before the due time |
| Overtaking.BackdatedReportsOvertake | internal/store/queue.go:204-207 | A reachable state with nothing ahead of a due delivery and a continuation whose claims, all in order, pass it by twice because two reports with old completion times join |
| RecoveryWait.ExpiredLeaseIsClosed | internal/store/queue.go:81-90 | With k other leases that end no later, an expired lease is recovered or finished by claim transaction k/32 + 1 |
| Choices.JobIffFreeCandidate | internal/store/queue.go:17-29 | A claim hands out a job if and only if some candidate is not locked by others, and then one that none of them precedes by due time and creation |
| Choices.DueWorkIsHandedOut | internal/store/queue.go:17-29 | While a waiting delivery is due, not locked, and its endpoint is enabled and cooled down, every claim hands out a job |
| Choices.ClaimHasAnswer | internal/store/queue.go:27-29 | Whatever rows are locked, the claim query has an answer that its order allows |
| Choices.RecoveryHasAnswer | internal/store/queue.go:81-90 | Whatever rows are locked, the recovery query has an answer of at most 32 rows, those that ended first |
| Ingestion.RepeatedCallsChangeNothing | internal/store/events.go:37-107 | Once stored, every later call with the key changes no table; on an enabled endpoint it returns the two original ids and the current delivery if type and payload agree, and a conflict if not |
| Ingestion.KeyIsStoredOnce | internal/store/events.go:45-50 | At most one call of a run stores an event for an endpoint and key |
| Ingestion.NewEventIsNoDuplicate | internal/store/events.go:76-80 | The call that stores answers with its own ids, no duplicate flag, and a pending delivery without attempts |
| Ingestion.DuplicateFlagForFreshId | internal/store/events.go:80 | For a new event id the duplicate flag is set if and only if the key was stored |
| Calls.CallsAreRuns | internal/store/queue.go:144-287 | Any sequence of calls, with any choices of the database, leaves the tables of a run, so all results above apply |
| Calls.FinishIsAStep | internal/store/queue.go:182-287 | A finish is its step or changes nothing, and the only errors possible are a failed validation and a lost lease |
| Calls.EnqueueIsAStep | internal/store/events.go:15-144 | An enqueue is its step or changes nothing; the second upsert never meets an event without a delivery |
| Calls.NewEndpointServes | internal/endpoint/service.go:80-94 | An endpoint is created exactly when each limit is missing or permitted and the id is new; it has the limits asked for, or 5000 milliseconds and 8 attempts; it is open at every time, and its first event becomes at once a claimable delivery with its budget |
| Answers.ReplayedDeliveryIsClaimable | internal/store/deliveries.go:119-168 | After any run a replay is accepted exactly for a dead delivery on an enabled endpoint whose limit fits in 32 bits; the answer is the stored row, which is due at once with its attempts and log as they were, and can be claimed unless the endpoint cools down |
| Answers.RecoveredDeliveryIsClaimable | internal/store/queue.go:81-103 | After any run recovery closes exactly the leases whose end has come; the delivery is due at once while its budget lasts and dead otherwise |
| Answers.EnqueuedDeliveryIsClaimable | internal/store/events.go:15-144 | After any run an enqueue stores exactly for an enabled endpoint, a new key and new ids; event and delivery are as given, and the delivery can be claimed at once unless the endpoint cools down |
| Answers.JobCarriesTheEvent | internal/store/queue.go:44-79 | However long after the enqueue and whatever happened since, the job has the event with the type, payload and key it was stored with, the row of its endpoint, the next attempt number, and a lease that starts now |
| Store.Store.ClaimDelivery | internal/store/queue.go:144-180 | New tables and answer are those of recovering the batch and leasing the picked row; a job is answered if and only if a candidate is free, and is the stored row under the new lease; errors change nothing; the run is extended by these steps |
| Store.Store.RecoverExpiredLeases | internal/store/queue.go:289-332 | The bulk update followed by the insertion loop equals recovering the leases one after the other |
| Store.Store.FinishAttempt | internal/store/queue.go:182-287 | New tables and answer on every branch; recorded if and only if the report is acceptable and its lease, in the history of calls, is open; every error leaves the tables unchanged |
| Store.Store.ReplayDelivery | internal/store/deliveries.go:119-168 | Accepted exactly for a dead delivery on an enabled endpoint whose limit fits in 32 bits; the row is due at once with the endpoint's limit added; every error leaves the tables unchanged |
| Store.Store.EnqueueEvent | internal/store/events.go:15-144 | Both upserts with all their conflicts in every state that calls can reach; stores exactly for an enabled endpoint, a new key and new ids |
| Store.Store.GetDelivery | internal/store/deliveries.go:33-117 | Found exactly when the delivery exists; the history has attempt k + 1 at position k, up to the last recorded |
| Store.ObjectMeetsSchema | migrations/001_init.up.sql:1-63 | Whatever calls the store object has served, its tables meet every constraint and a finish is stopped only by validation or a lost lease |
| Backoff.Doubled | internal/delivery/policy.go:36-52 | The loop computes the closed form for every attempt number, without overflow in 64 bits |
| Backoff.CappedIsNearlyExponential | internal/delivery/policy.go:41-52 | The closed form is min(max, base * 2^(attempt-1)), plus one nanosecond exactly when doubling lands on max - 1; it lies between base and max |
| Backoff.EvenCapIsExact | internal/delivery/policy.go:43-45 | With an even cap the exponential is exact |
| Backoff.OddCapRoundsUp | internal/delivery/policy.go:43-45 | A policy and attempt where the loop exceeds the capped exponential |
| Backoff.DelayBounds | internal/delivery/policy.go:53-65 | The jittered delay is at least the delay shortened by the jitter, at most lengthened by it, and within 0 and the cap |
| Backoff.DelayIsSafeIffRepresentable | internal/delivery/policy.go:60-65 | It is within 0 and the cap for all attempts, samples and machines if and only if max * (1 + jitter) is below 2^63 |
| Backoff.SampledDelayIsSafeIff | internal/worker/pool.go:75 | For samples below 1, as the worker draws them, the same holds if and only if max * (1 + jitter) is at most 2^63 |
| Backoff.ValidPolicyMayOverflow | internal/delivery/policy.go:23-34 | A policy that passes the checks and whose longest delay leaves 64 bits |
| Backoff.DelayIsMonotone | internal/delivery/policy.go:36-66 | It grows with the attempt and with the sample |
| Backoff.DelayIsPositiveIff | internal/delivery/policy.go:60-65 | It is positive for all attempts and samples if and only if base * (1 - jitter) is at least a nanosecond |
| Backoff.ComputeNextDelay | internal/delivery/policy.go:36-66 | Loop, clamp, jitter and cap together compute the delay, within 0 and the cap when representable |
| Backoff.DelayIsExactly | internal/delivery/policy.go:53-65 | For a sample between 0 and 1 the delay is the capped exponential times 1 + (2 * sample - 1) * jitter, rounded down and capped; a sample outside counts as the nearer end |
| Worker.ReportAcceptedIff | internal/worker/pool.go:132-171 | For every exchange the store accepts the report on a claimed job if and only if the status is 100 to 599, the clock gave non-zero times that do not go back, the retry delay is positive and the cooldown is at least a millisecond |
| Worker.EveryConditionIsNeeded | internal/store/queue.go:399-425 | A refused report for each condition: no delay (jitter 1 with sample 0), status 600, a clock that goes back or shows the zero time, a cooldown below a millisecond |
| Worker.ConfigurationReportsIff | internal/worker/pool.go:159-171 | The reports of a pool with a valid policy are accepted on every machine for all attempts, samples and exchanges with status 100 to 599 and a sound clock if and only if max * (1 + jitter) is below 2^63, base * (1 - jitter) is at least a nanosecond and the cooldown is at least a millisecond |
| Worker.WithinBudgetFinishesIff | internal/worker/pool.go:132-178 | After any run, a worker within its budget gets its outcome recorded if and only if its report meets the conditions |
| Sending.ExchangeSettlesDelivery | internal/webhook/dispatcher.go:124-208 | With a safe configuration, the report of a worker within its budget is recorded and settles the delivery: 2xx succeeds; no response, 408, 425, 429 and 5xx are retried after a delay within the jitter while budget is left, and end it otherwise; any other status or a request that never went out ends it at once; no response, 408 and 5xx count against the endpoint, other statuses close its circuit; the log repeats the exchange and nothing else changes |
| Worker.ClaimThenFinishIffTrimmed | internal/store/queue.go:145-148 | Every name with something visible in it can claim a candidate; it then finishes the job if and only if the name has no white space around it, and otherwise gets ErrLeaseLost |
| Worker.PaddedWorkerNeverFinishes | internal/store/queue.go:216-234 | After any run, every finish under a name with white space around it is refused and changes nothing |
| Worker.PaddedWorkerLosesItsLease | internal/store/queue.go:145-148 | The worker " w" claims a delivery, sends it with success and loses its lease |

## Left out

- HTTP handlers, command line, configuration parsing, database pool, metrics, build information.
- Encryption of secrets, request signatures, address policy of the dialer and URL normalisation.
- The network exchange itself: it is an argument (an error, or a status with a body and a read error); the
  truncation and UTF-8 repair of texts is modelled only as a cut of error texts at 2048 characters.
- JSON equality of payloads: payloads are texts that stand for their normal form.
- The endless loop of a worker, its polling and its shutdown: workers are arbitrary sequences of calls.
- Row locks, isolation anomalies and indexes of PostgreSQL: replaced by the assumptions above.
- Rounding of stored timestamps to microseconds, and of durations in floating point: times are exact
  integers and the jitter is exact real arithmetic.
- Overflow of `consecutive_failures`: an unbounded number.
- Row ids of attempts, and names, URLs and secrets of endpoints.
- Texts that are not UUIDs: the database would refuse them, here they are ids that match no row.
- Listing endpoints and statistics, and the checks of the publishing service on event types and keys.
