/** From the webhook response to the store: what the dispatcher makes of a response, what the worker
    reports about it, and exactly when the store accepts the report
    (internal/webhook/dispatcher.go, internal/worker/pool.go). */
module Worker {
  import opened Prelude
  import opened DeliveryModel
  import opened AttemptResults
  import opened Queue
  import opened QueueInvariant
  import opened Calls
  import opened Fencing
  import opened LeaseTiming
  import opened DeliveryHistory
  import opened Backoff
  import opened Scenario

  // ---------------------------------------------------------------- the dispatcher

  datatype Reply = Reply(status: int, body: string, readError: Option<string>)

  /** What the outside world does to one delivery. */
  datatype Exchange = Exchange(
    decryptError: Option<string>,
    buildError: Option<string>,
    schemeAllowed: bool,
    reply: Result<Reply, string>)

  datatype CircuitSignal = SignalNone | SignalFailure | SignalSuccess

  datatype Dispatched = Dispatched(
    decision: Decision,
    statusCode: Option<int>,
    responseBody: string,
    errorMessage: string,
    circuitSignal: CircuitSignal,
    duration: Duration,
    startedAt: Time,
    completedAt: Time)

  function SignalFor(status: int): CircuitSignal {
    if status >= 500 || status == 408 then SignalFailure
    else if status >= 100 then SignalSuccess
    else SignalNone
  }

  const MAXIMUM_ERROR_LENGTH: int := 2048

  function ErrorText(text: string): string {
    if |text| > MAXIMUM_ERROR_LENGTH then text[..MAXIMUM_ERROR_LENGTH] else text
  }

  function Failed(startedAt: Time, completedAt: Time, decision: Decision, signal: CircuitSignal, text: string): Dispatched {
    Dispatched(decision, None, "", ErrorText(text), signal, completedAt - startedAt, startedAt, completedAt)
  }

  /** One delivery, with its two clock readings. */
  function Deliver(timeout: Duration, x: Exchange, startedAt: Time, completedAt: Time): Dispatched {
    if x.decryptError.Some? then
      Failed(startedAt, completedAt, Discard, SignalNone, "decrypt endpoint secret: " + x.decryptError.value)
    else if timeout <= 0 then
      Failed(startedAt, completedAt, Discard, SignalNone, "endpoint timeout must be positive")
    else if x.buildError.Some? then
      Failed(startedAt, completedAt, Discard, SignalNone, "build webhook request: " + x.buildError.value)
    else if !x.schemeAllowed then
      Failed(startedAt, completedAt, Discard, SignalNone, "webhook target must use HTTPS")
    else
      match x.reply
      case Err(cause) =>
        Failed(startedAt, completedAt, Retry, SignalFailure, "send webhook: " + cause)
      case Ok(reply) =>
        Dispatched(Evaluate(reply.status, false), Some(reply.status), reply.body,
                   if reply.readError.Some? then ErrorText("read webhook response: " + reply.readError.value) else "",
                   SignalFor(reply.status), completedAt - startedAt, startedAt, completedAt)
  }

  // ---------------------------------------------------------------- the worker

  datatype PoolConfig = PoolConfig(retry: RetryPolicy, circuitThreshold: int, circuitCooldown: Duration)

  /** The checks on the breaker that creating a pool makes. */
  predicate ValidPool(config: PoolConfig) {
    config.circuitThreshold >= 1 && config.circuitCooldown > 0
  }

  /** The report on a dispatched delivery; cancelled says that the worker is shutting down. */
  function Report(config: PoolConfig, workerId: string, deliveryId: Id, leaseToken: string, attempt: int,
                  result: Dispatched, delay: Duration, cancelled: bool): AttemptResult {
    var signal := if cancelled then SignalNone else result.circuitSignal;
    AttemptResult(
      deliveryId, workerId, leaseToken, attempt, result.decision, result.statusCode, result.responseBody,
      result.errorMessage, result.duration, result.startedAt, result.completedAt,
      if result.decision == Retry then result.completedAt + delay else 0,
      if signal == SignalFailure then CircuitFailure else if signal == SignalSuccess then CircuitSuccess else CircuitNone,
      if signal == SignalFailure then config.circuitThreshold else 0,
      if signal == SignalFailure then config.circuitCooldown else 0)
  }

  // ---------------------------------------------------------------- the contract

  /** Without a status there is always an error text, because every text has a visible prefix. */
  lemma FailuresHaveText(timeout: Duration, x: Exchange, startedAt: Time, completedAt: Time)
    ensures var r := Deliver(timeout, x, startedAt, completedAt);
            r.statusCode.None? ==> !Blank(r.errorMessage) && (r.decision == Retry || r.decision == Discard)
  {
    var r := Deliver(timeout, x, startedAt, completedAt);
    if r.statusCode.None? {
      VisibleStartIsNotBlank(r.errorMessage);
    }
  }

  /** What the surroundings must provide for a report to be accepted. */
  predicate Reportable(config: PoolConfig, result: Dispatched, delay: Duration, cancelled: bool) {
    && (result.statusCode.Some? ==> 100 <= result.statusCode.value <= 599)
    && result.startedAt != 0 && result.completedAt != 0 && result.startedAt <= result.completedAt
    && (result.decision == Retry ==> delay > 0)
    && (!cancelled && result.circuitSignal == SignalFailure ==> config.circuitCooldown >= MILLISECOND)
  }

  /** The fields of a report that do not depend on the exchange. */
  predicate GoodLease(workerId: string, deliveryId: Id, leaseToken: string, attempt: int) {
    !Blank(workerId) && !Blank(deliveryId) && !Blank(leaseToken) && 1 <= attempt <= MAX_INT32
  }

  /** The contract between worker and store, exactly: for every exchange, the store accepts the
      report on a claimed job if and only if the status is between 100 and 599, the clock did not go
      back, the retry delay is positive and the cooldown is a millisecond. */
  lemma ReportAcceptedIff(config: PoolConfig, workerId: string, deliveryId: Id, leaseToken: string, attempt: int,
                          timeout: Duration, x: Exchange, startedAt: Time, completedAt: Time,
                          delay: Duration, cancelled: bool)
    requires ValidPool(config) && GoodLease(workerId, deliveryId, leaseToken, attempt)
    ensures var result := Deliver(timeout, x, startedAt, completedAt);
            Acceptable(Report(config, workerId, deliveryId, leaseToken, attempt, result, delay, cancelled))
            <==> Reportable(config, result, delay, cancelled)
  {
    FailuresHaveText(timeout, x, startedAt, completedAt);
    DecisionFits(timeout, x, startedAt, completedAt);
    AcceptableFields(config, workerId, deliveryId, leaseToken, attempt,
                     Deliver(timeout, x, startedAt, completedAt), delay, cancelled);
  }

  lemma DecisionFits(timeout: Duration, x: Exchange, startedAt: Time, completedAt: Time)
    ensures var r := Deliver(timeout, x, startedAt, completedAt);
            && (r.statusCode.Some? ==> r.decision == Evaluate(r.statusCode.value, false))
            && r.duration == completedAt - startedAt && r.startedAt == startedAt && r.completedAt == completedAt
            && !r.decision.OtherDecision?
  {}

  lemma AcceptableFields(config: PoolConfig, workerId: string, deliveryId: Id, leaseToken: string, attempt: int,
                         r: Dispatched, delay: Duration, cancelled: bool)
    requires ValidPool(config) && GoodLease(workerId, deliveryId, leaseToken, attempt)
    requires !r.decision.OtherDecision? && r.duration == r.completedAt - r.startedAt
    requires r.statusCode.None? ==> !Blank(r.errorMessage) && r.decision != Succeed
    requires r.statusCode.Some? ==> r.decision == Evaluate(r.statusCode.value, false)
    ensures Acceptable(Report(config, workerId, deliveryId, leaseToken, attempt, r, delay, cancelled))
       <==> Reportable(config, r, delay, cancelled)
  {}

  // Each condition is needed: a report that the store refuses for each of them.

  const SENT: Exchange := Exchange(None, None, true, Ok(Reply(200, "", None)))

  predicate Refused(config: PoolConfig, x: Exchange, startedAt: Time, completedAt: Time, delay: Duration, objection: string) {
    ValidateAttemptResult(Report(config, "w", "d", "t", 1, Deliver(SECOND, x, startedAt, completedAt), delay, false))
    == Some(objection)
  }

  /** Full jitter with sample 0 gives no delay; a server may answer 600; the clock may go back or
      show the zero time; a cooldown below a millisecond passes the pool's own checks. */
  lemma EveryConditionIsNeeded(config: PoolConfig, hasty: PoolConfig)
    requires config == PoolConfig(RetryPolicy(SECOND, 8 * SECOND, 1.0), 5, 30 * SECOND)
    requires hasty == config.(circuitCooldown := 500_000)
    ensures ValidPool(config) && ValidPool(hasty)
    ensures NextDelay(config.retry, 1, 0.0, 0) == 0
    ensures Refused(config, SENT.(reply := Ok(Reply(503, "", None))), 1, 2, 0, "next attempt must be after completion")
    ensures Refused(config, SENT.(reply := Ok(Reply(600, "", None))), 1, 2, 1, "status code must be between 100 and 599")
    ensures Refused(config, SENT, 2, 1, 1, "duration must not be negative")
    ensures Refused(config, SENT, 0, 1, 1, "invalid attempt timestamps")
    ensures Refused(config, SENT, -1, 0, 1, "invalid attempt timestamps")
    ensures Refused(hasty, SENT.(reply := Ok(Reply(503, "", None))), 1, 2, 1, "invalid circuit breaker configuration")
  {
    NamesAreVisible();
    FullJitter(config.retry);
  }

  lemma FullJitter(p: RetryPolicy)
    requires Backoff.Valid(p) && p.jitter == 1.0
    ensures NextDelay(p, 1, 0.0, 0) == 0
  {}

  // ---------------------------------------------------------------- the configuration

  /** Everything outside the configuration that goes into one report. */
  datatype Situation = Situation(
    workerId: string,
    deliveryId: Id,
    leaseToken: string,
    attempt: int,
    timeout: Duration,
    exchange: Exchange,
    startedAt: Time,
    completedAt: Time,
    sample: real,
    cancelled: bool)

  function DispatchedIn(x: Situation): Dispatched {
    Deliver(x.timeout, x.exchange, x.startedAt, x.completedAt)
  }

  /** The report that a configured pool makes. */
  function ReportIn(config: PoolConfig, x: Situation, outside: Duration): AttemptResult {
    Report(config, x.workerId, x.deliveryId, x.leaseToken, x.attempt, DispatchedIn(x),
           NextDelay(config.retry, x.attempt, x.sample, outside), x.cancelled)
  }

  /** The receiver answers with a status between 100 and 599, and the clock is set and does not go back. */
  predicate SoundExchange(x: Situation) {
    && var status := DispatchedIn(x).statusCode;
    && (status.Some? ==> 100 <= status.value <= 599)
    && x.startedAt != 0 && x.completedAt != 0 && x.startedAt <= x.completedAt
  }

  predicate Sound(x: Situation) {
    GoodLease(x.workerId, x.deliveryId, x.leaseToken, x.attempt) && SoundExchange(x)
  }

  /** The shortest first delay is a nanosecond and the cooldown a millisecond. */
  predicate SafeConfig(config: PoolConfig) {
    && (config.retry.base as real * (1.0 - config.retry.jitter)).Floor >= 1
    && config.circuitCooldown >= MILLISECOND
  }

  predicate ValidConfig(config: PoolConfig) {
    ValidPool(config) && Backoff.Valid(config.retry) && Representable(config.retry)
  }

  lemma ReportInAcceptedIff(config: PoolConfig, x: Situation, outside: Duration)
    requires ValidPool(config) && GoodLease(x.workerId, x.deliveryId, x.leaseToken, x.attempt)
    ensures Acceptable(ReportIn(config, x, outside))
       <==> Reportable(config, DispatchedIn(x), NextDelay(config.retry, x.attempt, x.sample, outside), x.cancelled)
  {
    ReportAcceptedIff(config, x.workerId, x.deliveryId, x.leaseToken, x.attempt, x.timeout, x.exchange,
                      x.startedAt, x.completedAt, NextDelay(config.retry, x.attempt, x.sample, outside), x.cancelled);
  }

  lemma SafeConfigReports(config: PoolConfig, x: Situation, outside: Duration)
    requires ValidConfig(config) && SafeConfig(config) && SoundExchange(x)
    ensures Reportable(config, DispatchedIn(x), NextDelay(config.retry, x.attempt, x.sample, outside), x.cancelled)
  {
    DelayIsPositiveIff(config.retry, outside);
    DecisionFits(x.timeout, x.exchange, x.startedAt, x.completedAt);
  }

  /** A receiver that answers 503. */
  function Overloaded(attempt: int, sample: real): Situation {
    Situation("w", "d", "t", attempt, SECOND, SENT.(reply := Ok(Reply(503, "", None))), 1, 2, sample, false)
  }

  lemma OverloadedAcceptedIff(config: PoolConfig, attempt: int, sample: real, outside: Duration)
    requires ValidPool(config) && 1 <= attempt <= MAX_INT32
    ensures Sound(Overloaded(attempt, sample))
    ensures Acceptable(ReportIn(config, Overloaded(attempt, sample), outside))
       <==> NextDelay(config.retry, attempt, sample, outside) > 0 && config.circuitCooldown >= MILLISECOND
  {
    NamesAreVisible();
    ReportInAcceptedIff(config, Overloaded(attempt, sample), outside);
  }

  lemma FirstDelayTooShort(config: PoolConfig, outside: Duration)
    requires Backoff.Valid(config.retry) && Representable(config.retry) && !SafeConfig(config)
    ensures NextDelay(config.retry, 1, 0.0, outside) <= 0 || config.circuitCooldown < MILLISECOND
  {
    FirstDelayIs(config.retry, outside);
  }

  /** A situation and a machine for every other configuration: the first attempt with sample 0, or an
      attempt at the cap with sample 1. */
  lemma UnsafeConfigFails(config: PoolConfig) returns (x: Situation, outside: Duration)
    requires ValidPool(config) && Backoff.Valid(config.retry)
    requires !(Representable(config.retry) && SafeConfig(config))
    ensures Sound(x) && !Acceptable(ReportIn(config, x, outside))
  {
    outside := -1;
    if Representable(config.retry) {
      x := Overloaded(1, 0.0);
      FirstDelayTooShort(config, outside);
      OverloadedAcceptedIff(config, 1, 0.0, outside);
    } else {
      x := Overloaded(64, 1.0);
      UnrepresentableEscapes(config.retry, outside);
      OverloadedAcceptedIff(config, 64, 1.0, outside);
    }
  }

  /** The contract as a condition on the configuration: in every sound situation and on every machine,
      whatever the attempt, the sample and the exchange, the pool's report is accepted, if and only if
      the longest delay fits in 64 bits, the base shortened by the whole jitter is a nanosecond and
      the cooldown is a millisecond. */
  lemma ConfigurationReportsIff(config: PoolConfig)
    requires ValidPool(config) && Backoff.Valid(config.retry)
    ensures (forall x: Situation, outside: Duration | Sound(x) :: Acceptable(ReportIn(config, x, outside)))
       <==> Representable(config.retry) && SafeConfig(config)
  {
    if Representable(config.retry) && SafeConfig(config) {
      forall x: Situation, outside: Duration | Sound(x)
        ensures Acceptable(ReportIn(config, x, outside))
      {
        SafeConfigReports(config, x, outside);
        ReportInAcceptedIff(config, x, outside);
      }
    } else {
      var x, outside := UnsafeConfigFails(config);
    }
  }

  /** The worker's handling of one job, its report filled field by field. The attempt is a 64-bit
      integer. In a sound situation a safe configuration always gives an acceptable report. */
  method Process(config: PoolConfig, x: Situation, outside: Duration) returns (finish: AttemptResult)
    requires Backoff.Valid(config.retry) && -MAX_INT64 - 1 <= x.attempt <= MAX_INT64
    ensures finish == ReportIn(config, x, outside)
    ensures ValidConfig(config) && SafeConfig(config) && Sound(x) ==> Acceptable(finish)
  {
    var result := DispatchedIn(x);
    finish := AttemptResult(
      x.deliveryId, x.workerId, x.leaseToken, x.attempt, result.decision, result.statusCode, result.responseBody,
      result.errorMessage, result.duration, result.startedAt, result.completedAt, 0, CircuitNone, 0, 0);
    if result.decision == Retry {
      var delay := ComputeNextDelay(config.retry, x.attempt as int64, x.sample, outside);
      finish := finish.(nextAttemptAt := result.completedAt + delay);
    }
    if !x.cancelled {
      match result.circuitSignal
      case SignalFailure =>
        finish := finish.(circuitOutcome := CircuitFailure,
                          circuitThreshold := config.circuitThreshold,
                          circuitCooldown := config.circuitCooldown);
      case SignalSuccess =>
        finish := finish.(circuitOutcome := CircuitSuccess);
      case SignalNone =>
    }
    if ValidConfig(config) {
      ConfigurationReportsIff(config);
    }
  }

  // ---------------------------------------------------------------- worker, queue and clock together

  ghost predicate NamedLeases(leases: seq<Lease>) {
    forall a :: 0 <= a < |leases| ==>
      leases[a].worker != "" && TrimSpace(leases[a].worker) == leases[a].worker && !Blank(leases[a].token)
  }

  lemma {:induction false} LeasesAreNamed(start: State, steps: seq<Step>, id: Id)
    ensures NamedLeases(Leases(start, steps, id))
  {
    if steps != [] {
      LeasesAreNamed(start, steps[..|steps| - 1], id);
    }
  }

  lemma LeaseIsGood(now: Time, steps: seq<Step>, id: Id, n: int)
    requires !Blank(id) && 1 <= n <= |Leases(Start(now), steps, id)|
    ensures var lease := Leases(Start(now), steps, id)[n - 1]; GoodLease(lease.worker, id, lease.token, n)
  {
    LeasesAreNamed(Start(now), steps, id);
    LeasesMatchRun(now, steps, id);
    BudgetLaw(now, steps, id);
  }

  /** The situation's worker holds lease n and is within its budget. */
  ghost predicate WithinBudget(now: Time, steps: seq<Step>, x: Situation, budget: Duration) {
    && Outlasts(Start(now), steps, x.deliveryId, budget)
    && AtWork(Start(now), steps, x.deliveryId, x.attempt, budget)
    && var lease := Leases(Start(now), steps, x.deliveryId)[x.attempt - 1];
    && x.workerId == lease.worker && x.leaseToken == lease.token
  }

  /** Within the budget only validation decides. */
  lemma WithinBudgetOnlyValidation(now: Time, steps: seq<Step>, x: Situation, budget: Duration, r: AttemptResult)
    requires WithinBudget(now, steps, x, budget)
    requires r.deliveryId == x.deliveryId && r.attemptNumber == x.attempt
    requires r.workerId == x.workerId && r.leaseToken == x.leaseToken
    ensures FinishAttempt(Run(Start(now), steps), r).1.Ok? <==> Acceptable(r)
  {
    FinishIsOkIff(Run(Start(now), steps), r);
    if Acceptable(r) {
      NoLeaseLostWithinBudget(now, steps, r, budget);
    }
  }

  lemma WithinBudgetIsGoodLease(now: Time, steps: seq<Step>, x: Situation, budget: Duration)
    requires !Blank(x.deliveryId) && WithinBudget(now, steps, x, budget)
    ensures GoodLease(x.workerId, x.deliveryId, x.leaseToken, x.attempt)
  {
    LeaseIsGood(now, steps, x.deliveryId, x.attempt);
  }

  lemma ReportCarriesLease(config: PoolConfig, x: Situation, outside: Duration)
    ensures var r := ReportIn(config, x, outside);
            && r.deliveryId == x.deliveryId && r.attemptNumber == x.attempt
            && r.workerId == x.workerId && r.leaseToken == x.leaseToken
  {}

  /** End to end: after any run, a worker that is within its budget gets its outcome recorded if and
      only if its report is one the store accepts. */
  lemma WithinBudgetFinishesIff(now: Time, steps: seq<Step>, config: PoolConfig, x: Situation,
                                budget: Duration, outside: Duration)
    requires ValidPool(config) && !Blank(x.deliveryId) && WithinBudget(now, steps, x, budget)
    ensures FinishAttempt(Run(Start(now), steps), ReportIn(config, x, outside)).1.Ok?
       <==> Reportable(config, DispatchedIn(x), NextDelay(config.retry, x.attempt, x.sample, outside), x.cancelled)
  {
    WithinBudgetIsGoodLease(now, steps, x, budget);
    ReportInAcceptedIff(config, x, outside);
    ReportCarriesLease(config, x, outside);
    WithinBudgetOnlyValidation(now, steps, x, budget, ReportIn(config, x, outside));
  }

  /** With a safe configuration every such worker gets its outcome recorded, whatever the sample and
      whatever happened in the exchange. */
  lemma WorkerWithinBudgetFinishes(now: Time, steps: seq<Step>, config: PoolConfig, x: Situation,
                                   budget: Duration, outside: Duration)
    requires ValidConfig(config) && SafeConfig(config)
    requires !Blank(x.deliveryId) && WithinBudget(now, steps, x, budget) && SoundExchange(x)
    ensures FinishAttempt(Run(Start(now), steps), ReportIn(config, x, outside)).1.Ok?
  {
    SafeConfigReports(config, x, outside);
    WithinBudgetFinishesIff(now, steps, config, x, budget, outside);
  }

  // ---------------------------------------------------------------- names with white space around them

  /** After a claim, the name decides who may finish. */
  lemma ClaimantFinishes(s: State, claim: Step, r: AttemptResult)
    requires Inv(s) && claim.Claim? && Enabled(s, claim)
    requires Acceptable(r) && r.deliveryId == claim.deliveryId && r.leaseToken == claim.token
    requires r.attemptNumber == s.deliveries[claim.deliveryId].attemptCount + 1
    ensures FinishAttempt(Apply(s, claim), r).1.Ok? <==> claim.worker == r.workerId
    ensures FinishAttempt(Apply(s, claim), r).1.Err? ==> FinishAttempt(Apply(s, claim), r).1.error == LeaseLost
  {
    var t := Apply(s, claim);
    StepKeepsInv(s, claim);
    assert t.deliveries[r.deliveryId] == Leased(s.deliveries[r.deliveryId], claim.worker, claim.token, claim.lease, s.now);
    assert HoldsLease(t, r) <==> claim.worker == r.workerId;
    NextNumberIsFree(t, r.deliveryId);
  }

  lemma ClaimHandsOut(s: State, claim: Step)
    requires Inv(s) && claim.Claim? && Enabled(s, claim)
    ensures var job, d := JobOf(Apply(s, claim), claim.deliveryId), s.deliveries[claim.deliveryId];
            && job.Some? && job.value.deliveryId == claim.deliveryId
            && job.value.delivery == Leased(d, claim.worker, claim.token, claim.lease, s.now)
  {}

  /** Claims trim the worker's name and finishes do not. Every name with something visible in it can
      claim; the same name then finishes the job it was handed if and only if it has no white space
      around it, and otherwise its lease is lost. */
  lemma ClaimThenFinishIffTrimmed(s: State, name: string, lease: Duration, token: string, batch: seq<Id>,
                                  pick: Id, r: AttemptResult)
    requires Inv(s) && TrimSpace(name) != "" && lease >= MILLISECOND && !Blank(token)
    requires Candidate(RecoverAll(s, batch), pick)
    requires Acceptable(r) && r.deliveryId == pick && r.workerId == name && r.leaseToken == token
    requires r.attemptNumber == RecoverAll(s, batch).deliveries[pick].attemptCount + 1
    ensures var (t, answer) := ClaimDelivery(s, name, lease, token, batch, Some(pick));
            && answer.Ok? && answer.value.Some?
            && answer.value.value.delivery.attemptCount == r.attemptNumber
            && answer.value.value.delivery.leaseToken == Some(r.leaseToken)
            && (FinishAttempt(t, r).1.Ok? <==> TrimSpace(name) == name)
            && (FinishAttempt(t, r).1.Err? ==> FinishAttempt(t, r).1.error == LeaseLost)
  {
    TrimIsIdempotent(name);
    RecoveryKeepsInv(s, batch);
    ClaimHandsOut(RecoverAll(s, batch), Claim(pick, TrimSpace(name), token, lease));
    ClaimantFinishes(RecoverAll(s, batch), Claim(pick, TrimSpace(name), token, lease), r);
  }

  /** No run and no report helps: a finish under a name with white space around it is always refused
      and changes nothing. */
  lemma PaddedWorkerNeverFinishes(now: Time, steps: seq<Step>, r: AttemptResult)
    requires TrimSpace(r.workerId) != r.workerId
    ensures var (s', answer) := FinishAttempt(Run(Start(now), steps), r);
            answer.Err? && s' == Run(Start(now), steps)
  {
    LeasesMatchRun(now, steps, r.deliveryId);
    LeasesAreNamed(Start(now), steps, r.deliveryId);
  }

  /** The worker " w" claims the one delivery, succeeds in sending it, and loses its lease. */
  lemma PaddedWorkerLosesItsLease(steps: seq<Step>, s: State, r: AttemptResult)
    requires steps == [CREATE, Enqueue(PARAMS)] && s == Run(Start(1), steps)
    requires r == AttemptResult("d", " w", "t", 1, Succeed, Some(200), "", "", 1, 1, 2, 0, CircuitNone, 0, 0)
    ensures var (t, answer) := ClaimDelivery(s, " w", 45 * SECOND, "t", [], Some("d"));
            && answer.Ok? && answer.value.Some? && answer.value.value.delivery.attemptCount == 1
            && FinishAttempt(t, r).1 == Err(LeaseLost)
  {
    RunPrefix(Start(1), steps, 0);
    RunPrefix(Start(1), steps, 1);
    assert steps[..0] == [] && steps[..2] == steps;
    Stored();
    NamesAreVisible();
    ReachableInv(1, steps);
    assert TrimSpace(" w") == TrimSpace("w");
    assert RecoverAll(s, []) == s;
    ClaimThenFinishIffTrimmed(s, " w", 45 * SECOND, "t", [], "d", r);
  }
}
