/** From an exchange with the receiver to what becomes of the delivery, its endpoint and its log. */
module Sending {
  import opened Prelude
  import opened DeliveryModel
  import opened AttemptResults
  import opened Queue
  import opened QueueInvariant
  import opened Calls
  import opened AttemptLog
  import opened Backoff
  import opened Worker

  /** Nothing kept the request from going out. */
  predicate Sent(x: Situation) {
    x.exchange.decryptError.None? && x.timeout > 0 && x.exchange.buildError.None? && x.exchange.schemeAllowed
  }

  /** The status that came back, if any did. */
  function Answered(x: Situation): Option<int> {
    if Sent(x) && x.exchange.reply.Ok? then Some(x.exchange.reply.value.status) else None
  }

  /** The error text before it is cut to 2048 characters. */
  function WholeError(x: Situation): string {
    if x.exchange.decryptError.Some? then "decrypt endpoint secret: " + x.exchange.decryptError.value
    else if x.timeout <= 0 then "endpoint timeout must be positive"
    else if x.exchange.buildError.Some? then "build webhook request: " + x.exchange.buildError.value
    else if !x.exchange.schemeAllowed then "webhook target must use HTTPS"
    else
      match x.exchange.reply
      case Err(cause) => "send webhook: " + cause
      case Ok(reply) => if reply.readError.Some? then "read webhook response: " + reply.readError.value else ""
  }

  // ---------------------------------------------------------------- what may become of a delivery

  /** With budget left the delivery waits for the retry delay, which lies within the jitter; with none
      left it is dead. */
  predicate RetriedOrSpent(config: PoolConfig, x: Situation, d: Delivery, d': Delivery) {
    if d.attemptCount < d.maxAttempts then
      && d'.status == Retrying
      && x.completedAt + Shortest(config.retry, x.attempt).Floor <= d'.nextAttemptAt
      && (d'.nextAttemptAt - x.completedAt) as real <= Longest(config.retry, x.attempt)
      && d'.nextAttemptAt - x.completedAt <= config.retry.max
    else d'.status == Dead
  }

  /** One more failure; at the threshold the circuit is open for at least the cooldown. */
  predicate CountsFailure(config: PoolConfig, e: Endpoint, e': Endpoint, now: Time) {
    && e'.consecutiveFailures == e.consecutiveFailures + 1 && e'.updatedAt == now
    && (if e.consecutiveFailures + 1 >= config.circuitThreshold
        then e'.circuitOpenUntil.Some? && now + config.circuitCooldown / 1_000_000 * 1_000_000 <= e'.circuitOpenUntil.value
        else e'.circuitOpenUntil == e.circuitOpenUntil)
  }

  predicate ClosesCircuit(e': Endpoint, now: Time) {
    e'.consecutiveFailures == 0 && e'.circuitOpenUntil.None? && e'.updatedAt == now
  }

  predicate KeepsCircuit(e: Endpoint, e': Endpoint) {
    e' == e
  }

  /** The delivery gives up its lock and repeats the end of its last attempt. */
  predicate Released(d: Delivery, d': Delivery, row: Attempt, now: Time) {
    && d'.lockedBy.None? && d'.leaseToken.None? && d'.lockedAt.None? && d'.lockedUntil.None?
    && d'.lastStatusCode == row.statusCode && d'.lastError == row.errorMessage
    && d'.lastCompletedAt == Some(row.completedAt)
    && d'.attemptCount == d.attemptCount && d'.maxAttempts == d.maxAttempts
    && d'.createdAt == d.createdAt && d'.updatedAt == now
  }

  /** Nothing but one delivery, its endpoint and the log has changed. */
  predicate OnlyTouches(s: State, t: State, id: Id, e: Id)
    requires id in t.deliveries && e in t.endpoints
  {
    && t.now == s.now && t.events == s.events
    && t.deliveries == s.deliveries[id := t.deliveries[id]]
    && t.endpoints == s.endpoints[e := t.endpoints[e]]
  }

  /** A request that never went out ends the delivery. No response, 408, 425, 429 and 5xx are retried,
      2xx is success, and every other status ends the delivery. */
  predicate Decided(config: PoolConfig, x: Situation, d: Delivery, d': Delivery) {
    if !Sent(x) then d'.status == Dead
    else
      match Answered(x)
      case None => RetriedOrSpent(config, x, d, d')
      case Some(c) =>
        && (200 <= c <= 299 ==> d'.status == Succeeded)
        && (c == 408 || c == 425 || c == 429 || c >= 500 ==> RetriedOrSpent(config, x, d, d'))
        && (c < 200 || (300 <= c < 500 && c != 408 && c != 425 && c != 429) ==> d'.status == Dead)
  }

  /** No response, 408 and 5xx count against the endpoint, every other status speaks for it; a request
      that never went out, or a worker that is shutting down, says nothing. */
  predicate CircuitDecided(config: PoolConfig, x: Situation, e: Endpoint, e': Endpoint, now: Time) {
    if !Sent(x) || x.cancelled then KeepsCircuit(e, e')
    else
      match Answered(x)
      case None => CountsFailure(config, e, e', now)
      case Some(c) => if c >= 500 || c == 408 then CountsFailure(config, e, e', now) else ClosesCircuit(e', now)
  }

  /** The row tells the exchange as it was. */
  predicate Logged(x: Situation, row: Attempt) {
    && row.deliveryId == x.deliveryId && row.number == x.attempt
    && row.statusCode == Answered(x)
    && row.responseBody == (if Answered(x).Some? then x.exchange.reply.value.body else "")
    && row.errorMessage <= WholeError(x) && |row.errorMessage| == Min(|WholeError(x)|, 2048)
    && row.startedAt == x.startedAt && row.completedAt == x.completedAt
    && row.durationMs == Min((x.completedAt - x.startedAt) / 1_000_000, 0x7fff_ffff)
  }

  // ---------------------------------------------------------------- the report

  lemma ErrorTextIsCut(text: string)
    ensures ErrorText(text) <= text && |ErrorText(text)| == Min(|text|, 2048)
  {}

  lemma ErrorIsCut(x: Situation)
    ensures DispatchedIn(x).errorMessage == ErrorText(WholeError(x))
  {}

  lemma AnswerIsTold(x: Situation)
    ensures DispatchedIn(x).statusCode == Answered(x)
    ensures DispatchedIn(x).responseBody == (if Answered(x).Some? then x.exchange.reply.value.body else "")
  {}

  lemma ReportRepeats(config: PoolConfig, x: Situation, outside: Duration)
    ensures var r, d := ReportIn(config, x, outside), DispatchedIn(x);
            && r.statusCode == d.statusCode && r.responseBody == d.responseBody && r.errorMessage == d.errorMessage
            && r.startedAt == d.startedAt && r.completedAt == d.completedAt && r.duration == d.duration
  {}

  lemma ReportTellsExchange(config: PoolConfig, x: Situation, outside: Duration)
    ensures var r := ReportIn(config, x, outside);
            && r.statusCode == Answered(x)
            && r.responseBody == (if Answered(x).Some? then x.exchange.reply.value.body else "")
            && r.errorMessage <= WholeError(x) && |r.errorMessage| == Min(|WholeError(x)|, 2048)
            && r.startedAt == x.startedAt && r.completedAt == x.completedAt
            && r.duration == x.completedAt - x.startedAt
  {
    ReportRepeats(config, x, outside);
    AnswerIsTold(x);
    DecisionFits(x.timeout, x.exchange, x.startedAt, x.completedAt);
    ErrorIsCut(x);
    ErrorTextIsCut(WholeError(x));
  }

  /** The decision, for every exchange. */
  lemma ReportDecision(config: PoolConfig, x: Situation, outside: Duration)
    ensures ReportIn(config, x, outside).decision ==
              if !Sent(x) then Discard
              else if Answered(x).None? then Retry
              else
                var c := Answered(x).value;
                if 200 <= c <= 299 then Succeed
                else if c == 408 || c == 425 || c == 429 || c >= 500 then Retry
                else Discard
  {}

  lemma ReportSignal(config: PoolConfig, x: Situation, outside: Duration)
    requires Answered(x).Some? ==> Answered(x).value >= 100
    ensures var r := ReportIn(config, x, outside);
            && r.circuitOutcome == (if !Sent(x) || x.cancelled then CircuitNone
                                    else if Answered(x).None? then CircuitFailure
                                    else if Answered(x).value >= 500 || Answered(x).value == 408 then CircuitFailure
                                    else CircuitSuccess)
            && (r.circuitOutcome == CircuitFailure ==>
                  r.circuitThreshold == config.circuitThreshold && r.circuitCooldown == config.circuitCooldown)
  {}

  lemma ReportSchedule(config: PoolConfig, x: Situation, outside: Duration)
    requires ValidConfig(config) && ReportIn(config, x, outside).decision == Retry
    ensures var delay := ReportIn(config, x, outside).nextAttemptAt - x.completedAt;
            && Shortest(config.retry, x.attempt).Floor <= delay <= config.retry.max
            && delay as real <= Longest(config.retry, x.attempt)
  {
    DelayBounds(config.retry, x.attempt, x.sample, outside);
  }

  // ---------------------------------------------------------------- the finish

  lemma FinishMovesDelivery(s: State, r: AttemptResult)
    requires Enabled(s, Finish(r))
    ensures var t := Commit(s, Finish(r));
            && r.deliveryId in t.deliveries
            && var d, d' := s.deliveries[r.deliveryId], t.deliveries[r.deliveryId];
            && (r.decision == Succeed ==> d'.status == Succeeded)
            && (r.decision == Discard ==> d'.status == Dead)
            && (r.decision == Retry && d.attemptCount < d.maxAttempts ==>
                  d'.status == Retrying && d'.nextAttemptAt == r.nextAttemptAt)
            && (r.decision == Retry && d.attemptCount >= d.maxAttempts ==> d'.status == Dead)
  {}

  lemma FinishMovesCircuit(s: State, r: AttemptResult, e: Id)
    requires Enabled(s, Finish(r)) && s.deliveries[r.deliveryId].endpointId == e && e in s.endpoints
    ensures var t := Commit(s, Finish(r));
            && e in t.endpoints
            && var before, after := s.endpoints[e], t.endpoints[e];
            && (r.circuitOutcome == CircuitNone ==> KeepsCircuit(before, after))
            && (r.circuitOutcome == CircuitSuccess ==> ClosesCircuit(after, s.now))
            && (r.circuitOutcome == CircuitFailure ==>
                  && after.consecutiveFailures == before.consecutiveFailures + 1 && after.updatedAt == s.now
                  && (if before.consecutiveFailures + 1 >= r.circuitThreshold
                      then after.circuitOpenUntil.Some?
                           && s.now + WholeMilliseconds(r.circuitCooldown) <= after.circuitOpenUntil.value
                      else after.circuitOpenUntil == before.circuitOpenUntil))
  {}

  /** All that an accepted report on an exchange does. */
  ghost predicate Settled(config: PoolConfig, x: Situation, s: State, t: State)
    requires x.deliveryId in s.deliveries && s.deliveries[x.deliveryId].endpointId in s.endpoints
  {
    var e, rows := s.deliveries[x.deliveryId].endpointId, Rows(t.attempts, x.deliveryId);
    && x.deliveryId in t.deliveries && e in t.endpoints
    && Decided(config, x, s.deliveries[x.deliveryId], t.deliveries[x.deliveryId])
    && CircuitDecided(config, x, s.endpoints[e], t.endpoints[e], s.now)
    && |rows| == x.attempt >= 1 && Logged(x, rows[x.attempt - 1])
    && Released(s.deliveries[x.deliveryId], t.deliveries[x.deliveryId], rows[x.attempt - 1], s.now)
    && OnlyTouches(s, t, x.deliveryId, e)
  }

  lemma DeliverySettles(s: State, config: PoolConfig, x: Situation, outside: Duration)
    requires ValidConfig(config) && Enabled(s, Finish(ReportIn(config, x, outside)))
    ensures var t := Commit(s, Finish(ReportIn(config, x, outside)));
            && x.deliveryId in s.deliveries && x.deliveryId in t.deliveries
            && Decided(config, x, s.deliveries[x.deliveryId], t.deliveries[x.deliveryId])
  {
    var r := ReportIn(config, x, outside);
    ReportCarriesLease(config, x, outside);
    ReportDecision(config, x, outside);
    FinishMovesDelivery(s, r);
    if r.decision == Retry {
      ReportSchedule(config, x, outside);
    }
  }

  lemma CircuitSettles(s: State, config: PoolConfig, x: Situation, outside: Duration, e: Id)
    requires ValidConfig(config) && SoundExchange(x) && Enabled(s, Finish(ReportIn(config, x, outside)))
    requires s.deliveries[ReportIn(config, x, outside).deliveryId].endpointId == e && e in s.endpoints
    ensures var t := Commit(s, Finish(ReportIn(config, x, outside)));
            e in t.endpoints && CircuitDecided(config, x, s.endpoints[e], t.endpoints[e], s.now)
  {
    ReportSignal(config, x, outside);
    FinishMovesCircuit(s, ReportIn(config, x, outside), e);
  }

  lemma LogSettles(s: State, config: PoolConfig, x: Situation, outside: Duration)
    requires DeliveriesInv(s) && Enabled(s, Finish(ReportIn(config, x, outside)))
    ensures var rows := Rows(Apply(s, Finish(ReportIn(config, x, outside))).attempts, x.deliveryId);
            |rows| == x.attempt >= 1 && Logged(x, rows[x.attempt - 1])
  {
    var r := ReportIn(config, x, outside);
    ReportCarriesLease(config, x, outside);
    ReportTellsExchange(config, x, outside);
    FinishAppends(s, r);
    FinishRowRecords(r);
  }

  lemma FinishReleases(s: State, r: AttemptResult, e: Id)
    requires Enabled(s, Finish(r)) && s.deliveries[r.deliveryId].endpointId == e && e in s.endpoints
    ensures var t := Commit(s, Finish(r));
            && r.deliveryId in t.deliveries && e in t.endpoints
            && OnlyTouches(s, t, r.deliveryId, e)
            && Released(s.deliveries[r.deliveryId], t.deliveries[r.deliveryId], FinishRow(r), s.now)
  {}

  lemma FinishSettles(s: State, config: PoolConfig, x: Situation, outside: Duration)
    requires Inv(s) && ValidConfig(config) && SoundExchange(x)
    requires FinishAttempt(s, ReportIn(config, x, outside)).1.Ok?
    ensures x.deliveryId in s.deliveries && s.deliveries[x.deliveryId].endpointId in s.endpoints
    ensures Settled(config, x, s, FinishAttempt(s, ReportIn(config, x, outside)).0)
  {
    var r := ReportIn(config, x, outside);
    FinishIsAStep(s, r);
    ReportCarriesLease(config, x, outside);
    DeliverySettles(s, config, x, outside);
    CircuitSettles(s, config, x, outside, s.deliveries[x.deliveryId].endpointId);
    LogSettles(s, config, x, outside);
    FinishReleases(s, r, s.deliveries[x.deliveryId].endpointId);
    FinishAppends(s, r);
  }

  /** From the exchange to the tables, end to end: after any run, the report of a worker within its
      budget is recorded, and it does to the delivery, to the breaker of its endpoint and to the log
      what the exchange calls for. */
  lemma ExchangeSettlesDelivery(now: Time, steps: seq<Step>, config: PoolConfig, x: Situation,
                                budget: Duration, outside: Duration)
    requires ValidConfig(config) && SafeConfig(config)
    requires !Blank(x.deliveryId) && WithinBudget(now, steps, x, budget) && SoundExchange(x)
    ensures var s := Run(Start(now), steps);
            var (t, answer) := FinishAttempt(s, ReportIn(config, x, outside));
            && answer.Ok?
            && x.deliveryId in s.deliveries && s.deliveries[x.deliveryId].endpointId in s.endpoints
            && Settled(config, x, s, t)
  {
    WorkerWithinBudgetFinishes(now, steps, config, x, budget, outside);
    ReachableInv(now, steps);
    FinishSettles(Run(Start(now), steps), config, x, outside);
  }
}
