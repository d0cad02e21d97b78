/** What a worker reports about an attempt, and the checks the store makes before it looks at a row
    (internal/store/queue.go). */
module AttemptResults {
  import opened Prelude
  import opened DeliveryModel

  /** OtherOutcome stands for every text that is none of the three constants. */
  datatype CircuitOutcome = CircuitNone | CircuitFailure | CircuitSuccess | OtherOutcome(text: string)

  datatype AttemptResult = AttemptResult(
    deliveryId: Id,
    workerId: string,
    leaseToken: string,
    attemptNumber: int,
    decision: Decision,
    statusCode: Option<int>,
    responseBody: string,
    errorMessage: string,
    duration: Duration,
    startedAt: Time,
    completedAt: Time,
    nextAttemptAt: Time,
    circuitOutcome: CircuitOutcome,
    circuitThreshold: int,
    circuitCooldown: Duration)

  /** The first objection to a result, or None when the store goes on to the database. */
  function ValidateAttemptResult(r: AttemptResult): Option<string> {
    if Blank(r.deliveryId) then Some("delivery id is required")
    else if Blank(r.workerId) then Some("worker id is required")
    else if Blank(r.leaseToken) then Some("lease token is required")
    else if r.attemptNumber < 1 || r.attemptNumber > MAX_INT32 then
      Some("attempt number is outside the supported range")
    else if r.decision != Succeed && r.decision != Retry && r.decision != Discard then
      Some("invalid delivery decision")
    else if r.statusCode.Some? && (r.statusCode.value < 100 || r.statusCode.value > 599) then
      Some("status code must be between 100 and 599")
    else if r.statusCode.None? && Blank(r.errorMessage) then
      Some("error message is required without status code")
    else if r.statusCode.None? && r.decision == Succeed then
      Some("successful result requires a status code")
    else if r.statusCode.Some? && Evaluate(r.statusCode.value, false) != r.decision then
      Some("decision does not match status code")
    else if r.duration < 0 then Some("duration must not be negative")
    else if r.startedAt == 0 || r.completedAt == 0 || r.completedAt < r.startedAt then
      Some("invalid attempt timestamps")
    else if r.decision == Retry && r.nextAttemptAt <= r.completedAt then
      Some("next attempt must be after completion")
    else if r.circuitOutcome != CircuitNone && r.circuitOutcome != CircuitFailure
            && r.circuitOutcome != CircuitSuccess then
      Some("invalid circuit outcome")
    else if r.circuitOutcome == CircuitFailure && (r.circuitThreshold < 1 || r.circuitCooldown < MILLISECOND) then
      Some("invalid circuit breaker configuration")
    else None
  }

  predicate Acceptable(r: AttemptResult) {
    ValidateAttemptResult(r).None?
  }

  /** Every condition of the store at once. */
  lemma AcceptableIff(r: AttemptResult)
    ensures Acceptable(r) <==>
      && !Blank(r.deliveryId) && !Blank(r.workerId) && !Blank(r.leaseToken)
      && 1 <= r.attemptNumber <= 0x7fff_ffff
      && (match r.statusCode
          case Some(c) =>
            && 100 <= c <= 599
            && r.decision == (if 200 <= c <= 299 then Succeed
                              else if c == 408 || c == 425 || c == 429 || c >= 500 then Retry else Discard)
          case None => !Blank(r.errorMessage) && (r.decision == Retry || r.decision == Discard))
      && r.duration >= 0
      && r.startedAt != 0 && r.completedAt != 0 && r.startedAt <= r.completedAt
      && (r.decision == Retry ==> r.completedAt < r.nextAttemptAt)
      && !r.circuitOutcome.OtherOutcome?
      && (r.circuitOutcome == CircuitFailure ==> r.circuitThreshold >= 1 && r.circuitCooldown >= 1_000_000)
  {}

  /** The duration column: milliseconds, clamped above and cast to 32 bits. */
  function DurationMilliseconds(value: Duration): int {
    var milliseconds := Milliseconds(value);
    if milliseconds > MAX_INT32 then MAX_INT32 else WrapInt32(milliseconds)
  }

  /** The clamp comes before the cast, so no non-negative duration wraps: the column is the smaller
      of the millisecond count and the largest 32-bit number. */
  lemma DurationColumn(value: Duration)
    requires value >= 0
    ensures DurationMilliseconds(value) == Min(value / MILLISECOND, MAX_INT32)
    ensures 0 <= DurationMilliseconds(value) <= MAX_INT32
  {}
}
