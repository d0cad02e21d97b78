/** The records of the relay and the status graph of a delivery (internal/delivery/model.go, policy.go). */
module DeliveryModel {
  import opened Prelude

  datatype Status = Pending | Processing | Retrying | Succeeded | Dead {

    predicate Final() {
      this == Succeeded || this == Dead
    }

    predicate CanTransition(next: Status) {
      match this
      case Pending => next == Processing
      case Retrying => next == Processing
      case Processing => next == Succeeded || next == Retrying || next == Dead
      case Dead => next == Pending
      case Succeeded => false
    }
  }

  /** OtherDecision stands for every text that is none of the three constants. */
  datatype Decision = Succeed | Retry | Discard | OtherDecision(text: string)

  datatype Endpoint = Endpoint(
    timeoutMs: int,
    maxAttempts: int,
    consecutiveFailures: int,
    circuitOpenUntil: Option<Time>,
    disabledAt: Option<Time>,
    createdAt: Time,
    updatedAt: Time)

  datatype Event = Event(
    endpointId: Id,
    eventType: string,
    payload: string,
    idempotencyKey: string,
    createdAt: Time)

  datatype Delivery = Delivery(
    eventId: Id,
    endpointId: Id,
    status: Status,
    attemptCount: int,
    maxAttempts: int,
    nextAttemptAt: Time,
    lockedBy: Option<string>,
    leaseToken: Option<string>,
    lockedAt: Option<Time>,
    lockedUntil: Option<Time>,
    lastStatusCode: Option<int>,
    lastError: string,
    lastCompletedAt: Option<Time>,
    createdAt: Time,
    updatedAt: Time)

  /** A row of delivery_attempts. */
  datatype Attempt = Attempt(
    deliveryId: Id,
    number: int,
    statusCode: Option<int>,
    responseBody: string,
    errorMessage: string,
    durationMs: int,
    startedAt: Time,
    completedAt: Time)

  /** The verdict on an HTTP status; requestFailed says that no response came back. */
  function Evaluate(statusCode: int, requestFailed: bool): Decision {
    if requestFailed then Retry
    else if 200 <= statusCode < 300 then Succeed
    else if statusCode == 408 || statusCode == 425 || statusCode == 429 || statusCode >= 500 then Retry
    else Discard
  }

  predicate ValidMaxAttempts(attempts: int) {
    1 <= attempts <= 100
  }
}
