/** The delivery queue as a state machine over its four tables. A step is one row change that a
    transaction commits; a step whose guard fails changes nothing, so every sequence of steps is a
    run, with delayed, duplicated and stale calls among its members. */
module Queue {
  import opened Prelude
  import opened DeliveryModel
  import opened AttemptResults

  /** The tables and the database clock. Attempt rows stay in the order of their insertion. */
  datatype State = State(
    now: Time,
    endpoints: map<Id, Endpoint>,
    events: map<Id, Event>,
    deliveries: map<Id, Delivery>,
    attempts: seq<Attempt>)

  datatype EnqueueParams = EnqueueParams(
    eventId: Id,
    deliveryId: Id,
    endpointId: Id,
    eventType: string,
    payload: string,
    idempotencyKey: string)

  datatype Step =
    | Tick(at: Time)
    | CreateEndpoint(endpointId: Id, timeoutMs: int, maxAttempts: int)
    | DisableEndpoint(endpointId: Id)
    | Enqueue(params: EnqueueParams)
    | Claim(deliveryId: Id, worker: string, token: string, lease: Duration)
    | Recover(deliveryId: Id)
    | Finish(result: AttemptResult)
    | Replay(deliveryId: Id)

  const LEASE_EXPIRED: string := "delivery lease expired"

  /** Empty tables at some moment. */
  function Start(now: Time): State {
    State(now, map[], map[], map[], [])
  }

  // ---------------------------------------------------------------- guards

  predicate Waiting(d: Delivery) {
    d.status == Pending || d.status == Retrying
  }

  /** The endpoint takes deliveries: not disabled, and its circuit is not open. */
  predicate EndpointOpen(e: Endpoint, now: Time) {
    e.disabledAt.None? && (e.circuitOpenUntil.None? || e.circuitOpenUntil.value <= now)
  }

  /** The WHERE clause of the claim query. */
  predicate Candidate(s: State, id: Id) {
    && id in s.deliveries
    && var d := s.deliveries[id];
    && Waiting(d)
    && d.nextAttemptAt <= s.now
    && d.attemptCount < d.maxAttempts
    && d.endpointId in s.endpoints
    && EndpointOpen(s.endpoints[d.endpointId], s.now)
  }

  /** The WHERE clause of the recovery query. A row without locked_at could not be scanned, which
      would roll the transaction back. */
  predicate Expired(s: State, id: Id) {
    && id in s.deliveries
    && var d := s.deliveries[id];
    && d.status == Processing
    && d.lockedAt.Some?
    && d.lockedUntil.Some?
    && d.lockedUntil.value <= s.now
  }

  /** The WHERE clause of the finishing update. */
  predicate HoldsLease(s: State, r: AttemptResult) {
    && r.deliveryId in s.deliveries
    && var d := s.deliveries[r.deliveryId];
    && d.status == Processing
    && d.lockedBy == Some(r.workerId)
    && d.leaseToken == Some(r.leaseToken)
    && d.attemptCount == r.attemptNumber
  }

  /** Some attempt row already has this delivery and number. */
  predicate HasRow(attempts: seq<Attempt>, id: Id, number: int) {
    exists i :: 0 <= i < |attempts| && attempts[i].deliveryId == id && attempts[i].number == number
  }

  predicate SameKey(e: Event, p: EnqueueParams) {
    e.endpointId == p.endpointId && e.idempotencyKey == p.idempotencyKey
  }

  predicate Replayable(s: State, id: Id) {
    && id in s.deliveries
    && var d := s.deliveries[id];
    && d.endpointId in s.endpoints
    && s.endpoints[d.endpointId].disabledAt.None?
    && d.status == Dead
    && d.maxAttempts <= MAX_INT32 - s.endpoints[d.endpointId].maxAttempts
  }

  predicate Enabled(s: State, step: Step) {
    match step
    case Tick(at) => s.now <= at
    case CreateEndpoint(id, timeoutMs, maxAttempts) =>
      id !in s.endpoints && 100 <= timeoutMs <= 30000 && ValidMaxAttempts(maxAttempts)
    case DisableEndpoint(id) => id in s.endpoints
    case Enqueue(p) =>
      && p.endpointId in s.endpoints
      && s.endpoints[p.endpointId].disabledAt.None?
      && (forall e :: e in s.events ==> !SameKey(s.events[e], p))
      && p.eventId !in s.events
      && (forall d :: d in s.deliveries ==> s.deliveries[d].eventId != p.eventId)
      && p.deliveryId !in s.deliveries
    case Claim(id, worker, token, lease) =>
      worker != "" && TrimSpace(worker) == worker && lease >= MILLISECOND && !Blank(token) && Candidate(s, id)
    case Recover(id) => Expired(s, id)
    case Finish(r) => Acceptable(r) && HoldsLease(s, r) && !HasRow(s.attempts, r.deliveryId, r.attemptNumber)
    case Replay(id) => Replayable(s, id)
  }

  // ---------------------------------------------------------------- row changes

  /** The row that a new delivery gets, with the column defaults. */
  function FreshDelivery(eventId: Id, endpointId: Id, maxAttempts: int, now: Time): Delivery {
    Delivery(eventId, endpointId, Pending, 0, maxAttempts, now, None, None, None, None, None, "", None, now, now)
  }

  function Leased(d: Delivery, worker: string, token: string, lease: Duration, now: Time): Delivery {
    d.(status := Processing,
       attemptCount := d.attemptCount + 1,
       lockedBy := Some(worker),
       leaseToken := Some(token),
       lockedAt := Some(now),
       lockedUntil := Some(now + WholeMilliseconds(lease)),
       updatedAt := now)
  }

  function Unlocked(d: Delivery): Delivery {
    d.(lockedBy := None, leaseToken := None, lockedAt := None, lockedUntil := None)
  }

  function Recovered(d: Delivery, now: Time): Delivery {
    var again := d.attemptCount < d.maxAttempts;
    Unlocked(d).(status := if again then Retrying else Dead,
                 nextAttemptAt := if again then now else d.nextAttemptAt,
                 lastError := LEASE_EXPIRED,
                 lastCompletedAt := Some(now),
                 updatedAt := now)
  }

  function RecoveryRow(id: Id, d: Delivery, now: Time): Attempt
    requires d.lockedAt.Some?
  {
    Attempt(id, d.attemptCount, None, "", LEASE_EXPIRED,
            DurationMilliseconds(now - d.lockedAt.value), d.lockedAt.value, now)
  }

  function Finished(d: Delivery, r: AttemptResult, now: Time): Delivery {
    var again := r.decision == Retry && d.attemptCount < d.maxAttempts;
    Unlocked(d).(status := if r.decision == Succeed then Succeeded else if again then Retrying else Dead,
                 nextAttemptAt := if again then r.nextAttemptAt else d.nextAttemptAt,
                 lastStatusCode := r.statusCode,
                 lastError := r.errorMessage,
                 lastCompletedAt := Some(r.completedAt),
                 updatedAt := now)
  }

  function FinishRow(r: AttemptResult): Attempt {
    Attempt(r.deliveryId, r.attemptNumber, r.statusCode, r.responseBody, r.errorMessage,
            DurationMilliseconds(r.duration), r.startedAt, r.completedAt)
  }

  /** The circuit breaker after a reported outcome. */
  function CircuitAfter(e: Endpoint, r: AttemptResult, now: Time): Endpoint {
    match r.circuitOutcome
    case CircuitFailure =>
      e.(consecutiveFailures := e.consecutiveFailures + 1,
         circuitOpenUntil :=
           if e.consecutiveFailures + 1 >= r.circuitThreshold then
             Some(Max(if e.circuitOpenUntil.Some? then e.circuitOpenUntil.value else now,
                      now + WholeMilliseconds(r.circuitCooldown)))
           else e.circuitOpenUntil,
         updatedAt := now)
    case CircuitSuccess =>
      e.(consecutiveFailures := 0, circuitOpenUntil := None, updatedAt := now)
    case _ => e
  }

  function Replayed(d: Delivery, budget: int, now: Time): Delivery {
    d.(status := Pending, maxAttempts := d.maxAttempts + budget, nextAttemptAt := now, updatedAt := now)
  }

  function Disabled(e: Endpoint, now: Time): Endpoint {
    if e.disabledAt.None? then e.(disabledAt := Some(now), updatedAt := now) else e
  }

  /** The state a committed step leaves. */
  function Commit(s: State, step: Step): State
    requires Enabled(s, step)
  {
    match step
    case Tick(at) => s.(now := at)
    case CreateEndpoint(id, timeoutMs, maxAttempts) =>
      s.(endpoints := s.endpoints[id := Endpoint(timeoutMs, maxAttempts, 0, None, None, s.now, s.now)])
    case DisableEndpoint(id) =>
      s.(endpoints := s.endpoints[id := Disabled(s.endpoints[id], s.now)])
    case Enqueue(p) =>
      s.(events := s.events[p.eventId := Event(p.endpointId, p.eventType, p.payload, p.idempotencyKey, s.now)],
         deliveries := s.deliveries[p.deliveryId :=
           FreshDelivery(p.eventId, p.endpointId, s.endpoints[p.endpointId].maxAttempts, s.now)])
    case Claim(id, worker, token, lease) =>
      s.(deliveries := s.deliveries[id := Leased(s.deliveries[id], worker, token, lease, s.now)])
    case Recover(id) =>
      var d := s.deliveries[id];
      s.(deliveries := s.deliveries[id := Recovered(d, s.now)],
         attempts := if HasRow(s.attempts, id, d.attemptCount) then s.attempts
                     else s.attempts + [RecoveryRow(id, d, s.now)])
    case Finish(r) =>
      var d := s.deliveries[r.deliveryId];
      s.(deliveries := s.deliveries[r.deliveryId := Finished(d, r, s.now)],
         attempts := s.attempts + [FinishRow(r)],
         endpoints := if d.endpointId in s.endpoints
                      then s.endpoints[d.endpointId := CircuitAfter(s.endpoints[d.endpointId], r, s.now)]
                      else s.endpoints)
    case Replay(id) =>
      var d := s.deliveries[id];
      s.(deliveries := s.deliveries[id := Replayed(d, s.endpoints[d.endpointId].maxAttempts, s.now)])
  }

  function Apply(s: State, step: Step): State {
    if Enabled(s, step) then Commit(s, step) else s
  }

  /** The delivery whose row a step may change or create. */
  function Target(step: Step): Option<Id> {
    match step
    case Enqueue(p) => Some(p.deliveryId)
    case Claim(id, _, _, _) => Some(id)
    case Recover(id) => Some(id)
    case Finish(r) => Some(r.deliveryId)
    case Replay(id) => Some(id)
    case _ => None
  }

  /** A step leaves every row but its target's alone. */
  lemma OthersUntouched(s: State, step: Step, id: Id)
    requires Target(step) != Some(id)
    ensures id in Apply(s, step).deliveries <==> id in s.deliveries
    ensures id in s.deliveries ==> Apply(s, step).deliveries[id] == s.deliveries[id]
  {}

  lemma ClockMovesForward(s: State, step: Step)
    ensures s.now <= Apply(s, step).now
  {}

  // ---------------------------------------------------------------- runs

  /** The state after a sequence of steps. */
  function Run(s: State, steps: seq<Step>): State {
    if steps == [] then s
    else Apply(Run(s, steps[..|steps| - 1]), steps[|steps| - 1])
  }

  /** The state in which step i of the run is taken. */
  function At(s: State, steps: seq<Step>, i: int): State
    requires 0 <= i <= |steps|
  {
    Run(s, steps[..i])
  }

  /** Step i of the run commits. */
  predicate Commits(s: State, steps: seq<Step>, i: int)
    requires 0 <= i < |steps|
  {
    Enabled(At(s, steps, i), steps[i])
  }

  lemma RunSnoc(s: State, steps: seq<Step>, step: Step)
    ensures Run(s, steps + [step]) == Apply(Run(s, steps), step)
  {}

  lemma RunPrefix(s: State, steps: seq<Step>, i: int)
    requires 0 <= i < |steps|
    ensures Run(s, steps[..i + 1]) == Apply(Run(s, steps[..i]), steps[i])
  {
    assert steps[..i + 1][..i] == steps[..i];
  }

  /** A run may be cut anywhere. */
  lemma {:induction false} RunConcat(s: State, first: seq<Step>, second: seq<Step>)
    ensures Run(s, first + second) == Run(Run(s, first), second)
  {
    if second == [] {
      assert first + second == first;
    } else {
      var n := |second| - 1;
      assert (first + second)[..|first| + n] == first + second[..n];
      RunConcat(s, first, second[..n]);
    }
  }

  /** The run after its step i. */
  lemma RunAfterStep(s: State, steps: seq<Step>, i: int)
    requires 0 <= i < |steps|
    ensures Run(s, steps) == Run(Apply(At(s, steps, i), steps[i]), steps[i + 1..])
  {
    RunPrefix(s, steps, i);
    RunConcat(s, steps[..i + 1], steps[i + 1..]);
    assert steps[..i + 1] + steps[i + 1..] == steps;
  }

  /** The attempt rows of one delivery, in the order of their insertion. */
  function Rows(attempts: seq<Attempt>, id: Id): seq<Attempt> {
    if attempts == [] then []
    else
      var last := attempts[|attempts| - 1];
      var rest := Rows(attempts[..|attempts| - 1], id);
      if last.deliveryId == id then rest + [last] else rest
  }

  lemma RowsSnoc(attempts: seq<Attempt>, row: Attempt, id: Id)
    ensures Rows(attempts + [row], id) == Rows(attempts, id) + if row.deliveryId == id then [row] else []
  {}

  /** The table has a row for a delivery and number exactly when that delivery's log has one. */
  lemma {:induction false} HasRowInLog(attempts: seq<Attempt>, id: Id, number: int)
    ensures HasRow(attempts, id, number)
       <==> exists k :: 0 <= k < |Rows(attempts, id)| && Rows(attempts, id)[k].number == number
  {
    if attempts != [] {
      var n := |attempts| - 1;
      var init, last := attempts[..n], attempts[n];
      HasRowInLog(init, id, number);
      assert attempts == init + [last];
      var rest, rows := Rows(init, id), Rows(attempts, id);
      if last.deliveryId == id {
        assert rows == rest + [last];
        assert rows[|rest|] == last;
        assert forall k :: 0 <= k < |rest| ==> rows[k] == rest[k];
        if HasRow(attempts, id, number) && last.number != number {
          assert HasRow(init, id, number);
        }
        if HasRow(init, id, number) {
          var k :| 0 <= k < |rest| && rest[k].number == number;
          assert rows[k].number == number;
        }
      } else {
        assert rows == rest;
        if HasRow(attempts, id, number) {
          assert HasRow(init, id, number);
        }
      }
    }
  }
}
