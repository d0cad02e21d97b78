/** What every run of the queue keeps: locks, budgets and an attempt log with exactly one outcome
    per attempt. The schema's CHECK, UNIQUE and REFERENCES clauses follow
    (migrations/001_init.up.sql). */
module QueueInvariant {
  import opened Prelude
  import opened DeliveryModel
  import opened AttemptResults
  import opened Queue

  // ---------------------------------------------------------------- one delivery

  /** The number of attempts that have an outcome: all but the one under way. */
  function Recorded(d: Delivery): int {
    if d.status == Processing then d.attemptCount - 1 else d.attemptCount
  }

  predicate LockInv(d: Delivery, now: Time) {
    && (d.status == Processing <==> d.lockedBy.Some?)
    && (d.status == Processing <==> d.leaseToken.Some?)
    && (d.status == Processing <==> d.lockedAt.Some?)
    && (d.status == Processing <==> d.lockedUntil.Some?)
    && (d.status == Processing ==> d.lockedAt.value < d.lockedUntil.value && d.lockedAt.value <= now)
  }

  predicate BudgetInv(d: Delivery) {
    && 0 <= d.attemptCount <= d.maxAttempts <= MAX_INT32
    && (Waiting(d) ==> d.attemptCount < d.maxAttempts)
    && (!Waiting(d) ==> 1 <= d.attemptCount)
  }

  /** The CHECK clauses of delivery_attempts. */
  predicate RowCheck(row: Attempt) {
    && row.number > 0
    && (row.statusCode.None? || 100 <= row.statusCode.value <= 599)
    && row.durationMs >= 0
    && row.startedAt <= row.completedAt
    && (row.statusCode.Some? || row.errorMessage != "")
  }

  predicate Successful(row: Attempt) {
    row.statusCode.Some? && 200 <= row.statusCode.value < 300
  }

  ghost predicate LogInv(d: Delivery, rows: seq<Attempt>) {
    && |rows| == Recorded(d)
    && (forall k :: 0 <= k < |rows| ==> rows[k].number == k + 1 && RowCheck(rows[k]))
  }

  /** Only the last attempt of a succeeded delivery has a 2xx status. */
  ghost predicate SuccessInv(d: Delivery, rows: seq<Attempt>) {
    forall k :: 0 <= k < |rows| ==> (Successful(rows[k]) <==> d.status == Succeeded && k == |rows| - 1)
  }

  /** The columns copied from the log agree with it. */
  predicate SummaryInv(d: Delivery, rows: seq<Attempt>) {
    && d.lastError == (if rows == [] then "" else rows[|rows| - 1].errorMessage)
    && d.lastCompletedAt == (if rows == [] then None else Some(rows[|rows| - 1].completedAt))
    && (d.lastStatusCode.None? || 100 <= d.lastStatusCode.value <= 599)
  }

  ghost predicate DeliveryInv(d: Delivery, rows: seq<Attempt>, now: Time) {
    LockInv(d, now) && BudgetInv(d) && LogInv(d, rows) && SuccessInv(d, rows) && SummaryInv(d, rows)
  }

  lemma FreshKeeps(eventId: Id, endpointId: Id, maxAttempts: int, now: Time)
    requires ValidMaxAttempts(maxAttempts)
    ensures DeliveryInv(FreshDelivery(eventId, endpointId, maxAttempts, now), [], now)
  {}

  lemma LeasedKeeps(d: Delivery, rows: seq<Attempt>, worker: string, token: string, lease: Duration, now: Time)
    requires DeliveryInv(d, rows, now) && Waiting(d) && lease >= MILLISECOND
    ensures DeliveryInv(Leased(d, worker, token, lease, now), rows, now)
  {}

  lemma RecoveredKeeps(id: Id, d: Delivery, rows: seq<Attempt>, now: Time)
    requires DeliveryInv(d, rows, now) && d.status == Processing && d.lockedUntil.value <= now
    ensures DeliveryInv(Recovered(d, now), rows + [RecoveryRow(id, d, now)], now)
  {}

  lemma FinishedKeeps(d: Delivery, rows: seq<Attempt>, r: AttemptResult, now: Time)
    requires DeliveryInv(d, rows, now) && d.status == Processing
    requires Acceptable(r) && r.attemptNumber == d.attemptCount
    ensures DeliveryInv(Finished(d, r, now), rows + [FinishRow(r)], now)
  {
    DurationColumn(r.duration);
    var row := FinishRow(r);
    assert RowCheck(row);
    assert Successful(row) <==> r.decision == Succeed;
  }

  lemma ReplayedKeeps(d: Delivery, rows: seq<Attempt>, budget: int, now: Time)
    requires DeliveryInv(d, rows, now) && d.status == Dead
    requires 1 <= budget && d.maxAttempts <= MAX_INT32 - budget
    ensures DeliveryInv(Replayed(d, budget, now), rows, now)
  {}

  // ---------------------------------------------------------------- the tables

  predicate EndpointInv(e: Endpoint) {
    100 <= e.timeoutMs <= 30000 && ValidMaxAttempts(e.maxAttempts) && 0 <= e.consecutiveFailures
  }

  ghost predicate EndpointsInv(s: State) {
    forall e :: e in s.endpoints ==> EndpointInv(s.endpoints[e])
  }

  ghost predicate DeliveriesInv(s: State) {
    forall id :: id in s.deliveries ==>
      && s.deliveries[id].endpointId in s.endpoints
      && DeliveryInv(s.deliveries[id], Rows(s.attempts, id), s.now)
  }

  ghost predicate AttemptsInv(s: State) {
    forall i :: 0 <= i < |s.attempts| ==> s.attempts[i].deliveryId in s.deliveries
  }

  /** UNIQUE (endpoint_id, idempotency_key). */
  ghost predicate KeysUnique(events: map<Id, Event>) {
    forall e, f | e in events && f in events && events[e].endpointId == events[f].endpointId
                  && events[e].idempotencyKey == events[f].idempotencyKey :: e == f
  }

  /** UNIQUE (event_id). */
  ghost predicate EventsUnique(deliveries: map<Id, Delivery>) {
    forall a, b | a in deliveries && b in deliveries && deliveries[a].eventId == deliveries[b].eventId :: a == b
  }

  ghost predicate HasDelivery(deliveries: map<Id, Delivery>, e: Id) {
    exists id :: id in deliveries && deliveries[id].eventId == e
  }

  ghost predicate Linked(s: State) {
    && (forall e :: e in s.events ==> s.events[e].endpointId in s.endpoints)
    && (forall id :: id in s.deliveries ==>
          && s.deliveries[id].eventId in s.events
          && s.events[s.deliveries[id].eventId].endpointId == s.deliveries[id].endpointId)
  }

  /** Events and deliveries are in bijection, agree on the endpoint, and no key is stored twice. */
  ghost predicate IngestInv(s: State) {
    && Linked(s)
    && KeysUnique(s.events)
    && EventsUnique(s.deliveries)
    && (forall e :: e in s.events ==> HasDelivery(s.deliveries, e))
  }

  ghost predicate Inv(s: State) {
    EndpointsInv(s) && DeliveriesInv(s) && AttemptsInv(s) && IngestInv(s)
  }

  /** A delivery without rows has an empty log. */
  lemma {:induction false} NoRows(attempts: seq<Attempt>, id: Id)
    requires forall i :: 0 <= i < |attempts| ==> attempts[i].deliveryId != id
    ensures Rows(attempts, id) == []
  {
    if attempts != [] {
      NoRows(attempts[..|attempts| - 1], id);
    }
  }

  /** Under the invariant the next number is never in the log: neither insertion can collide. */
  lemma NextNumberIsFree(s: State, id: Id)
    requires DeliveriesInv(s) && id in s.deliveries && s.deliveries[id].status == Processing
    ensures !HasRow(s.attempts, id, s.deliveries[id].attemptCount)
  {
    HasRowInLog(s.attempts, id, s.deliveries[id].attemptCount);
  }

  // ---------------------------------------------------------------- preservation, part by part

  lemma EndpointsKept(s: State, step: Step)
    requires EndpointsInv(s) && Enabled(s, step)
    ensures EndpointsInv(Commit(s, step))
  {}

  lemma AttemptsKept(s: State, step: Step)
    requires AttemptsInv(s) && Enabled(s, step)
    ensures AttemptsInv(Commit(s, step))
  {}

  lemma TickKeepsDeliveries(s: State, step: Step)
    requires Inv(s) && Enabled(s, step) && step.Tick?
    ensures DeliveriesInv(Commit(s, step))
  {}

  lemma EndpointStepsKeepDeliveries(s: State, step: Step)
    requires Inv(s) && Enabled(s, step) && (step.CreateEndpoint? || step.DisableEndpoint?)
    ensures DeliveriesInv(Commit(s, step))
  {}

  lemma EnqueueKeepsDeliveries(s: State, step: Step)
    requires Inv(s) && Enabled(s, step) && step.Enqueue?
    ensures DeliveriesInv(Commit(s, step))
  {
    var p := step.params;
    NoRows(s.attempts, p.deliveryId);
    FreshKeeps(p.eventId, p.endpointId, s.endpoints[p.endpointId].maxAttempts, s.now);
  }

  lemma ClaimKeepsDeliveries(s: State, step: Step)
    requires Inv(s) && Enabled(s, step) && step.Claim?
    ensures DeliveriesInv(Commit(s, step))
  {
    var id := step.deliveryId;
    LeasedKeeps(s.deliveries[id], Rows(s.attempts, id), step.worker, step.token, step.lease, s.now);
  }

  lemma RecoverKeepsDeliveries(s: State, step: Step)
    requires Inv(s) && Enabled(s, step) && step.Recover?
    ensures DeliveriesInv(Commit(s, step))
  {
    var id := step.deliveryId;
    var d := s.deliveries[id];
    var s' := Commit(s, step);
    NextNumberIsFree(s, id);
    var row := RecoveryRow(id, d, s.now);
    forall x | x in s'.deliveries
      ensures s'.deliveries[x].endpointId in s'.endpoints
      ensures DeliveryInv(s'.deliveries[x], Rows(s'.attempts, x), s'.now)
    {
      RowsSnoc(s.attempts, row, x);
      if x == id {
        RecoveredKeeps(id, d, Rows(s.attempts, id), s.now);
      } else {
        assert Rows(s'.attempts, x) == Rows(s.attempts, x);
      }
    }
  }

  lemma FinishKeepsDeliveries(s: State, step: Step)
    requires Inv(s) && Enabled(s, step) && step.Finish?
    ensures DeliveriesInv(Commit(s, step))
  {
    var r := step.result;
    var s' := Commit(s, step);
    forall x | x in s'.deliveries
      ensures s'.deliveries[x].endpointId in s'.endpoints
      ensures DeliveryInv(s'.deliveries[x], Rows(s'.attempts, x), s'.now)
    {
      RowsSnoc(s.attempts, FinishRow(r), x);
      if x == r.deliveryId {
        FinishedKeeps(s.deliveries[x], Rows(s.attempts, x), r, s.now);
      } else {
        assert Rows(s'.attempts, x) == Rows(s.attempts, x);
      }
    }
  }

  lemma ReplayKeepsDeliveries(s: State, step: Step)
    requires Inv(s) && Enabled(s, step) && step.Replay?
    ensures DeliveriesInv(Commit(s, step))
  {
    var id := step.deliveryId;
    var d := s.deliveries[id];
    ReplayedKeeps(d, Rows(s.attempts, id), s.endpoints[d.endpointId].maxAttempts, s.now);
  }

  lemma DeliveriesKept(s: State, step: Step)
    requires Inv(s) && Enabled(s, step)
    ensures DeliveriesInv(Commit(s, step))
  {
    match step
    case Tick(_) => TickKeepsDeliveries(s, step);
    case CreateEndpoint(_, _, _) => EndpointStepsKeepDeliveries(s, step);
    case DisableEndpoint(_) => EndpointStepsKeepDeliveries(s, step);
    case Enqueue(_) => EnqueueKeepsDeliveries(s, step);
    case Claim(_, _, _, _) => ClaimKeepsDeliveries(s, step);
    case Recover(_) => RecoverKeepsDeliveries(s, step);
    case Finish(_) => FinishKeepsDeliveries(s, step);
    case Replay(_) => ReplayKeepsDeliveries(s, step);
  }

  /** Every step but Enqueue leaves the events, the delivery keys and what links them alone. */
  predicate SameLinks(s: State, s': State) {
    && s'.events == s.events
    && s'.deliveries.Keys == s.deliveries.Keys
    && s.endpoints.Keys <= s'.endpoints.Keys
    && (forall id :: id in s.deliveries ==>
          && s'.deliveries[id].eventId == s.deliveries[id].eventId
          && s'.deliveries[id].endpointId == s.deliveries[id].endpointId)
  }

  lemma OnlyEnqueueLinks(s: State, step: Step)
    requires Enabled(s, step) && !step.Enqueue?
    ensures SameLinks(s, Commit(s, step))
  {}

  lemma SameLinksKeepIngest(s: State, s': State)
    requires IngestInv(s) && SameLinks(s, s')
    ensures IngestInv(s')
  {}

  lemma EnqueueKeepsLinks(s: State, step: Step)
    requires IngestInv(s) && Enabled(s, step) && step.Enqueue?
    ensures Linked(Commit(s, step))
  {}

  lemma EnqueueKeepsUniqueness(s: State, step: Step)
    requires IngestInv(s) && Enabled(s, step) && step.Enqueue?
    ensures KeysUnique(Commit(s, step).events)
    ensures EventsUnique(Commit(s, step).deliveries)
  {}

  lemma EnqueueKeepsCover(s: State, step: Step)
    requires IngestInv(s) && Enabled(s, step) && step.Enqueue?
    ensures forall e :: e in Commit(s, step).events ==> HasDelivery(Commit(s, step).deliveries, e)
  {
    var p := step.params;
    var s' := Commit(s, step);
    forall e | e in s'.events
      ensures HasDelivery(s'.deliveries, e)
    {
      if e == p.eventId {
        assert s'.deliveries[p.deliveryId].eventId == e;
      } else {
        var id :| id in s.deliveries && s.deliveries[id].eventId == e;
        assert s'.deliveries[id].eventId == e;
      }
    }
  }

  lemma IngestKept(s: State, step: Step)
    requires IngestInv(s) && Enabled(s, step)
    ensures IngestInv(Commit(s, step))
  {
    if step.Enqueue? {
      EnqueueKeepsLinks(s, step);
      EnqueueKeepsUniqueness(s, step);
      EnqueueKeepsCover(s, step);
    } else {
      OnlyEnqueueLinks(s, step);
      SameLinksKeepIngest(s, Commit(s, step));
    }
  }

  /** Every step keeps the invariant. */
  lemma StepKeepsInv(s: State, step: Step)
    requires Inv(s)
    ensures Inv(Apply(s, step))
  {
    if Enabled(s, step) {
      EndpointsKept(s, step);
      DeliveriesKept(s, step);
      AttemptsKept(s, step);
      IngestKept(s, step);
    }
  }

  /** Every run keeps the invariant, whatever steps it tries and in whatever order. */
  lemma {:induction false} RunKeepsInv(s: State, steps: seq<Step>)
    requires Inv(s)
    ensures Inv(Run(s, steps))
  {
    if steps != [] {
      RunKeepsInv(s, steps[..|steps| - 1]);
      StepKeepsInv(Run(s, steps[..|steps| - 1]), steps[|steps| - 1]);
    }
  }

  lemma StartInv(now: Time)
    ensures Inv(Start(now))
  {}

  lemma ReachableInv(now: Time, steps: seq<Step>)
    ensures Inv(Run(Start(now), steps))
  {
    StartInv(now);
    RunKeepsInv(Start(now), steps);
  }
}
