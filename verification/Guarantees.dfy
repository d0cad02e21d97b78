/** What the invariant means for a reader of the tables, in every reachable state: one outcome per
    attempt, the schema as a theorem, legal status moves, no stranded delivery, final success. */
module Guarantees {
  import opened Prelude
  import opened DeliveryModel
  import opened AttemptResults
  import opened Queue
  import opened QueueInvariant

  // ---------------------------------------------------------------- the attempt log

  /** A row of the table stands in its delivery's log at the place given by the rows before it. */
  lemma {:induction false} RowPosition(attempts: seq<Attempt>, i: int)
    requires 0 <= i < |attempts|
    ensures var id := attempts[i].deliveryId; var k := |Rows(attempts[..i], id)|;
            k < |Rows(attempts, id)| && Rows(attempts, id)[k] == attempts[i]
  {
    var n := |attempts| - 1;
    assert attempts == attempts[..n] + [attempts[n]];
    if i < n {
      RowPosition(attempts[..n], i);
      assert attempts[..n][..i] == attempts[..i];
    }
  }

  /** UNIQUE (delivery_id, attempt_number). */
  ghost predicate NumbersUnique(attempts: seq<Attempt>) {
    forall i, j | 0 <= i < |attempts| && 0 <= j < |attempts|
                  && attempts[i].deliveryId == attempts[j].deliveryId
                  && attempts[i].number == attempts[j].number :: i == j
  }

  lemma LogNumbersAreUnique(s: State)
    requires Inv(s)
    ensures NumbersUnique(s.attempts)
  {
    var a := s.attempts;
    forall i, j | 0 <= i < j < |a| && a[i].deliveryId == a[j].deliveryId
      ensures a[i].number != a[j].number
    {
      RowPosition(a, i);
      RowPosition(a, j);
      RowPosition(a[..j], i);
      assert a[..j][..i] == a[..i];
      assert DeliveryInv(s.deliveries[a[i].deliveryId], Rows(a, a[i].deliveryId), s.now);
    }
  }

  /** The rows of a delivery are numbered 1, 2, 3, ... up to its attempt count, or one less while an
      attempt is under way, and each number occurs once in the table. */
  ghost predicate OneOutcomePerAttempt(s: State, id: Id)
    requires id in s.deliveries
  {
    var d, rows := s.deliveries[id], Rows(s.attempts, id);
    && |rows| == (if d.status == Processing then d.attemptCount - 1 else d.attemptCount)
    && (forall k :: 0 <= k < |rows| ==> rows[k].number == k + 1)
    && (forall n :: HasRow(s.attempts, id, n) <==> 1 <= n <= |rows|)
    && NumbersUnique(s.attempts)
  }

  lemma LogIsExact(s: State, id: Id)
    requires Inv(s) && id in s.deliveries
    ensures OneOutcomePerAttempt(s, id)
  {
    LogNumbersAreUnique(s);
    var rows := Rows(s.attempts, id);
    assert DeliveryInv(s.deliveries[id], rows, s.now);
    forall n
      ensures HasRow(s.attempts, id, n) <==> 1 <= n <= |rows|
    {
      HasRowInLog(s.attempts, id, n);
      if 1 <= n <= |rows| {
        assert rows[n - 1].number == n;
      }
    }
  }

  /** Exactly one outcome per attempt, after any run with its delayed, repeated and stale calls. */
  lemma ExactlyOneOutcomePerAttempt(now: Time, steps: seq<Step>, id: Id)
    requires id in Run(Start(now), steps).deliveries
    ensures OneOutcomePerAttempt(Run(Start(now), steps), id)
  {
    ReachableInv(now, steps);
    LogIsExact(Run(Start(now), steps), id);
  }

  lemma NoCollision(s: State)
    requires DeliveriesInv(s)
    ensures forall r :: Enabled(s, Finish(r)) <==> Acceptable(r) && HoldsLease(s, r)
    ensures forall id | Expired(s, id) ::
              Apply(s, Recover(id)).attempts == s.attempts + [RecoveryRow(id, s.deliveries[id], s.now)]
  {
    forall r | HoldsLease(s, r)
      ensures !HasRow(s.attempts, r.deliveryId, r.attemptNumber)
    {
      NextNumberIsFree(s, r.deliveryId);
    }
    forall id | Expired(s, id)
      ensures Apply(s, Recover(id)).attempts == s.attempts + [RecoveryRow(id, s.deliveries[id], s.now)]
    {
      NextNumberIsFree(s, id);
    }
  }

  /** No insertion into the attempt table ever meets an existing row: recovery's ON CONFLICT clause
      never fires, and a finish is stopped only by validation or by a lost lease. */
  lemma InsertionsNeverCollide(now: Time, steps: seq<Step>, s: State)
    requires s == Run(Start(now), steps)
    ensures forall r :: Enabled(s, Finish(r)) <==> Acceptable(r) && HoldsLease(s, r)
    ensures forall id | Expired(s, id) ::
              Apply(s, Recover(id)).attempts == s.attempts + [RecoveryRow(id, s.deliveries[id], s.now)]
  {
    ReachableInv(now, steps);
    NoCollision(s);
  }

  // ---------------------------------------------------------------- the schema

  predicate EndpointSchema(e: Endpoint) {
    100 <= e.timeoutMs <= 30000 && 1 <= e.maxAttempts <= 100 && e.consecutiveFailures >= 0
  }

  predicate DeliverySchema(d: Delivery) {
    && d.attemptCount >= 0
    && d.maxAttempts >= 1
    && (d.lastStatusCode.None? || 100 <= d.lastStatusCode.value <= 599)
    && (d.lockedBy.None? == d.leaseToken.None?)
    && (d.lockedBy.None? == d.lockedAt.None?)
    && (d.lockedBy.None? == d.lockedUntil.None?)
    && ((d.status == Processing) == d.lockedBy.Some?)
    && (d.lockedUntil.Some? && d.lockedAt.Some? ==> d.lockedUntil.value > d.lockedAt.value)
    && d.attemptCount <= d.maxAttempts
  }

  /** The table constraints of the migration. */
  ghost predicate Schema(s: State) {
    && (forall e :: e in s.endpoints ==> EndpointSchema(s.endpoints[e]))
    && (forall e :: e in s.events ==> s.events[e].endpointId in s.endpoints)
    && KeysUnique(s.events)
    && (forall id :: id in s.deliveries ==>
          && s.deliveries[id].eventId in s.events
          && s.deliveries[id].endpointId in s.endpoints
          && DeliverySchema(s.deliveries[id]))
    && EventsUnique(s.deliveries)
    && (forall i :: 0 <= i < |s.attempts| ==> s.attempts[i].deliveryId in s.deliveries && RowCheck(s.attempts[i]))
    && NumbersUnique(s.attempts)
  }

  /** The schema never has to refuse anything: the guards of the steps already imply it. */
  lemma SchemaIsATheorem(now: Time, steps: seq<Step>)
    ensures Schema(Run(Start(now), steps))
  {
    var s := Run(Start(now), steps);
    ReachableInv(now, steps);
    LogNumbersAreUnique(s);
    forall i | 0 <= i < |s.attempts|
      ensures RowCheck(s.attempts[i])
    {
      RowPosition(s.attempts, i);
      var id := s.attempts[i].deliveryId;
      assert DeliveryInv(s.deliveries[id], Rows(s.attempts, id), s.now);
    }
    forall id | id in s.deliveries
      ensures DeliverySchema(s.deliveries[id])
    {
      assert DeliveryInv(s.deliveries[id], Rows(s.attempts, id), s.now);
    }
  }

  // ---------------------------------------------------------------- status moves

  /** Whatever the step and the state, a stored delivery stays stored and keeps its event, endpoint
      and creation time; its status moves only along the status graph, and only a replay leaves a
      final status. */
  lemma StatusMovesAreLegal(s: State, step: Step, id: Id)
    requires id in s.deliveries
    ensures id in Apply(s, step).deliveries
    ensures var d, d' := s.deliveries[id], Apply(s, step).deliveries[id];
            && (d'.status != d.status ==> d.status.CanTransition(d'.status))
            && (d'.status != d.status && d.status.Final() ==> step == Replay(id))
            && d'.eventId == d.eventId && d'.endpointId == d.endpointId && d'.createdAt == d.createdAt
            && d.attemptCount <= d'.attemptCount
  {}

  /** No delivery is stranded: one that waits always has budget left, so the claim query's test of
      the attempt count excludes nothing. */
  lemma NoStrandedDelivery(now: Time, steps: seq<Step>, id: Id)
    requires id in Run(Start(now), steps).deliveries
    ensures var s := Run(Start(now), steps); var d := s.deliveries[id];
            && (d.status == Pending || d.status == Retrying ==> d.attemptCount < d.maxAttempts)
            && d.endpointId in s.endpoints
            && var e := s.endpoints[d.endpointId];
            && (Candidate(s, id) <==>
                  && (d.status == Pending || d.status == Retrying)
                  && d.nextAttemptAt <= s.now
                  && e.disabledAt.None?
                  && (e.circuitOpenUntil.None? || e.circuitOpenUntil.value <= s.now))
  {
    ReachableInv(now, steps);
    var s := Run(Start(now), steps);
    assert DeliveryInv(s.deliveries[id], Rows(s.attempts, id), s.now);
  }

  // ---------------------------------------------------------------- success

  ghost predicate HasSuccess(rows: seq<Attempt>) {
    exists k :: 0 <= k < |rows| && Successful(rows[k])
  }

  lemma SuccessInLog(d: Delivery, rows: seq<Attempt>, now: Time)
    requires DeliveryInv(d, rows, now)
    ensures d.status == Succeeded <==> HasSuccess(rows)
    ensures forall k :: 0 <= k < |rows| && Successful(rows[k]) ==>
              rows[k].number == d.attemptCount && k == |rows| - 1
  {}

  /** A 2xx row exists exactly for succeeded deliveries, and it is the row of the last attempt. */
  lemma SuccessIsTheLastRow(now: Time, steps: seq<Step>, id: Id)
    requires id in Run(Start(now), steps).deliveries
    ensures var s := Run(Start(now), steps);
            var d, rows := s.deliveries[id], Rows(s.attempts, id);
            && (d.status == Succeeded <==> HasSuccess(rows))
            && (forall k :: 0 <= k < |rows| && Successful(rows[k]) ==>
                  rows[k].number == d.attemptCount && k == |rows| - 1)
  {
    ReachableInv(now, steps);
    var s := Run(Start(now), steps);
    SuccessInLog(s.deliveries[id], Rows(s.attempts, id), s.now);
  }

  lemma StepLeavesSucceeded(s: State, step: Step, id: Id)
    requires id in s.deliveries && s.deliveries[id].status == Succeeded
    ensures var s' := Apply(s, step);
            id in s'.deliveries && s'.deliveries[id] == s.deliveries[id] && Rows(s'.attempts, id) == Rows(s.attempts, id)
  {
    if Enabled(s, step) {
      if step.Finish? {
        RowsSnoc(s.attempts, FinishRow(step.result), id);
      } else if step.Recover? {
        RowsSnoc(s.attempts, RecoveryRow(step.deliveryId, s.deliveries[step.deliveryId], s.now), id);
      }
    }
  }

  /** Success is absorbing: no later step changes any column of the delivery or any of its rows. */
  lemma {:induction false} SuccessIsAbsorbing(s: State, steps: seq<Step>, id: Id)
    requires id in s.deliveries && s.deliveries[id].status == Succeeded
    ensures var s' := Run(s, steps);
            id in s'.deliveries && s'.deliveries[id] == s.deliveries[id] && Rows(s'.attempts, id) == Rows(s.attempts, id)
  {
    if steps != [] {
      SuccessIsAbsorbing(s, steps[..|steps| - 1], id);
      StepLeavesSucceeded(Run(s, steps[..|steps| - 1]), steps[|steps| - 1], id);
    }
  }

  /** The copied columns repeat the last row of the log. */
  lemma SummaryColumnsAgreeWithLog(now: Time, steps: seq<Step>, id: Id)
    requires id in Run(Start(now), steps).deliveries
    ensures var s := Run(Start(now), steps);
            var d, rows := s.deliveries[id], Rows(s.attempts, id);
            if rows == [] then d.lastError == "" && d.lastCompletedAt == None
            else
              var last := rows[|rows| - 1];
              d.lastError == last.errorMessage && d.lastCompletedAt == Some(last.completedAt)
  {
    ReachableInv(now, steps);
    var s := Run(Start(now), steps);
    assert DeliveryInv(s.deliveries[id], Rows(s.attempts, id), s.now);
  }
}
