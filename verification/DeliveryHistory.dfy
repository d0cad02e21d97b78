/** What a delivery's columns say about its past: replays and budget, the cause of death, and the
    attempt that the last status code comes from. */
module DeliveryHistory {
  import opened Prelude
  import opened DeliveryModel
  import opened AttemptResults
  import opened Queue
  import opened QueueInvariant
  import opened AttemptLog
  import opened Scenario

  // ---------------------------------------------------------------- the retry budget

  /** The number of committed replays of a delivery. */
  function Replays(start: State, steps: seq<Step>, id: Id): nat {
    if steps == [] then 0
    else
      var m := |steps| - 1;
      var here := steps[m] == Replay(id) && Enabled(Run(start, steps[..m]), steps[m]);
      Replays(start, steps[..m], id) + if here then 1 else 0
  }

  /** An endpoint, once created, keeps its limits, and its disabling moment once it has one. */
  lemma EndpointIsStable(s: State, step: Step, e: Id)
    requires e in s.endpoints
    ensures var s' := Apply(s, step);
            && e in s'.endpoints
            && s'.endpoints[e].maxAttempts == s.endpoints[e].maxAttempts
            && s'.endpoints[e].timeoutMs == s.endpoints[e].timeoutMs
            && (s.endpoints[e].disabledAt.Some? ==> s'.endpoints[e].disabledAt == s.endpoints[e].disabledAt)
  {}

  /** The attempt limit is the endpoint's limit once for the event and once for each replay. */
  ghost predicate BudgetIs(s: State, id: Id, replays: int) {
    if id !in s.deliveries then replays == 0
    else
      && s.deliveries[id].endpointId in s.endpoints
      && s.deliveries[id].maxAttempts == s.endpoints[s.deliveries[id].endpointId].maxAttempts * (1 + replays)
  }

  lemma StepKeepsBudget(s: State, step: Step, id: Id, replays: int)
    requires BudgetIs(s, id, replays)
    ensures BudgetIs(Apply(s, step), id, replays + if step == Replay(id) && Enabled(s, step) then 1 else 0)
  {
    if id in s.deliveries {
      var e := s.deliveries[id].endpointId;
      EndpointIsStable(s, step, e);
      if Target(step) != Some(id) {
        OthersUntouched(s, step, id);
      } else if step == Replay(id) && Enabled(s, step) {
        var m := s.endpoints[e].maxAttempts;
        assert m * (1 + replays) + m == m * (1 + (replays + 1));
      }
    } else if Target(step) != Some(id) {
      OthersUntouched(s, step, id);
    }
  }

  lemma {:induction false} BudgetIsRun(now: Time, steps: seq<Step>, id: Id)
    ensures BudgetIs(Run(Start(now), steps), id, Replays(Start(now), steps, id))
  {
    if steps != [] {
      var m := |steps| - 1;
      BudgetIsRun(now, steps[..m], id);
      StepKeepsBudget(Run(Start(now), steps[..m]), steps[m], id, Replays(Start(now), steps[..m], id));
    }
  }

  lemma BudgetBounds(s: State, id: Id)
    requires DeliveriesInv(s) && id in s.deliveries
    ensures BudgetInv(s.deliveries[id])
  {}

  /** The budget law: after any run the attempt limit is the endpoint's limit once for the event and
      once for each replay, it fits in 32 bits, and it bounds the attempts made. */
  lemma BudgetLaw(now: Time, steps: seq<Step>, id: Id)
    requires id in Run(Start(now), steps).deliveries
    ensures BudgetIs(Run(Start(now), steps), id, Replays(Start(now), steps, id))
    ensures BudgetInv(Run(Start(now), steps).deliveries[id])
  {
    BudgetIsRun(now, steps, id);
    ReachableInv(now, steps);
    BudgetBounds(Run(Start(now), steps), id);
  }

  function Remaining(d: Delivery): int {
    d.maxAttempts - d.attemptCount
  }

  /** A replay adds the endpoint's budget to whatever was left. It leaves exactly a fresh budget,
      as documented, if and only if the delivery died with none left. */
  lemma ReplayGrantsFreshBudgetIffExhausted(s: State, id: Id)
    requires Enabled(s, Replay(id))
    ensures var d, d' := s.deliveries[id], Apply(s, Replay(id)).deliveries[id];
            var budget := s.endpoints[d.endpointId].maxAttempts;
            && Remaining(d') == budget + Remaining(d)
            && (Remaining(d') == budget <==> d.attemptCount == d.maxAttempts)
  {}

  const NOT_FOUND: AttemptResult :=
    AttemptResult("d", "w", "t", 1, Discard, Some(404), "", "", 1, 1, 2, 0, CircuitNone, 0, 0)

  const LEASED: Delivery := Leased(FRESH, "w", "t", 45 * SECOND, 1)
  const DISCARDED: Delivery := Finished(LEASED, NOT_FOUND, 1)

  lemma ThenDiscarded()
    ensures Apply(OneDelivery(1, LEASED, []), Finish(NOT_FOUND)) == OneDelivery(1, DISCARDED, [FinishRow(NOT_FOUND)])
  {
    NamesAreVisible();
    Reported(1, LEASED, [], NOT_FOUND);
  }

  lemma ThenReplayed()
    ensures var s := OneDelivery(1, DISCARDED, [FinishRow(NOT_FOUND)]);
            Enabled(s, Replay("d")) && Remaining(Apply(s, Replay("d")).deliveries["d"]) == 15
  {}

  /** A delivery discarded at its first attempt: its replay has 15 attempts left, not 8. */
  lemma ReplayAfterDiscard(steps: seq<Step>)
    requires steps == [CREATE, Enqueue(PARAMS), Claim("d", "w", "t", 45 * SECOND), Finish(NOT_FOUND)]
    ensures var s := Run(Start(1), steps);
            && Enabled(s, Replay("d"))
            && Remaining(Apply(s, Replay("d")).deliveries["d"]) == 15
  {
    RunPrefix(Start(1), steps, 0);
    RunPrefix(Start(1), steps, 1);
    RunPrefix(Start(1), steps, 2);
    RunPrefix(Start(1), steps, 3);
    assert steps[..0] == [] && steps[..4] == steps;
    Stored();
    NamesAreVisible();
    Claimed(1, FRESH, [], "w", "t", 45 * SECOND);
    ThenDiscarded();
    ThenReplayed();
  }

  // ---------------------------------------------------------------- the cause of death

  /** The last committed finish or recovery of a delivery. */
  function LastClose(start: State, steps: seq<Step>, id: Id): Option<Step> {
    if steps == [] then None
    else
      var m := |steps| - 1;
      var closes := (steps[m].Finish? || steps[m].Recover?) && Target(steps[m]) == Some(id);
      if closes && Enabled(Run(start, steps[..m]), steps[m]) then Some(steps[m])
      else LastClose(start, steps[..m], id)
  }

  predicate DeadForCause(s: State, id: Id, close: Option<Step>) {
    id in s.deliveries && s.deliveries[id].status == Dead ==>
      && close.Some?
      && (|| s.deliveries[id].attemptCount == s.deliveries[id].maxAttempts
          || (close.value.Finish? && close.value.result.decision == Discard))
  }

  lemma StepKeepsCause(s: State, step: Step, id: Id, close: Option<Step>)
    requires Inv(s) && DeadForCause(s, id, close)
    ensures var closes := (step.Finish? || step.Recover?) && Target(step) == Some(id) && Enabled(s, step);
            DeadForCause(Apply(s, step), id, if closes then Some(step) else close)
  {
    if Target(step) != Some(id) {
      OthersUntouched(s, step, id);
    } else if Enabled(s, step) {
      TargetDies(s, step, id);
    }
  }

  lemma TargetDies(s: State, step: Step, id: Id)
    requires DeliveriesInv(s) && Enabled(s, step) && Target(step) == Some(id)
    ensures id in Commit(s, step).deliveries
    ensures var d' := Commit(s, step).deliveries[id];
            d'.status == Dead ==>
              || (step.Finish? && step.result.decision == Discard)
              || ((step.Finish? || step.Recover?) && d'.attemptCount == d'.maxAttempts)
  {}

  /** A dead delivery has used its whole budget, or its last outcome was a discard. */
  lemma {:induction false} DeadOnlyForCause(now: Time, steps: seq<Step>, id: Id)
    ensures DeadForCause(Run(Start(now), steps), id, LastClose(Start(now), steps, id))
  {
    if steps != [] {
      var m := |steps| - 1;
      DeadOnlyForCause(now, steps[..m], id);
      ReachableInv(now, steps[..m]);
      StepKeepsCause(Run(Start(now), steps[..m]), steps[m], id, LastClose(Start(now), steps[..m], id));
    }
  }

  // ---------------------------------------------------------------- the retry schedule

  /** A delivery that waits for a retry was last closed by a recovery, or by a finish whose scheduled
      time it still carries. */
  predicate Scheduled(s: State, id: Id, close: Option<Step>) {
    id in s.deliveries && s.deliveries[id].status == Retrying ==>
      && close.Some?
      && (close.value.Finish? ==>
            && s.deliveries[id].nextAttemptAt == close.value.result.nextAttemptAt
            && close.value.result.completedAt < close.value.result.nextAttemptAt)
  }

  lemma FinishSchedules(s: State, r: AttemptResult)
    requires Enabled(s, Finish(r))
    ensures r.deliveryId in Commit(s, Finish(r)).deliveries
    ensures Scheduled(Commit(s, Finish(r)), r.deliveryId, Some(Finish(r)))
  {}

  lemma TargetScheduled(s: State, step: Step, id: Id)
    requires Enabled(s, step) && Target(step) == Some(id)
    ensures id in Commit(s, step).deliveries
    ensures Commit(s, step).deliveries[id].status == Retrying ==>
              (step.Finish? || step.Recover?) && Scheduled(Commit(s, step), id, Some(step))
  {
    if step.Finish? {
      FinishSchedules(s, step.result);
    }
  }

  lemma StepKeepsSchedule(s: State, step: Step, id: Id, close: Option<Step>)
    requires Scheduled(s, id, close)
    ensures var closes := (step.Finish? || step.Recover?) && Target(step) == Some(id) && Enabled(s, step);
            Scheduled(Apply(s, step), id, if closes then Some(step) else close)
  {
    if Target(step) != Some(id) {
      OthersUntouched(s, step, id);
    } else if Enabled(s, step) {
      TargetScheduled(s, step, id);
    }
  }

  lemma {:induction false} ScheduledRun(now: Time, steps: seq<Step>, id: Id)
    ensures Scheduled(Run(Start(now), steps), id, LastClose(Start(now), steps, id))
  {
    if steps != [] {
      var m := |steps| - 1;
      ScheduledRun(now, steps[..m], id);
      StepKeepsSchedule(Run(Start(now), steps[..m]), steps[m], id, LastClose(Start(now), steps[..m], id));
    }
  }

  /** No retry comes before its time: after any run, a retrying delivery whose last outcome was
      reported with a scheduled time can be claimed only from that time on, which is later than the
      completion that asked for it. */
  lemma NoEarlyRetry(now: Time, steps: seq<Step>, claim: Step, r: AttemptResult)
    requires claim.Claim? && claim.deliveryId == r.deliveryId && Enabled(Run(Start(now), steps), claim)
    requires Run(Start(now), steps).deliveries[r.deliveryId].status == Retrying
    requires LastClose(Start(now), steps, r.deliveryId) == Some(Finish(r))
    ensures r.completedAt < r.nextAttemptAt <= Run(Start(now), steps).now
  {
    ScheduledRun(now, steps, r.deliveryId);
  }

  // ---------------------------------------------------------------- the last status code

  /** The last committed finish of a delivery. */
  function LastFinish(start: State, steps: seq<Step>, id: Id): Option<AttemptResult> {
    if steps == [] then None
    else
      var m := |steps| - 1;
      if steps[m].Finish? && Target(steps[m]) == Some(id) && Enabled(Run(start, steps[..m]), steps[m])
      then Some(steps[m].result)
      else LastFinish(start, steps[..m], id)
  }

  predicate ExpiryRow(row: Attempt) {
    row.statusCode == None && row.errorMessage == LEASE_EXPIRED
  }

  /** The status code column is that of the last finished attempt, whose row is in the log; every
      later row was written by recovery. */
  ghost predicate CodeFromLastFinish(d: Delivery, rows: seq<Attempt>, last: Option<AttemptResult>) {
    match last
    case None =>
      d.lastStatusCode == None && forall k :: 0 <= k < |rows| ==> ExpiryRow(rows[k])
    case Some(r) =>
      && 1 <= r.attemptNumber <= |rows|
      && d.lastStatusCode == rows[r.attemptNumber - 1].statusCode
      && Records(rows[r.attemptNumber - 1], r)
      && (forall k :: r.attemptNumber <= k < |rows| ==> ExpiryRow(rows[k]))
  }

  ghost predicate CodeInv(s: State, id: Id, last: Option<AttemptResult>) {
    if id !in s.deliveries then last == None
    else CodeFromLastFinish(s.deliveries[id], Rows(s.attempts, id), last)
  }

  lemma FinishKeepsCode(s: State, r: AttemptResult)
    requires Inv(s) && Enabled(s, Finish(r))
    ensures CodeInv(Commit(s, Finish(r)), r.deliveryId, Some(r))
  {
    RowsSnoc(s.attempts, FinishRow(r), r.deliveryId);
    FinishRowRecords(r);
    assert DeliveryInv(s.deliveries[r.deliveryId], Rows(s.attempts, r.deliveryId), s.now);
  }

  lemma RecoverKeepsCode(d: Delivery, rows: seq<Attempt>, last: Option<AttemptResult>, id: Id, now: Time)
    requires CodeFromLastFinish(d, rows, last) && d.lockedAt.Some?
    ensures CodeFromLastFinish(Recovered(d, now), rows + [RecoveryRow(id, d, now)], last)
  {}

  lemma OpeningKeepsCode(s: State, step: Step, id: Id, last: Option<AttemptResult>)
    requires AttemptsInv(s) && CodeInv(s, id, last) && Enabled(s, step) && Target(step) == Some(id)
    requires step.Enqueue? || step.Claim? || step.Replay?
    ensures CodeInv(Commit(s, step), id, last)
  {
    if step.Enqueue? {
      NoRows(s.attempts, id);
    }
  }

  lemma StepKeepsCode(s: State, step: Step, id: Id, last: Option<AttemptResult>)
    requires Inv(s) && CodeInv(s, id, last)
    ensures var finishes := step.Finish? && Target(step) == Some(id) && Enabled(s, step);
            CodeInv(Apply(s, step), id, if finishes then Some(step.result) else last)
  {
    if Target(step) != Some(id) {
      OthersUntouched(s, step, id);
      UntargetedRows(s, step, id);
    } else if Enabled(s, step) {
      if step.Finish? {
        FinishKeepsCode(s, step.result);
      } else if step.Recover? {
        RecoverAppends(s, id);
        RecoverKeepsCode(s.deliveries[id], Rows(s.attempts, id), last, id, s.now);
      } else {
        OpeningKeepsCode(s, step, id, last);
      }
    }
  }

  /** The last status code is never that of a recovery: it is the code of the highest-numbered row
      that a finish wrote, and no code before the first finish. */
  lemma {:induction false} StatusCodeComesFromLastFinish(now: Time, steps: seq<Step>, id: Id)
    ensures CodeInv(Run(Start(now), steps), id, LastFinish(Start(now), steps, id))
  {
    if steps != [] {
      var m := |steps| - 1;
      StatusCodeComesFromLastFinish(now, steps[..m], id);
      ReachableInv(now, steps[..m]);
      StepKeepsCode(Run(Start(now), steps[..m]), steps[m], id, LastFinish(Start(now), steps[..m], id));
    }
  }
}
