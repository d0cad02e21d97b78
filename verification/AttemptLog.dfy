/** The attempt log against the run: each row tells what the step that wrote it knew, and stays. */
module AttemptLog {
  import opened Prelude
  import opened DeliveryModel
  import opened AttemptResults
  import opened Queue
  import opened QueueInvariant
  import opened Fencing

  /** The row repeats what the worker reported, its duration in whole milliseconds. */
  predicate Records(row: Attempt, r: AttemptResult) {
    && row.deliveryId == r.deliveryId && row.number == r.attemptNumber
    && row.statusCode == r.statusCode
    && row.responseBody == r.responseBody
    && row.errorMessage == r.errorMessage
    && row.durationMs == Min(r.duration / 1_000_000, 0x7fff_ffff)
    && row.startedAt == r.startedAt && row.completedAt == r.completedAt
  }

  /** The row of an attempt that ran from the grant of its lease until this moment and reported
      nothing. */
  predicate TellsExpiry(row: Attempt, id: Id, n: int, granted: Time, now: Time) {
    && row.deliveryId == id && row.number == n
    && row.statusCode == None && row.responseBody == ""
    && row.errorMessage == "delivery lease expired"
    && row.durationMs == Min((now - granted) / 1_000_000, 0x7fff_ffff)
    && row.startedAt == granted && row.completedAt == now
  }

  lemma FinishRowRecords(r: AttemptResult)
    requires Acceptable(r)
    ensures Records(FinishRow(r), r)
  {
    DurationColumn(r.duration);
  }

  lemma RecoveryRowTells(id: Id, d: Delivery, now: Time)
    requires d.lockedAt.Some? && d.lockedAt.value <= now
    ensures TellsExpiry(RecoveryRow(id, d, now), id, d.attemptCount, d.lockedAt.value, now)
  {
    DurationColumn(now - d.lockedAt.value);
  }

  lemma UntargetedRows(s: State, step: Step, id: Id)
    requires Target(step) != Some(id)
    ensures Rows(Apply(s, step).attempts, id) == Rows(s.attempts, id)
  {}

  lemma FinishAppends(s: State, r: AttemptResult)
    requires DeliveriesInv(s) && Enabled(s, Finish(r))
    ensures var rows := Rows(s.attempts, r.deliveryId);
            && |rows| == r.attemptNumber - 1
            && Rows(Apply(s, Finish(r)).attempts, r.deliveryId) == rows + [FinishRow(r)]
  {
    RowsSnoc(s.attempts, FinishRow(r), r.deliveryId);
    assert DeliveryInv(s.deliveries[r.deliveryId], Rows(s.attempts, r.deliveryId), s.now);
  }

  lemma RecoverAppends(s: State, id: Id)
    requires DeliveriesInv(s) && Enabled(s, Recover(id))
    ensures var t := Commit(s, Recover(id));
            && t.deliveries[id] == Recovered(s.deliveries[id], s.now)
            && Rows(t.attempts, id) == Rows(s.attempts, id) + [RecoveryRow(id, s.deliveries[id], s.now)]
  {
    NextNumberIsFree(s, id);
    RowsSnoc(s.attempts, RecoveryRow(id, s.deliveries[id], s.now), id);
  }

  /** No step takes a row of the log away or changes one. */
  lemma StepKeepsRows(s: State, step: Step, id: Id)
    requires DeliveriesInv(s)
    ensures Rows(s.attempts, id) <= Rows(Apply(s, step).attempts, id)
  {
    if Target(step) != Some(id) {
      UntargetedRows(s, step, id);
    } else if Enabled(s, step) && step.Finish? {
      RowsSnoc(s.attempts, FinishRow(step.result), id);
    } else if Enabled(s, step) && step.Recover? {
      RecoverAppends(s, id);
    }
  }

  lemma {:induction false} RunKeepsRows(s: State, steps: seq<Step>, id: Id)
    requires Inv(s)
    ensures Rows(s.attempts, id) <= Rows(Run(s, steps).attempts, id)
  {
    if steps != [] {
      var m := |steps| - 1;
      RunKeepsRows(s, steps[..m], id);
      RunKeepsInv(s, steps[..m]);
      StepKeepsRows(Run(s, steps[..m]), steps[m], id);
    }
  }

  /** What one step has put into the log is there at the end of the run. */
  lemma RowsAfterStep(now: Time, steps: seq<Step>, i: int, id: Id)
    requires 0 <= i < |steps|
    ensures Rows(Apply(At(Start(now), steps, i), steps[i]).attempts, id) <= Rows(Run(Start(now), steps).attempts, id)
  {
    ReachableInv(now, steps[..i]);
    StepKeepsInv(At(Start(now), steps, i), steps[i]);
    RunKeepsRows(Apply(At(Start(now), steps, i), steps[i]), steps[i + 1..], id);
    RunAfterStep(Start(now), steps, i);
  }

  /** After any run, row n of a delivery's log repeats, field by field, the report that finished
      attempt n, however long ago. */
  lemma FinishIsInTheLog(now: Time, steps: seq<Step>, i: int, r: AttemptResult)
    requires 0 <= i < |steps| && steps[i] == Finish(r) && Commits(Start(now), steps, i)
    ensures var rows := Rows(Run(Start(now), steps).attempts, r.deliveryId);
            1 <= r.attemptNumber <= |rows| && Records(rows[r.attemptNumber - 1], r)
  {
    var s := At(Start(now), steps, i);
    ReachableInv(now, steps[..i]);
    FinishAppends(s, r);
    FinishRowRecords(r);
    RowsAfterStep(now, steps, i, r.deliveryId);
  }

  lemma RecoveryAfterGrant(s: State, id: Id, leases: seq<Lease>)
    requires DeliveriesInv(s) && Enabled(s, Recover(id)) && LeasesMatch(s, id, leases)
    ensures var d := s.deliveries[id]; var n := d.attemptCount;
            && |leases| == n >= 1
            && |Rows(s.attempts, id)| == n - 1
            && TellsExpiry(RecoveryRow(id, d, s.now), id, n, leases[n - 1].at, s.now)
  {
    var d := s.deliveries[id];
    assert DeliveryInv(d, Rows(s.attempts, id), s.now);
    RecoveryRowTells(id, d, s.now);
  }

  /** After any run, row n of an attempt that was recovered begins with the moment its own lease was
      granted and ends with the moment of the recovery. */
  lemma ExpiryIsInTheLog(now: Time, steps: seq<Step>, i: int, id: Id)
    requires 0 <= i < |steps| && steps[i] == Recover(id) && Commits(Start(now), steps, i)
    ensures var s := At(Start(now), steps, i);
            var n, rows, leases := s.deliveries[id].attemptCount, Rows(Run(Start(now), steps).attempts, id),
                                   Leases(Start(now), steps, id);
            && 1 <= n <= |rows| && n <= |leases|
            && TellsExpiry(rows[n - 1], id, n, leases[n - 1].at, s.now)
  {
    var s := At(Start(now), steps, i);
    ReachableInv(now, steps[..i]);
    LeasesMatchRun(now, steps[..i], id);
    RecoveryAfterGrant(s, id, Leases(Start(now), steps[..i], id));
    LeasesPrefix(Start(now), steps, id, i);
    RecoverAppends(s, id);
    RowsAfterStep(now, steps, i, id);
  }
}
