/** Leases over whole runs. The n-th lease of a delivery is the one its n-th claim handed out; it is
    closed by the finish or the recovery that records attempt n. Tokens are never assumed distinct. */
module Fencing {
  import opened Prelude
  import opened DeliveryModel
  import opened AttemptResults
  import opened Queue
  import opened QueueInvariant
  import Calls

  datatype Lease = Lease(worker: string, token: string, at: Time, until: Time)

  predicate Grants(s: State, step: Step, id: Id) {
    Enabled(s, step) && step.Claim? && step.deliveryId == id
  }

  function Granted(s: State, step: Step): Lease
    requires step.Claim?
  {
    Lease(step.worker, step.token, s.now, s.now + WholeMilliseconds(step.lease))
  }

  /** The leases handed out for a delivery, in order. */
  function Leases(start: State, steps: seq<Step>, id: Id): seq<Lease> {
    if steps == [] then []
    else
      var n := |steps| - 1;
      var s := Run(start, steps[..n]);
      Leases(start, steps[..n], id) + if Grants(s, steps[n], id) then [Granted(s, steps[n])] else []
  }

  predicate Finishes(s: State, step: Step, id: Id, n: int) {
    Enabled(s, step) && step.Finish? && step.result.deliveryId == id && step.result.attemptNumber == n
  }

  predicate Recovers(s: State, step: Step, id: Id, n: int) {
    Enabled(s, step) && step.Recover? && step.deliveryId == id && s.deliveries[id].attemptCount == n
  }

  predicate Closes(s: State, step: Step, id: Id, n: int) {
    Finishes(s, step, id, n) || Recovers(s, step, id, n)
  }

  /** Some step of the run finishes attempt n of the delivery. */
  predicate FinishedIn(start: State, steps: seq<Step>, id: Id, n: int) {
    && steps != []
    && var m := |steps| - 1;
    && (FinishedIn(start, steps[..m], id, n) || Finishes(Run(start, steps[..m]), steps[m], id, n))
  }

  /** Some step of the run finishes or recovers attempt n of the delivery. */
  predicate ClosedIn(start: State, steps: seq<Step>, id: Id, n: int) {
    && steps != []
    && var m := |steps| - 1;
    && (ClosedIn(start, steps[..m], id, n) || Closes(Run(start, steps[..m]), steps[m], id, n))
  }

  /** What is closed in a prefix of the run stays closed. */
  lemma {:induction false} ClosedStays(start: State, steps: seq<Step>, id: Id, n: int, i: int)
    requires 0 <= i <= |steps| && ClosedIn(start, steps[..i], id, n)
    ensures ClosedIn(start, steps, id, n)
  {
    if i == |steps| {
      assert steps[..i] == steps;
    } else {
      assert steps[..|steps| - 1][..i] == steps[..i];
      ClosedStays(start, steps[..|steps| - 1], id, n, i);
    }
  }

  /** A closing step anywhere in the run closes the attempt in it. */
  lemma ClosedByStep(start: State, steps: seq<Step>, id: Id, n: int, i: int)
    requires 0 <= i < |steps| && Closes(At(start, steps, i), steps[i], id, n)
    ensures ClosedIn(start, steps, id, n)
  {
    assert steps[..i + 1][..i] == steps[..i];
    assert ClosedIn(start, steps[..i + 1], id, n);
    ClosedStays(start, steps, id, n, i + 1);
  }

  // ---------------------------------------------------------------- state against history

  /** The claims a delivery has seen, as far as its row shows them. */
  predicate LeasesMatch(s: State, id: Id, leases: seq<Lease>) {
    if id !in s.deliveries then leases == []
    else
      var d := s.deliveries[id];
      && |leases| == d.attemptCount
      && (d.status == Processing ==>
            && |leases| > 0
            && var last := leases[|leases| - 1];
            && d.lockedBy == Some(last.worker)
            && d.leaseToken == Some(last.token)
            && d.lockedAt == Some(last.at)
            && d.lockedUntil == Some(last.until))
  }

  lemma StepMatchesLeases(s: State, step: Step, id: Id, leases: seq<Lease>)
    requires LeasesMatch(s, id, leases)
    ensures LeasesMatch(Apply(s, step), id, leases + if Grants(s, step, id) then [Granted(s, step)] else [])
  {}

  /** The attempt count is the number of claims, and a lease under way is the last one granted. */
  lemma {:induction false} LeasesMatchRun(now: Time, steps: seq<Step>, id: Id)
    ensures LeasesMatch(Run(Start(now), steps), id, Leases(Start(now), steps, id))
  {
    if steps != [] {
      var n := |steps| - 1;
      LeasesMatchRun(now, steps[..n], id);
      StepMatchesLeases(Run(Start(now), steps[..n]), steps[n], id, Leases(Start(now), steps[..n], id));
    }
  }

  /** Earlier leases stay first in the list. */
  lemma {:induction false} LeasesPrefix(start: State, steps: seq<Step>, id: Id, k: int)
    requires 0 <= k <= |steps|
    ensures Leases(start, steps[..k], id) <= Leases(start, steps, id)
  {
    if k == |steps| {
      assert steps[..k] == steps;
    } else {
      assert steps[..|steps| - 1][..k] == steps[..k];
      LeasesPrefix(start, steps[..|steps| - 1], id, k);
    }
  }

  /** The number of recorded outcomes of a delivery, none before it exists. */
  function Outcomes(s: State, id: Id): int {
    if id in s.deliveries then Recorded(s.deliveries[id]) else 0
  }

  /** A step closes at most the attempt after the recorded ones, and then that one is recorded. */
  lemma StepClosesNext(s: State, step: Step, id: Id, n: int)
    ensures Closes(s, step, id, n) ==> n == Outcomes(s, id) + 1
    ensures Outcomes(Apply(s, step), id)
         == Outcomes(s, id) + if Closes(s, step, id, Outcomes(s, id) + 1) then 1 else 0
  {
    if Target(step) != Some(id) {
      OthersUntouched(s, step, id);
    } else if Enabled(s, step) {
      TargetOutcomes(s, step, id);
    }
  }

  lemma TargetOutcomes(s: State, step: Step, id: Id)
    requires Enabled(s, step) && Target(step) == Some(id)
    ensures id in Commit(s, step).deliveries
    ensures step.Finish? || step.Recover? ==>
              Recorded(Commit(s, step).deliveries[id]) == Outcomes(s, id) + 1 == s.deliveries[id].attemptCount
    ensures !(step.Finish? || step.Recover?) ==>
              Recorded(Commit(s, step).deliveries[id]) == Outcomes(s, id)
  {}

  /** An attempt is closed by some step of the run exactly when its number is among the recorded. */
  lemma {:induction false} ClosedIffRecorded(now: Time, steps: seq<Step>, id: Id, n: int)
    ensures 0 <= Outcomes(Run(Start(now), steps), id)
    ensures ClosedIn(Start(now), steps, id, n) <==> 1 <= n <= Outcomes(Run(Start(now), steps), id)
  {
    if steps != [] {
      var m := |steps| - 1;
      var s := Run(Start(now), steps[..m]);
      ClosedIffRecorded(now, steps[..m], id, n);
      StepClosesNext(s, steps[m], id, n);
    }
  }

  /** Each attempt is closed at most once, by a finish or by a recovery but never by both. */
  lemma AttemptsCloseOnce(now: Time, steps: seq<Step>, id: Id, n: int, i: int, j: int)
    requires 0 <= i < |steps| && 0 <= j < |steps|
    requires Closes(At(Start(now), steps, i), steps[i], id, n)
    requires Closes(At(Start(now), steps, j), steps[j], id, n)
    ensures i == j
  {
    if i < j {
      ClosesLast(now, steps, id, n, i, j);
    } else if j < i {
      ClosesLast(now, steps, id, n, j, i);
    }
  }

  lemma ClosesLast(now: Time, steps: seq<Step>, id: Id, n: int, i: int, j: int)
    requires 0 <= i < j < |steps|
    requires Closes(At(Start(now), steps, i), steps[i], id, n)
    ensures !Closes(At(Start(now), steps, j), steps[j], id, n)
  {
    var before := steps[..j];
    assert before[..i] == steps[..i];
    ClosedByStep(Start(now), before, id, n, i);
    ClosedIffRecorded(now, before, id, n);
    StepClosesNext(Run(Start(now), before), steps[j], id, n);
  }

  lemma HeldIffLastLease(s: State, r: AttemptResult, leases: seq<Lease>)
    requires DeliveriesInv(s) && LeasesMatch(s, r.deliveryId, leases) && 1 <= r.attemptNumber
    ensures var n := r.attemptNumber;
            HoldsLease(s, r)
            <==> && n <= |leases|
                 && r.workerId == leases[n - 1].worker && r.leaseToken == leases[n - 1].token
                 && Outcomes(s, r.deliveryId) < n
  {
    if r.deliveryId in s.deliveries {
      assert LockInv(s.deliveries[r.deliveryId], s.now);
    }
  }

  /** The leases decide a finish: the report names a lease that was granted, repeats its worker and
      token, and its attempt has no outcome yet. */
  lemma LeasesDecide(s: State, r: AttemptResult, leases: seq<Lease>)
    requires DeliveriesInv(s) && LeasesMatch(s, r.deliveryId, leases) && Acceptable(r)
    ensures var n := r.attemptNumber;
            Enabled(s, Finish(r))
            <==> && 1 <= n <= |leases|
                 && r.workerId == leases[n - 1].worker && r.leaseToken == leases[n - 1].token
                 && Outcomes(s, r.deliveryId) < n
  {
    HeldIffLastLease(s, r, leases);
    if HoldsLease(s, r) {
      NextNumberIsFree(s, r.deliveryId);
    }
  }

  /** Fencing, exactly. After any run, an acceptable report is recorded if and only if its number is
      that of a claim, it carries the worker and the token of that very claim, and no step has
      finished or recovered the attempt. Every other report loses its lease and changes nothing.
      Tokens may repeat. */
  lemma FinishIsRecordedIffLeaseIsOpen(now: Time, steps: seq<Step>, r: AttemptResult)
    requires Acceptable(r)
    ensures var s, leases, n := Run(Start(now), steps), Leases(Start(now), steps, r.deliveryId), r.attemptNumber;
            var (t, answer) := Calls.FinishAttempt(s, r);
            && (answer.Ok? <==> && 1 <= n <= |leases|
                                && r.workerId == leases[n - 1].worker && r.leaseToken == leases[n - 1].token
                                && !ClosedIn(Start(now), steps, r.deliveryId, n))
            && (answer.Err? ==> answer.error == Calls.LeaseLost && t == s)
  {
    var s := Run(Start(now), steps);
    LeasesMatchRun(now, steps, r.deliveryId);
    ClosedIffRecorded(now, steps, r.deliveryId, r.attemptNumber);
    ReachableInv(now, steps);
    LeasesDecide(s, r, Leases(Start(now), steps, r.deliveryId));
    Calls.FinishIsAStep(s, r);
  }

  /** For a finish that carries what its claim returned, the attempt number fences on its own: it
      commits exactly while that attempt is under way, although tokens may repeat. */
  lemma NumberFencesAlone(now: Time, steps: seq<Step>, r: AttemptResult)
    requires Acceptable(r)
    requires 1 <= r.attemptNumber <= |Leases(Start(now), steps, r.deliveryId)|
    requires var lease := Leases(Start(now), steps, r.deliveryId)[r.attemptNumber - 1];
             r.workerId == lease.worker && r.leaseToken == lease.token
    ensures var s := Run(Start(now), steps);
            && r.deliveryId in s.deliveries
            && var d := s.deliveries[r.deliveryId];
            && (Enabled(s, Finish(r)) <==> !ClosedIn(Start(now), steps, r.deliveryId, r.attemptNumber))
            && (Enabled(s, Finish(r)) <==> d.status == Processing && d.attemptCount == r.attemptNumber)
  {
    var id, n := r.deliveryId, r.attemptNumber;
    var s := Run(Start(now), steps);
    LeasesMatchRun(now, steps, id);
    ClosedIffRecorded(now, steps, id, n);
    ReachableInv(now, steps);
    FinishByNumber(s, r, Leases(Start(now), steps, id));
  }

  lemma FinishByNumber(s: State, r: AttemptResult, leases: seq<Lease>)
    requires DeliveriesInv(s) && LeasesMatch(s, r.deliveryId, leases)
    requires Acceptable(r) && 1 <= r.attemptNumber <= |leases|
    requires r.workerId == leases[r.attemptNumber - 1].worker && r.leaseToken == leases[r.attemptNumber - 1].token
    ensures r.deliveryId in s.deliveries
    ensures var d := s.deliveries[r.deliveryId];
            Enabled(s, Finish(r)) <==> d.status == Processing && d.attemptCount == r.attemptNumber
    ensures Enabled(s, Finish(r)) <==> r.attemptNumber > Outcomes(s, r.deliveryId)
  {
    LeasesDecide(s, r, leases);
  }

  /** A step that finishes or recovers an attempt sets the recorded count past it for good. */
  lemma {:induction false} OutcomesGrow(s: State, steps: seq<Step>, id: Id)
    ensures Outcomes(s, id) <= Outcomes(Run(s, steps), id)
  {
    if steps != [] {
      var m := |steps| - 1;
      OutcomesGrow(s, steps[..m], id);
      StepClosesNext(Run(s, steps[..m]), steps[m], id, 0);
    }
  }
}
