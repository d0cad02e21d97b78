/** Claims in order of due time: a delivery that is due is not overtaken without bound. */
module Fairness {
  import opened Prelude
  import opened DeliveryModel
  import opened AttemptResults
  import opened Queue
  import opened QueueInvariant
  import opened Calls
  import opened Fencing

  /** The waiting deliveries that the claim query may prefer to this one. */
  ghost function Ahead(s: State, id: Id): set<Id>
    requires id in s.deliveries
  {
    set x | x in s.deliveries && x != id && Waiting(s.deliveries[x]) && NotAfter(s.deliveries[x], s.deliveries[id])
  }

  /** The step respects the order: a claim finds no row locked by others, so it takes a first
      candidate, and the delivery's endpoint takes deliveries at that moment. */
  ghost predicate Orderly(s: State, step: Step, id: Id) {
    id in s.deliveries && step.Claim? && Enabled(s, step) ==>
      && LegalPick(s, Some(step.deliveryId), {})
      && s.deliveries[id].endpointId in s.endpoints
      && EndpointOpen(s.endpoints[s.deliveries[id].endpointId], s.now)
  }

  ghost predicate OrderlyRun(s: State, steps: seq<Step>, id: Id) {
    forall i :: 0 <= i < |steps| ==> Orderly(At(s, steps, i), steps[i], id)
  }

  /** The number of committed claims. */
  function ClaimCount(s: State, steps: seq<Step>): nat {
    if steps == [] then 0
    else
      var m := |steps| - 1;
      ClaimCount(s, steps[..m]) + if steps[m].Claim? && Enabled(Run(s, steps[..m]), steps[m]) then 1 else 0
  }

  predicate Due(s: State, id: Id) {
    id in s.deliveries && Waiting(s.deliveries[id]) && s.deliveries[id].nextAttemptAt < s.now
  }

  /** The step is a finish that puts its delivery ahead of this one. */
  ghost predicate Joins(s: State, step: Step, id: Id) {
    && Enabled(s, step) && step.Finish?
    && id in s.deliveries && id in Apply(s, step).deliveries
    && step.result.deliveryId in Ahead(Apply(s, step), id)
  }

  /** The number of finishes that put their delivery ahead of this one. */
  ghost function JoinCount(s: State, steps: seq<Step>, id: Id): nat {
    if steps == [] then 0
    else
      var m := |steps| - 1;
      JoinCount(s, steps[..m], id) + if Joins(Run(s, steps[..m]), steps[m], id) then 1 else 0
  }

  /** Exactly when a retry overtakes: it joins those ahead of a due delivery if and only if it is
      scheduled no later, which takes a completion from before the delivery became due. */
  lemma RetryJoinsAheadIff(s: State, r: AttemptResult, id: Id)
    requires Due(s, id) && r.deliveryId != id && Enabled(s, Finish(r))
    requires r.decision == Retry && s.deliveries[r.deliveryId].attemptCount < s.deliveries[r.deliveryId].maxAttempts
    ensures var due, created := s.deliveries[id].nextAttemptAt, s.deliveries[id].createdAt;
            && (Joins(s, Finish(r), id)
                <==> r.nextAttemptAt < due
                     || (r.nextAttemptAt == due && s.deliveries[r.deliveryId].createdAt <= created))
            && (Joins(s, Finish(r), id) ==> r.completedAt < due)
  {}

  /** Recoveries, replays and new events wait, if at all, behind everything already due; so does a
      finish that is scheduled later. */
  lemma TargetQueuesBehind(s: State, step: Step, x: Id, due: Time)
    requires Enabled(s, step) && Target(step) == Some(x) && due < s.now
    requires step.Finish? && step.result.decision == Retry ==> due < step.result.nextAttemptAt
    ensures x in Commit(s, step).deliveries
    ensures var d := Commit(s, step).deliveries[x]; Waiting(d) ==> due < d.nextAttemptAt
  {}

  lemma NewcomersJoin(s: State, step: Step, id: Id)
    requires Due(s, id) && !Grants(s, step, id)
    ensures var s' := Apply(s, step);
            && Due(s', id) && s'.deliveries[id] == s.deliveries[id]
            && Ahead(s', id) <= Ahead(s, id) + if Joins(s, step, id) then {step.result.deliveryId} else {}
  {
    var s' := Apply(s, step);
    ClockMovesForward(s, step);
    if Enabled(s, step) {
      assert Target(step) != Some(id);
      OthersUntouched(s, step, id);
      if Target(step).Some? && !step.Finish? {
        TargetQueuesBehind(s, step, Target(step).value, s.deliveries[id].nextAttemptAt);
      }
      forall x | x in Ahead(s', id) && Target(step) != Some(x)
        ensures x in Ahead(s, id)
      {
        OthersUntouched(s, step, x);
      }
    }
  }

  lemma ClaimTakesFromAhead(s: State, step: Step, id: Id)
    requires DeliveriesInv(s) && Due(s, id) && Orderly(s, step, id)
    requires step.Claim? && Enabled(s, step) && step.deliveryId != id
    ensures step.deliveryId in Ahead(s, id)
    ensures id in Apply(s, step).deliveries && step.deliveryId !in Ahead(Apply(s, step), id)
  {}

  lemma OrderlyPrefix(s: State, steps: seq<Step>, id: Id)
    requires OrderlyRun(s, steps, id) && steps != []
    ensures OrderlyRun(s, steps[..|steps| - 1], id)
    ensures Orderly(Run(s, steps[..|steps| - 1]), steps[|steps| - 1], id)
  {
    var m := |steps| - 1;
    forall i | 0 <= i < m
      ensures Orderly(At(s, steps[..m], i), steps[..m][i], id)
    {
      assert steps[..m][..i] == steps[..i];
      assert Orderly(At(s, steps, i), steps[i], id);
    }
    assert Orderly(At(s, steps, m), steps[m], id);
  }

  lemma StepMovesAhead(s: State, step: Step, id: Id)
    requires DeliveriesInv(s) && Due(s, id) && Orderly(s, step, id) && !Grants(s, step, id)
    ensures Due(Apply(s, step), id)
    ensures |Ahead(Apply(s, step), id)| + (if step.Claim? && Enabled(s, step) then 1 else 0)
         <= |Ahead(s, id)| + (if Joins(s, step, id) then 1 else 0)
  {
    NewcomersJoin(s, step, id);
    var before, after := Ahead(s, id), Ahead(Apply(s, step), id);
    if step.Claim? && Enabled(s, step) {
      ClaimTakesFromAhead(s, step, id);
      NotLarger(after, before - {step.deliveryId});
    } else if Joins(s, step, id) {
      NotLarger(after - {step.result.deliveryId}, before);
    } else {
      NotLarger(after, before);
    }
  }

  lemma {:induction false} OvertakingBounded(s: State, steps: seq<Step>, id: Id)
    requires Inv(s) && Due(s, id) && OrderlyRun(s, steps, id)
    requires Leases(s, steps, id) == []
    ensures Due(Run(s, steps), id)
    ensures |Ahead(Run(s, steps), id)| + ClaimCount(s, steps) <= |Ahead(s, id)| + JoinCount(s, steps, id)
  {
    if steps != [] {
      var m := |steps| - 1;
      OrderlyPrefix(s, steps, id);
      OvertakingBounded(s, steps[..m], id);
      RunKeepsInv(s, steps[..m]);
      StepMovesAhead(Run(s, steps[..m]), steps[m], id);
    }
  }

  /** Bounded overtaking: a delivery past its due time is claimed, if claims go on, before one more
      claim than there are deliveries ahead of it and finishes that put theirs ahead meanwhile.
      Recoveries, replays, new events and every other report change nothing in that count. */
  lemma DueDeliveryIsClaimed(s: State, steps: seq<Step>, id: Id)
    requires Inv(s) && Due(s, id) && OrderlyRun(s, steps, id)
    requires ClaimCount(s, steps) > |Ahead(s, id)| + JoinCount(s, steps, id)
    ensures Leases(s, steps, id) != []
  {
    if Leases(s, steps, id) == [] {
      OvertakingBounded(s, steps, id);
    }
  }

  /** Every committed retry is scheduled after this moment; a completion stamped with the clock of
      its commit always is, once the moment has passed. */
  ghost predicate RetriesLaterThan(s: State, steps: seq<Step>, due: Time) {
    forall i :: 0 <= i < |steps| && Commits(s, steps, i) && steps[i].Finish? && steps[i].result.decision == Retry ==>
      due < steps[i].result.nextAttemptAt
  }

  lemma LaterRetryDoesNotJoin(s: State, step: Step, id: Id)
    requires Due(s, id)
    requires Enabled(s, step) && step.Finish? && step.result.decision == Retry ==>
               s.deliveries[id].nextAttemptAt < step.result.nextAttemptAt
    ensures !Joins(s, step, id)
  {
    if Enabled(s, step) && step.Finish? && step.result.deliveryId != id {
      OthersUntouched(s, step, id);
      TargetQueuesBehind(s, step, step.result.deliveryId, s.deliveries[id].nextAttemptAt);
    }
  }

  lemma {:induction false} NobodyJoins(s: State, steps: seq<Step>, id: Id)
    requires Due(s, id) && RetriesLaterThan(s, steps, s.deliveries[id].nextAttemptAt)
    requires Leases(s, steps, id) == []
    ensures JoinCount(s, steps, id) == 0
    ensures Due(Run(s, steps), id) && Run(s, steps).deliveries[id] == s.deliveries[id]
  {
    if steps != [] {
      var m := |steps| - 1;
      LaterPrefix(s, steps, s.deliveries[id].nextAttemptAt);
      NobodyJoins(s, steps[..m], id);
      LaterRetryDoesNotJoin(Run(s, steps[..m]), steps[m], id);
      NewcomersJoin(Run(s, steps[..m]), steps[m], id);
    }
  }

  lemma LaterPrefix(s: State, steps: seq<Step>, due: Time)
    requires RetriesLaterThan(s, steps, due) && steps != []
    ensures var m := |steps| - 1;
            && RetriesLaterThan(s, steps[..m], due)
            && (Enabled(Run(s, steps[..m]), steps[m]) && steps[m].Finish? && steps[m].result.decision == Retry ==>
                  due < steps[m].result.nextAttemptAt)
  {
    var m := |steps| - 1;
    forall i | 0 <= i < m && Commits(s, steps[..m], i) && steps[i].Finish? && steps[i].result.decision == Retry
      ensures due < steps[i].result.nextAttemptAt
    {
      assert steps[..m][..i] == steps[..i];
      assert Commits(s, steps, i);
    }
    if Enabled(Run(s, steps[..m]), steps[m]) {
      assert Commits(s, steps, m);
    }
  }

  /** When every retry is scheduled after the delivery became due, nothing joins those ahead and the
      bound is their number. */
  lemma DueDeliveryIsClaimedInTurn(s: State, steps: seq<Step>, id: Id)
    requires Inv(s) && Due(s, id) && OrderlyRun(s, steps, id)
    requires RetriesLaterThan(s, steps, s.deliveries[id].nextAttemptAt)
    requires ClaimCount(s, steps) > |Ahead(s, id)|
    ensures Leases(s, steps, id) != []
  {
    if Leases(s, steps, id) == [] {
      NobodyJoins(s, steps, id);
      DueDeliveryIsClaimed(s, steps, id);
    }
  }
}
