/** Budget as a conserved quantity: every attempt granted pays for exactly two steps of work, its
    claim and its outcome. Without new grants the work of any run is bounded. */
module Workload {
  import opened Prelude
  import opened DeliveryModel
  import opened Queue
  import opened QueueInvariant
  import opened DeliveryHistory

  /** The steps a delivery can still pay for: two for each attempt left, one for an open lease. */
  function Weight(d: Delivery): int {
    2 * Remaining(d) + if d.status == Processing then 1 else 0
  }

  ghost function AnyKey(m: map<Id, Delivery>): Id
    requires m != map[]
  {
    assert exists k :: k in m by {
      assert m.Keys != {};
    }
    var k :| k in m; k
  }

  ghost function Total(m: map<Id, Delivery>): int
    decreases |m|
  {
    if m == map[] then 0
    else
      var k := AnyKey(m);
      assert |m - {k}| < |m| by { assert (m - {k}).Keys == m.Keys - {k}; }
      Weight(m[k]) + Total(m - {k})
  }

  /** The total does not depend on the order of summation. */
  lemma {:induction false} TotalAt(m: map<Id, Delivery>, k: Id)
    requires k in m
    ensures Total(m) == Weight(m[k]) + Total(m - {k})
    decreases |m|
  {
    var k0 := AnyKey(m);
    if k != k0 {
      assert (m - {k0}).Keys == m.Keys - {k0} && (m - {k}).Keys == m.Keys - {k};
      TotalAt(m - {k0}, k);
      TotalAt(m - {k}, k0);
      assert m - {k0} - {k} == m - {k} - {k0};
    }
  }

  lemma TotalUpdate(m: map<Id, Delivery>, k: Id, d: Delivery)
    ensures Total(m[k := d]) == Total(m) + Weight(d) - if k in m then Weight(m[k]) else 0
  {
    TotalAt(m[k := d], k);
    if k in m {
      TotalAt(m, k);
      assert m[k := d] - {k} == m - {k};
    } else {
      assert m[k := d] - {k} == m;
    }
  }

  lemma {:induction false} TotalNonNegative(m: map<Id, Delivery>)
    requires forall k :: k in m ==> Weight(m[k]) >= 0
    ensures Total(m) >= 0
    decreases |m|
  {
    if m != map[] {
      var k := AnyKey(m);
      assert (m - {k}).Keys == m.Keys - {k};
      TotalNonNegative(m - {k});
    }
  }

  predicate IsWork(step: Step) {
    step.Claim? || step.Finish? || step.Recover?
  }

  /** The committed claims, finishes and recoveries of a run. */
  function Work(s: State, steps: seq<Step>): nat {
    if steps == [] then 0
    else
      var m := |steps| - 1;
      Work(s, steps[..m]) + if IsWork(steps[m]) && Enabled(Run(s, steps[..m]), steps[m]) then 1 else 0
  }

  /** The attempts a step grants. */
  function Grant(s: State, step: Step): int {
    if !Enabled(s, step) then 0
    else if step.Enqueue? then s.endpoints[step.params.endpointId].maxAttempts
    else if step.Replay? then s.endpoints[s.deliveries[step.deliveryId].endpointId].maxAttempts
    else 0
  }

  function GrantTotal(s: State, steps: seq<Step>): int {
    if steps == [] then 0
    else
      var m := |steps| - 1;
      GrantTotal(s, steps[..m]) + Grant(Run(s, steps[..m]), steps[m])
  }

  /** The row of the target of a committed step. */
  lemma TargetRow(s: State, step: Step, id: Id)
    requires Enabled(s, step) && Target(step) == Some(id)
    ensures id in Commit(s, step).deliveries
    ensures Commit(s, step).deliveries == s.deliveries[id := Commit(s, step).deliveries[id]]
  {}

  lemma TargetWeight(s: State, step: Step, id: Id)
    requires Enabled(s, step) && Target(step) == Some(id)
    ensures id in Commit(s, step).deliveries
    ensures Weight(Commit(s, step).deliveries[id]) + (if IsWork(step) then 1 else 0)
         == (if id in s.deliveries then Weight(s.deliveries[id]) else 0) + 2 * Grant(s, step)
  {}

  lemma StepAccount(s: State, step: Step)
    ensures Total(Apply(s, step).deliveries) + (if IsWork(step) && Enabled(s, step) then 1 else 0)
         == Total(s.deliveries) + 2 * Grant(s, step)
  {
    if Enabled(s, step) && Target(step).Some? {
      var id := Target(step).value;
      TargetRow(s, step, id);
      TargetWeight(s, step, id);
      TotalUpdate(s.deliveries, id, Commit(s, step).deliveries[id]);
    }
  }

  /** Conservation: what is left plus the work done is what there was plus what was granted. */
  lemma {:induction false} BudgetIsConserved(s: State, steps: seq<Step>)
    ensures Total(Run(s, steps).deliveries) + Work(s, steps) == Total(s.deliveries) + 2 * GrantTotal(s, steps)
  {
    if steps != [] {
      var m := |steps| - 1;
      BudgetIsConserved(s, steps[..m]);
      StepAccount(Run(s, steps[..m]), steps[m]);
    }
  }

  lemma InvTotal(s: State)
    requires DeliveriesInv(s)
    ensures Total(s.deliveries) >= 0
  {
    forall k | k in s.deliveries
      ensures Weight(s.deliveries[k]) >= 0
    {
      assert DeliveryInv(s.deliveries[k], Rows(s.attempts, k), s.now);
    }
    TotalNonNegative(s.deliveries);
  }

  lemma {:induction false} NoGrants(s: State, steps: seq<Step>)
    requires forall i :: 0 <= i < |steps| ==> !steps[i].Enqueue? && !steps[i].Replay?
    ensures GrantTotal(s, steps) == 0
  {
    if steps != [] {
      NoGrants(s, steps[..|steps| - 1]);
    }
  }

  /** Termination: without new events and replays, no run commits more claims, finishes and
      recoveries than the deliveries can pay for when it begins. */
  lemma WorkIsBounded(s: State, steps: seq<Step>)
    requires Inv(s)
    requires forall i :: 0 <= i < |steps| ==> !steps[i].Enqueue? && !steps[i].Replay?
    ensures Work(s, steps) <= Total(s.deliveries)
  {
    BudgetIsConserved(s, steps);
    NoGrants(s, steps);
    RunKeepsInv(s, steps);
    InvTotal(Run(s, steps));
  }
}
