/** A disabled endpoint winds down: nothing new starts, and what is under way is all that can still
    be recorded. */
module Quiescence {
  import opened Prelude
  import opened DeliveryModel
  import opened Queue
  import opened QueueInvariant
  import opened DeliveryHistory

  predicate IsDisabled(s: State, e: Id) {
    e in s.endpoints && s.endpoints[e].disabledAt.Some?
  }

  ghost function DeliveriesOf(s: State, e: Id): set<Id> {
    set id | id in s.deliveries && s.deliveries[id].endpointId == e
  }

  ghost function UnderWay(s: State, e: Id): set<Id> {
    set id | id in s.deliveries && s.deliveries[id].endpointId == e && s.deliveries[id].status == Processing
  }

  /** The number of attempt rows of a set of deliveries. */
  ghost function RowCount(attempts: seq<Attempt>, ids: set<Id>): nat {
    if attempts == [] then 0
    else
      var n := |attempts| - 1;
      RowCount(attempts[..n], ids) + if attempts[n].deliveryId in ids then 1 else 0
  }

  lemma RowCountSnoc(attempts: seq<Attempt>, row: Attempt, ids: set<Id>)
    ensures RowCount(attempts + [row], ids) == RowCount(attempts, ids) + if row.deliveryId in ids then 1 else 0
  {}

  /** Disabling takes effect at once, and a second call does not move the moment. */
  lemma DisableTakesEffectOnce(s: State, e: Id, later: Time)
    requires e in s.endpoints && s.now <= later
    ensures var s' := Apply(s, DisableEndpoint(e));
            && IsDisabled(s', e)
            && (s.endpoints[e].disabledAt.None? ==> s'.endpoints[e].disabledAt == Some(s.now))
            && Run(s', [Tick(later), DisableEndpoint(e)]) == Apply(s', Tick(later))
  {
    var s' := Apply(s, DisableEndpoint(e));
    var t := Apply(s', Tick(later));
    RunPrefix(s', [Tick(later), DisableEndpoint(e)], 0);
    RunPrefix(s', [Tick(later), DisableEndpoint(e)], 1);
    assert t.endpoints[e := t.endpoints[e]] == t.endpoints;
    assert [Tick(later), DisableEndpoint(e)][..0] == [];
    assert [Tick(later), DisableEndpoint(e)][..2] == [Tick(later), DisableEndpoint(e)];
  }

  /** The moment of the first committed request to disable an endpoint. */
  function FirstDisabling(start: State, steps: seq<Step>, e: Id): Option<Time> {
    if steps == [] then None
    else
      var m := |steps| - 1;
      var s, earlier := Run(start, steps[..m]), FirstDisabling(start, steps[..m], e);
      if earlier.None? && steps[m] == DisableEndpoint(e) && Enabled(s, steps[m]) then Some(s.now) else earlier
  }

  lemma StepDisables(s: State, step: Step, e: Id)
    ensures var s' := Apply(s, step);
            e in s'.endpoints ==>
              s'.endpoints[e].disabledAt ==
                if e !in s.endpoints then None
                else if s.endpoints[e].disabledAt.None? && step == DisableEndpoint(e) then Some(s.now)
                else s.endpoints[e].disabledAt
    ensures e in s.endpoints ==> e in Apply(s, step).endpoints
  {}

  /** Only a request to disable it disables an endpoint, and the column keeps the moment of the first:
      no failure, cooldown, replay or expiry ever does. */
  lemma {:induction false} DisabledIffRequested(now: Time, steps: seq<Step>, e: Id)
    ensures var s := Run(Start(now), steps);
            if e in s.endpoints then s.endpoints[e].disabledAt == FirstDisabling(Start(now), steps, e)
            else FirstDisabling(Start(now), steps, e) == None
  {
    if steps != [] {
      var m := |steps| - 1;
      DisabledIffRequested(now, steps[..m], e);
      StepDisables(Run(Start(now), steps[..m]), steps[m], e);
    }
  }

  /** A step that would start something on a disabled endpoint is refused. */
  lemma NothingStarts(s: State, step: Step, e: Id)
    requires IsDisabled(s, e) && Enabled(s, step)
    ensures step.Enqueue? ==> step.params.endpointId != e
    ensures step.Claim? || step.Replay? ==> s.deliveries[step.deliveryId].endpointId != e
  {}

  /** A finish or recovery adds one row, for its delivery. */
  lemma ClosingRow(s: State, step: Step, id: Id) returns (row: Attempt)
    requires DeliveriesInv(s) && Enabled(s, step) && (step.Finish? || step.Recover?) && Target(step) == Some(id)
    ensures Commit(s, step).attempts == s.attempts + [row] && row.deliveryId == id
  {
    if step.Finish? {
      row := FinishRow(step.result);
    } else {
      NextNumberIsFree(s, id);
      row := RecoveryRow(id, s.deliveries[id], s.now);
    }
  }

  lemma ClosingTarget(s: State, step: Step, id: Id)
    requires Enabled(s, step) && (step.Finish? || step.Recover?) && Target(step) == Some(id)
    ensures id in s.deliveries && s.deliveries[id].status == Processing
    ensures var s' := Commit(s, step);
            && id in s'.deliveries && s'.deliveries[id].status != Processing
            && s'.deliveries[id].endpointId == s.deliveries[id].endpointId
  {}

  lemma ClosingSets(s: State, step: Step, e: Id, id: Id)
    requires Enabled(s, step) && (step.Finish? || step.Recover?) && Target(step) == Some(id)
    ensures var s' := Apply(s, step);
            && DeliveriesOf(s', e) == DeliveriesOf(s, e)
            && UnderWay(s', e) == UnderWay(s, e) - {id}
            && (id in UnderWay(s, e) <==> id in DeliveriesOf(s, e))
  {
    var s' := Apply(s, step);
    ClosingTarget(s, step, id);
    forall x | x != id
      ensures x in DeliveriesOf(s', e) <==> x in DeliveriesOf(s, e)
      ensures x in UnderWay(s', e) <==> x in UnderWay(s, e)
    {
      OthersUntouched(s, step, x);
    }
  }

  lemma ClosingConserves(s: State, step: Step, e: Id, id: Id)
    requires DeliveriesInv(s) && Enabled(s, step) && (step.Finish? || step.Recover?) && Target(step) == Some(id)
    ensures var s', ids := Apply(s, step), DeliveriesOf(s, e);
            && DeliveriesOf(s', e) == ids
            && RowCount(s'.attempts, ids) + |UnderWay(s', e)| == RowCount(s.attempts, ids) + |UnderWay(s, e)|
  {
    var row := ClosingRow(s, step, id);
    RowCountSnoc(s.attempts, row, DeliveriesOf(s, e));
    ClosingSets(s, step, e, id);
  }

  lemma OtherStepsConserve(s: State, step: Step, e: Id)
    requires IsDisabled(s, e) && !step.Finish? && !step.Recover?
    ensures var s' := Apply(s, step);
            && DeliveriesOf(s', e) == DeliveriesOf(s, e)
            && UnderWay(s', e) == UnderWay(s, e)
            && s'.attempts == s.attempts
  {
    var s' := Apply(s, step);
    if Enabled(s, step) {
      NothingStarts(s, step, e);
      forall x | Target(step) != Some(x)
        ensures x in s'.deliveries <==> x in s.deliveries
        ensures x in s.deliveries ==> s'.deliveries[x] == s.deliveries[x]
      {
        OthersUntouched(s, step, x);
      }
      assert DeliveriesOf(s', e) == DeliveriesOf(s, e);
      assert UnderWay(s', e) == UnderWay(s, e);
    }
  }

  /** After an endpoint is disabled, in any continuation: it stays disabled since the same moment,
      no delivery is added to it, and its rows and its attempts under way together stay the same
      number, so at most the attempts then under way are still recorded. */
  lemma {:induction false} DisabledEndpointWindsDown(s: State, steps: seq<Step>, e: Id)
    requires Inv(s) && IsDisabled(s, e)
    ensures var t, ids := Run(s, steps), DeliveriesOf(s, e);
            && e in t.endpoints && t.endpoints[e].disabledAt == s.endpoints[e].disabledAt
            && DeliveriesOf(t, e) == ids
            && RowCount(t.attempts, ids) + |UnderWay(t, e)| == RowCount(s.attempts, ids) + |UnderWay(s, e)|
            && RowCount(t.attempts, ids) - RowCount(s.attempts, ids) <= |UnderWay(s, e)|
  {
    if steps != [] {
      var m := |steps| - 1;
      var t, step := Run(s, steps[..m]), steps[m];
      DisabledEndpointWindsDown(s, steps[..m], e);
      RunKeepsInv(s, steps[..m]);
      EndpointIsStable(t, step, e);
      if step.Finish? || step.Recover? {
        if Enabled(t, step) {
          ClosingConserves(t, step, e, Target(step).value);
        }
      } else {
        OtherStepsConserve(t, step, e);
      }
    }
  }

  /** No enqueue, claim or replay on the endpoint commits anywhere in the continuation. */
  lemma NothingStartsLater(s: State, steps: seq<Step>, e: Id, i: int)
    requires Inv(s) && IsDisabled(s, e) && 0 <= i < |steps| && Commits(s, steps, i)
    ensures steps[i].Enqueue? ==> steps[i].params.endpointId != e
    ensures steps[i].Claim? || steps[i].Replay? ==>
              At(s, steps, i).deliveries[steps[i].deliveryId].endpointId != e
  {
    DisabledEndpointWindsDown(s, steps[..i], e);
    NothingStarts(At(s, steps, i), steps[i], e);
  }
}
