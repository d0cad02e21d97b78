/** The circuit breaker of an endpoint as a function of the outcomes reported for it. */
module Breaker {
  import opened Prelude
  import opened DeliveryModel
  import opened AttemptResults
  import opened Queue
  import opened QueueInvariant
  import opened Guarantees

  /** A committed outcome that concerns the breaker, with the database time of its commit. */
  datatype Signal = Signal(failure: bool, at: Time)

  predicate Reports(s: State, step: Step, e: Id) {
    && Enabled(s, step)
    && step.Finish?
    && s.deliveries[step.result.deliveryId].endpointId == e
    && (step.result.circuitOutcome == CircuitFailure || step.result.circuitOutcome == CircuitSuccess)
  }

  /** The breaker outcomes committed for an endpoint, in order. */
  function Signals(start: State, steps: seq<Step>, e: Id): seq<Signal> {
    if steps == [] then []
    else
      var m := |steps| - 1;
      var s := Run(start, steps[..m]);
      Signals(start, steps[..m], e)
      + if Reports(s, steps[m], e) then [Signal(steps[m].result.circuitOutcome == CircuitFailure, s.now)] else []
  }

  /** The number of failures since the last success. */
  function Streak(signals: seq<Signal>): nat {
    if signals == [] || !signals[|signals| - 1].failure then 0
    else 1 + Streak(signals[..|signals| - 1])
  }

  /** The streak is the longest run of failures at the end. */
  lemma {:induction false} StreakIsLongestSuffix(signals: seq<Signal>)
    ensures Streak(signals) <= |signals|
    ensures forall j :: |signals| - Streak(signals) <= j < |signals| ==> signals[j].failure
    ensures Streak(signals) < |signals| ==> !signals[|signals| - Streak(signals) - 1].failure
  {
    if signals != [] && signals[|signals| - 1].failure {
      StreakIsLongestSuffix(signals[..|signals| - 1]);
    }
  }

  /** Signal j belongs to the streak and brought it to the threshold or beyond. */
  predicate Trips(signals: seq<Signal>, threshold: int, j: int) {
    |signals| - Streak(signals) + threshold - 1 <= j < |signals|
  }

  /** The breaker columns, from the history alone: the count is the streak; the circuit has an end
      exactly when the streak reaches the threshold, and then it is the latest of the cooldown ends
      of the failures that tripped it. */
  ghost predicate BreakerMatches(e: Endpoint, signals: seq<Signal>, threshold: int, cooldown: Duration) {
    && e.consecutiveFailures == Streak(signals)
    && (e.circuitOpenUntil.Some? <==> Streak(signals) >= threshold)
    && (e.circuitOpenUntil.Some? ==>
          && (forall j | 0 <= j && Trips(signals, threshold, j) :: signals[j].at + cooldown <= e.circuitOpenUntil.value)
          && (exists j :: 0 <= j && Trips(signals, threshold, j)
                          && signals[j].at + cooldown == e.circuitOpenUntil.value))
  }

  /** The step is a committed failure report for the endpoint under another threshold or cooldown. */
  predicate Deviates(s: State, step: Step, e: Id, threshold: int, cooldown: Duration) {
    && Reports(s, step, e)
    && step.result.circuitOutcome == CircuitFailure
    && !(step.result.circuitThreshold == threshold && WholeMilliseconds(step.result.circuitCooldown) == cooldown)
  }

  /** Every failure committed for the endpoint uses this threshold and cooldown. */
  predicate Uniform(start: State, steps: seq<Step>, e: Id, threshold: int, cooldown: Duration) {
    forall i :: 0 <= i < |steps| ==> !Deviates(At(start, steps, i), steps[i], e, threshold, cooldown)
  }

  lemma UniformPrefix(start: State, steps: seq<Step>, e: Id, threshold: int, cooldown: Duration)
    requires steps != [] && Uniform(start, steps, e, threshold, cooldown)
    ensures var m := |steps| - 1;
            && Uniform(start, steps[..m], e, threshold, cooldown)
            && !Deviates(Run(start, steps[..m]), steps[m], e, threshold, cooldown)
  {
    var m := |steps| - 1;
    forall i | 0 <= i < m
      ensures !Deviates(At(start, steps[..m], i), steps[..m][i], e, threshold, cooldown)
    {
      assert steps[..m][..i] == steps[..i];
      assert !Deviates(At(start, steps, i), steps[i], e, threshold, cooldown);
    }
    assert !Deviates(At(start, steps, m), steps[m], e, threshold, cooldown);
  }

  lemma FailureMatches(e: Endpoint, signals: seq<Signal>, r: AttemptResult, now: Time,
                       threshold: int, cooldown: Duration)
    requires BreakerMatches(e, signals, threshold, cooldown) && threshold >= 1 && cooldown >= 0
    requires r.circuitOutcome == CircuitFailure
    requires r.circuitThreshold == threshold && WholeMilliseconds(r.circuitCooldown) == cooldown
    ensures BreakerMatches(CircuitAfter(e, r, now), signals + [Signal(true, now)], threshold, cooldown)
  {}

  lemma SuccessMatches(e: Endpoint, signals: seq<Signal>, r: AttemptResult, now: Time,
                       threshold: int, cooldown: Duration)
    requires r.circuitOutcome == CircuitSuccess && threshold >= 1
    ensures BreakerMatches(CircuitAfter(e, r, now), signals + [Signal(false, now)], threshold, cooldown)
  {}

  ghost predicate BreakerInv(s: State, e: Id, signals: seq<Signal>, threshold: int, cooldown: Duration) {
    if e in s.endpoints then BreakerMatches(s.endpoints[e], signals, threshold, cooldown) else signals == []
  }

  lemma BreakerIgnores(a: Endpoint, b: Endpoint, signals: seq<Signal>, threshold: int, cooldown: Duration)
    requires BreakerMatches(a, signals, threshold, cooldown)
    requires a.consecutiveFailures == b.consecutiveFailures && a.circuitOpenUntil == b.circuitOpenUntil
    ensures BreakerMatches(b, signals, threshold, cooldown)
  {}

  /** Steps that report nothing for the endpoint leave its breaker alone. */
  lemma SilentStep(s: State, step: Step, e: Id)
    requires e in s.endpoints && !Reports(s, step, e)
    ensures var s' := Apply(s, step);
            && e in s'.endpoints
            && s'.endpoints[e].consecutiveFailures == s.endpoints[e].consecutiveFailures
            && s'.endpoints[e].circuitOpenUntil == s.endpoints[e].circuitOpenUntil
  {}

  lemma AcceptedCooldown(r: AttemptResult)
    requires Acceptable(r) && r.circuitOutcome == CircuitFailure
    ensures WholeMilliseconds(r.circuitCooldown) >= 0
  {}

  lemma ReportMatches(s: State, r: AttemptResult, e: Id, signals: seq<Signal>, threshold: int, cooldown: Duration)
    requires e in s.endpoints && Reports(s, Finish(r), e) && threshold >= 1
    requires BreakerMatches(s.endpoints[e], signals, threshold, cooldown)
    requires r.circuitOutcome == CircuitFailure ==>
               r.circuitThreshold == threshold && WholeMilliseconds(r.circuitCooldown) == cooldown
    ensures var s' := Apply(s, Finish(r));
            && e in s'.endpoints
            && BreakerMatches(s'.endpoints[e], signals + [Signal(r.circuitOutcome == CircuitFailure, s.now)],
                              threshold, cooldown)
  {
    var s' := Commit(s, Finish(r));
    assert s'.endpoints[e] == CircuitAfter(s.endpoints[e], r, s.now);
    if r.circuitOutcome == CircuitFailure {
      AcceptedCooldown(r);
      FailureMatches(s.endpoints[e], signals, r, s.now, threshold, cooldown);
    } else {
      SuccessMatches(s.endpoints[e], signals, r, s.now, threshold, cooldown);
    }
  }

  lemma NewEndpointMatches(s: State, step: Step, e: Id, threshold: int, cooldown: Duration)
    requires Inv(s) && e !in s.endpoints && threshold >= 1
    ensures BreakerInv(Apply(s, step), e, [], threshold, cooldown) && !Reports(s, step, e)
  {}

  /** Breaker state refines history, in every run whose committed failures for the endpoint
      share one configuration. */
  lemma {:induction false} BreakerRefinesHistory(now: Time, steps: seq<Step>, e: Id, threshold: int, cooldown: Duration)
    requires threshold >= 1 && Uniform(Start(now), steps, e, threshold, cooldown)
    ensures BreakerInv(Run(Start(now), steps), e, Signals(Start(now), steps, e), threshold, cooldown)
  {
    if steps != [] {
      var m := |steps| - 1;
      var s, step := Run(Start(now), steps[..m]), steps[m];
      var signals := Signals(Start(now), steps[..m], e);
      UniformPrefix(Start(now), steps, e, threshold, cooldown);
      BreakerRefinesHistory(now, steps[..m], e, threshold, cooldown);
      if e !in s.endpoints {
        ReachableInv(now, steps[..m]);
        NewEndpointMatches(s, step, e, threshold, cooldown);
      } else if Reports(s, step, e) {
        ReportMatches(s, step.result, e, signals, threshold, cooldown);
      } else {
        SilentStep(s, step, e);
        assert Signals(Start(now), steps, e) == signals + [] == signals;
        BreakerIgnores(s.endpoints[e], Apply(s, step).endpoints[e], signals, threshold, cooldown);
      }
    } else {
      assert e !in Start(now).endpoints;
    }
  }

  /** No claim of any run reads an endpoint during the cooldown of a failure that tripped its
      breaker and that no success has followed. */
  lemma NoClaimDuringCooldown(now: Time, steps: seq<Step>, claim: Step, threshold: int, cooldown: Duration, j: int)
    requires threshold >= 1 && 0 <= j
    requires claim.Claim? && Enabled(Run(Start(now), steps), claim)
    requires var e := Run(Start(now), steps).deliveries[claim.deliveryId].endpointId;
             Uniform(Start(now), steps, e, threshold, cooldown) && Trips(Signals(Start(now), steps, e), threshold, j)
    ensures var s := Run(Start(now), steps); var e := s.deliveries[claim.deliveryId].endpointId;
            Signals(Start(now), steps, e)[j].at + cooldown <= s.now
  {
    var s := Run(Start(now), steps);
    var e := s.deliveries[claim.deliveryId].endpointId;
    BreakerRefinesHistory(now, steps, e, threshold, cooldown);
    StreakIsLongestSuffix(Signals(Start(now), steps, e));
  }

  /** The cooldown of every failure that tripped the breaker, with no success since, is over. */
  ghost predicate CooledDown(signals: seq<Signal>, threshold: int, cooldown: Duration, now: Time) {
    forall j | 0 <= j && Trips(signals, threshold, j) :: signals[j].at + cooldown <= now
  }

  /** The breaker's columns against the history: no cooldown is still running exactly when the column
      is empty or past. */
  lemma CooldownOverIff(e: Endpoint, signals: seq<Signal>, threshold: int, cooldown: Duration, now: Time)
    requires BreakerMatches(e, signals, threshold, cooldown) && threshold >= 1
    ensures e.circuitOpenUntil.None? || e.circuitOpenUntil.value <= now
       <==> CooledDown(signals, threshold, cooldown, now)
  {
    StreakIsLongestSuffix(signals);
  }

  /** When a delivery can be claimed, from the history: a waiting delivery that is due is a candidate
      if and only if its endpoint is not disabled and has cooled down. */
  lemma ClaimableIff(now: Time, steps: seq<Step>, id: Id, threshold: int, cooldown: Duration)
    requires threshold >= 1 && id in Run(Start(now), steps).deliveries
    requires Uniform(Start(now), steps, Run(Start(now), steps).deliveries[id].endpointId, threshold, cooldown)
    ensures var s := Run(Start(now), steps);
            var d := s.deliveries[id];
            var signals := Signals(Start(now), steps, d.endpointId);
            && d.endpointId in s.endpoints
            && (Candidate(s, id) <==>
                  && (d.status == Pending || d.status == Retrying)
                  && d.nextAttemptAt <= s.now
                  && s.endpoints[d.endpointId].disabledAt.None?
                  && CooledDown(signals, threshold, cooldown, s.now))
  {
    var s := Run(Start(now), steps);
    var e := s.deliveries[id].endpointId;
    NoStrandedDelivery(now, steps, id);
    BreakerRefinesHistory(now, steps, e, threshold, cooldown);
    CooldownOverIff(s.endpoints[e], Signals(Start(now), steps, e), threshold, cooldown, s.now);
  }
}
