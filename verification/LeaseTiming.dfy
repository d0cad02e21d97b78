/** Leases in time: a worker that stays within its budget is alone with its delivery and does not
    lose its lease (internal/config/config.go, internal/worker/pool.go, internal/store/queue.go). */
module LeaseTiming {
  import opened Prelude
  import opened DeliveryModel
  import opened AttemptResults
  import opened Queue
  import opened Fencing
  import opened Scenario

  /** A lease whose attempt was recorded without a finish had run out by the state's clock. */
  ghost predicate LapsedOrFinished(start: State, steps: seq<Step>, id: Id) {
    var s, leases := Run(start, steps), Leases(start, steps, id);
    forall a :: 0 <= a < |leases| && a + 1 <= Outcomes(s, id) ==>
      FinishedIn(start, steps, id, a + 1) || leases[a].until <= s.now
  }

  /** It had run out before any later lease began. */
  ghost predicate LaterLeasesWait(start: State, steps: seq<Step>, id: Id) {
    var leases := Leases(start, steps, id);
    forall a, b :: 0 <= a < b < |leases| ==>
      FinishedIn(start, steps, id, a + 1) || leases[a].until <= leases[b].at
  }

  ghost predicate LeasesStarted(start: State, steps: seq<Step>, id: Id) {
    var leases := Leases(start, steps, id);
    forall a :: 0 <= a < |leases| ==> leases[a].at <= Run(start, steps).now
  }

  lemma {:induction false} LeasesStartedRun(now: Time, steps: seq<Step>, id: Id)
    ensures LeasesStarted(Start(now), steps, id)
  {
    if steps != [] {
      var m := |steps| - 1;
      LeasesStartedRun(now, steps[..m], id);
      ClockMovesForward(Run(Start(now), steps[..m]), steps[m]);
    }
  }

  /** Closing a lease without a finish needs its end to have come. */
  lemma ClosingLapses(s: State, step: Step, id: Id, n: int, leases: seq<Lease>)
    requires LeasesMatch(s, id, leases) && Closes(s, step, id, n)
    ensures n == |leases|
    ensures 1 <= n ==> Finishes(s, step, id, n) || leases[n - 1].until <= s.now
  {}

  lemma StepLapses(s: State, step: Step, id: Id, a: int, leases: seq<Lease>, finished: bool)
    requires LeasesMatch(s, id, leases) && 0 <= a && a + 1 <= Outcomes(Apply(s, step), id)
    requires a < |leases| && a + 1 <= Outcomes(s, id) ==> finished || leases[a].until <= s.now
    ensures a < |leases|
    ensures finished || Finishes(s, step, id, a + 1) || leases[a].until <= Apply(s, step).now
  {
    StepClosesNext(s, step, id, a + 1);
    ClockMovesForward(s, step);
    if a + 1 > Outcomes(s, id) {
      ClosingLapses(s, step, id, a + 1, leases);
    }
  }

  lemma {:induction false} LapsedOrFinishedRun(now: Time, steps: seq<Step>, id: Id)
    ensures LapsedOrFinished(Start(now), steps, id)
  {
    if steps != [] {
      var m := |steps| - 1;
      var start := Start(now);
      var s, s' := Run(start, steps[..m]), Run(start, steps);
      var earlier, leases := Leases(start, steps[..m], id), Leases(start, steps, id);
      LapsedOrFinishedRun(now, steps[..m], id);
      LeasesMatchRun(now, steps[..m], id);
      forall a | 0 <= a < |leases| && a + 1 <= Outcomes(s', id)
        ensures FinishedIn(start, steps, id, a + 1) || leases[a].until <= s'.now
      {
        StepLapses(s, steps[m], id, a, earlier, FinishedIn(start, steps[..m], id, a + 1));
        assert leases[a] == earlier[a];
      }
    }
  }

  lemma {:induction false} LaterLeasesWaitRun(now: Time, steps: seq<Step>, id: Id)
    ensures LaterLeasesWait(Start(now), steps, id)
  {
    if steps != [] {
      var m := |steps| - 1;
      var start := Start(now);
      var s := Run(start, steps[..m]);
      var earlier, leases := Leases(start, steps[..m], id), Leases(start, steps, id);
      LaterLeasesWaitRun(now, steps[..m], id);
      LapsedOrFinishedRun(now, steps[..m], id);
      LeasesMatchRun(now, steps[..m], id);
      forall a, b | 0 <= a < b < |leases|
        ensures FinishedIn(start, steps, id, a + 1) || leases[a].until <= leases[b].at
      {
        assert leases[a] == earlier[a];
        if b < |earlier| {
          assert leases[b] == earlier[b];
        } else {
          assert a + 1 <= Outcomes(s, id);
        }
      }
    }
  }

  /** The worker of lease n may be at work on the delivery: it has not finished, and no more time
      than its budget has passed since the claim. */
  ghost predicate AtWork(start: State, steps: seq<Step>, id: Id, n: int, budget: Duration) {
    && 1 <= n <= |Leases(start, steps, id)|
    && !FinishedIn(start, steps, id, n)
    && Run(start, steps).now <= Leases(start, steps, id)[n - 1].at + budget
  }

  /** Every lease on the delivery outlasts the budget. */
  ghost predicate Outlasts(start: State, steps: seq<Step>, id: Id, budget: Duration) {
    var leases := Leases(start, steps, id);
    forall a :: 0 <= a < |leases| ==> leases[a].at + budget < leases[a].until
  }

  /** Mutual exclusion: at no moment of any run are two workers at work on one delivery. */
  lemma AtMostOneAtWork(now: Time, steps: seq<Step>, id: Id, budget: Duration, n1: int, n2: int)
    requires Outlasts(Start(now), steps, id, budget)
    requires AtWork(Start(now), steps, id, n1, budget) && AtWork(Start(now), steps, id, n2, budget)
    ensures n1 == n2
  {
    LaterLeasesWaitRun(now, steps, id);
    LeasesStartedRun(now, steps, id);
    // With n1 < n2 the first lease ran out before the second began, yet the clock is within its budget.
  }

  /** No worker within its budget is told that its lease is lost. */
  lemma NoLeaseLostWithinBudget(now: Time, steps: seq<Step>, r: AttemptResult, budget: Duration)
    requires Outlasts(Start(now), steps, r.deliveryId, budget)
    requires AtWork(Start(now), steps, r.deliveryId, r.attemptNumber, budget)
    requires Acceptable(r)
    requires var lease := Leases(Start(now), steps, r.deliveryId)[r.attemptNumber - 1];
             r.workerId == lease.worker && r.leaseToken == lease.token
    ensures Enabled(Run(Start(now), steps), Finish(r))
  {
    LapsedOrFinishedRun(now, steps, r.deliveryId);
    ClosedIffRecorded(now, steps, r.deliveryId, r.attemptNumber);
    NumberFencesAlone(now, steps, r);
    var leases := Leases(Start(now), steps, r.deliveryId);
    var a := r.attemptNumber - 1;
    assert leases[a].at + budget < leases[a].until;
  }

  /** Every claim of the delivery in the run asks for this lease. */
  ghost predicate ClaimsUse(steps: seq<Step>, id: Id, lease: Duration) {
    forall i :: 0 <= i < |steps| && steps[i].Claim? && steps[i].deliveryId == id ==> steps[i].lease == lease
  }

  lemma {:induction false} LeaseLengths(start: State, steps: seq<Step>, id: Id, lease: Duration, budget: Duration)
    requires ClaimsUse(steps, id, lease) && budget < WholeMilliseconds(lease)
    ensures Outlasts(start, steps, id, budget)
  {
    if steps != [] {
      var m := |steps| - 1;
      assert forall i :: 0 <= i < m ==> steps[..m][i] == steps[i];
      LeaseLengths(start, steps[..m], id, lease, budget);
    }
  }

  /** Whatever the run, two workers are never at work on one delivery within the budget, when all its
      claims use this lease. */
  ghost predicate Excludes(lease: Duration, budget: Duration) {
    forall now: Time, steps: seq<Step>, id: Id, n1: int, n2: int |
      ClaimsUse(steps, id, lease)
      && AtWork(Start(now), steps, id, n1, budget) && AtWork(Start(now), steps, id, n2, budget) :: n1 == n2
  }

  // ---------------------------------------------------------------- a run without exclusion

  lemma {:induction false} NothingFinished(start: State, steps: seq<Step>, id: Id, n: int)
    requires forall i :: 0 <= i < |steps| ==> !steps[i].Finish?
    ensures !FinishedIn(start, steps, id, n)
  {
    if steps != [] {
      NothingFinished(start, steps[..|steps| - 1], id, n);
    }
  }

  lemma ThenRecovered(now: Time, d: Delivery)
    requires d.status == Processing && d.lockedAt.Some? && d.lockedUntil == Some(now)
    ensures Apply(OneDelivery(now, d, []), Recover("d"))
         == OneDelivery(now, Recovered(d, now), [RecoveryRow("d", d, now)])
  {}

  function Takeover(lease: Duration): seq<Step> {
    [CREATE, Enqueue(PARAMS), Claim("d", "w", "t", lease), Tick(1 + WholeMilliseconds(lease)),
     Recover("d"), Claim("d", "x", "u", lease)]
  }

  /** The delivery is claimed, its lease ends, and the next transaction takes it over. */
  lemma TakeoverStates(lease: Duration, steps: seq<Step>)
    requires lease >= MILLISECOND && steps == Takeover(lease)
    ensures var end := 1 + WholeMilliseconds(lease);
            var first := Leased(FRESH, "w", "t", lease, 1);
            var again := Leased(Recovered(first, end), "x", "u", lease, end);
            && Run(Start(1), steps[..3]) == OneDelivery(1, first, [])
            && Run(Start(1), steps) == OneDelivery(end, again, [RecoveryRow("d", first, end)])
  {
    var end := 1 + WholeMilliseconds(lease);
    var first := Leased(FRESH, "w", "t", lease, 1);
    RunPrefix(Start(1), steps, 0);
    RunPrefix(Start(1), steps, 1);
    RunPrefix(Start(1), steps, 2);
    RunPrefix(Start(1), steps, 3);
    RunPrefix(Start(1), steps, 4);
    RunPrefix(Start(1), steps, 5);
    assert steps[..0] == [] && steps[..6] == steps;
    Stored();
    NamesAreVisible();
    Claimed(1, FRESH, [], "w", "t", lease);
    assert Apply(OneDelivery(1, first, []), Tick(end)) == OneDelivery(end, first, []);
    ThenRecovered(end, first);
    Claimed(end, Recovered(first, end), [RecoveryRow("d", first, end)], "x", "u", lease);
  }

  /** A budget that reaches the truncated lease: both the first worker and the one that took over are
      within it at the moment the lease ends. */
  lemma TwoAtWork(lease: Duration, budget: Duration)
    requires lease >= MILLISECOND && budget >= WholeMilliseconds(lease)
    ensures ClaimsUse(Takeover(lease), "d", lease)
    ensures AtWork(Start(1), Takeover(lease), "d", 1, budget)
    ensures AtWork(Start(1), Takeover(lease), "d", 2, budget)
  {
    var steps := Takeover(lease);
    TakeoverStates(lease, steps);
    LeasesMatchRun(1, steps[..3], "d");
    LeasesMatchRun(1, steps, "d");
    LeasesPrefix(Start(1), steps, "d", 3);
    NothingFinished(Start(1), steps, "d", 1);
    NothingFinished(Start(1), steps, "d", 2);
  }

  /** Mutual exclusion, exactly: all runs that use the lease exclude a second worker if and only if
      the budget is below the lease in whole milliseconds. */
  lemma ExclusionIff(lease: Duration, budget: Duration)
    requires lease >= MILLISECOND
    ensures Excludes(lease, budget) <==> budget < WholeMilliseconds(lease)
  {
    if budget < WholeMilliseconds(lease) {
      forall now: Time, steps: seq<Step>, id: Id, n1: int, n2: int |
        ClaimsUse(steps, id, lease)
        && AtWork(Start(now), steps, id, n1, budget) && AtWork(Start(now), steps, id, n2, budget)
        ensures n1 == n2
      {
        LeaseLengths(Start(now), steps, id, lease, budget);
        AtMostOneAtWork(now, steps, id, budget, n1, n2);
      }
    } else {
      TwoAtWork(lease, budget);
    }
  }

  // ---------------------------------------------------------------- the configuration

  const MAX_ENDPOINT_TIMEOUT: Duration := 30 * SECOND

  /** The test that loading the configuration makes on the lease. */
  predicate LeaseConfigured(lease: Duration, finishTimeout: Duration) {
    lease > MAX_ENDPOINT_TIMEOUT + finishTimeout
  }

  /** The lease that reaches the database exceeds a budget exactly when the configured lease reaches
      the next whole millisecond above it. */
  lemma TruncatedLeaseExceeds(lease: Duration, budget: Duration)
    requires lease >= 0 && budget >= 0
    ensures WholeMilliseconds(lease) > budget <==> lease >= (budget / MILLISECOND + 1) * MILLISECOND
  {}

  /** The time a worker may take: overhead, the longest endpoint timeout, and its finish. */
  function WorkerBudget(finishTimeout: Duration, overhead: Duration): Duration {
    overhead + MAX_ENDPOINT_TIMEOUT + finishTimeout
  }

  /** When a configured lease excludes, in terms of the configured durations alone. */
  lemma ConfiguredLeaseExcludesIff(lease: Duration, finishTimeout: Duration, overhead: Duration)
    requires LeaseConfigured(lease, finishTimeout) && finishTimeout >= 0 && overhead >= 0
    ensures Excludes(lease, WorkerBudget(finishTimeout, overhead))
       <==> lease >= (WorkerBudget(finishTimeout, overhead) / MILLISECOND + 1) * MILLISECOND
  {
    ExclusionIff(lease, WorkerBudget(finishTimeout, overhead));
    TruncatedLeaseExceeds(lease, WorkerBudget(finishTimeout, overhead));
  }

  /** A lease of 35s and a nanosecond passes the test for a finish timeout of 5s, yet it does not
      exclude: cut to milliseconds it leaves nothing, even without overhead. */
  lemma ConfiguredLeaseMayNotExclude()
    ensures LeaseConfigured(35 * SECOND + 1, 5 * SECOND)
    ensures !Excludes(35 * SECOND + 1, WorkerBudget(5 * SECOND, 0))
  {
    ConfiguredLeaseExcludesIff(35 * SECOND + 1, 5 * SECOND, 0);
  }

  /** With a lease and a finish timeout in whole milliseconds the inequality gives a full
      millisecond: a delivery within any permitted endpoint timeout, its finish and less than a
      millisecond of overhead excludes every other worker. */
  lemma ConfiguredLeaseOutlasts(start: State, steps: seq<Step>, id: Id,
                                lease: Duration, finishTimeout: Duration, timeoutMs: int, overhead: Duration)
    requires LeaseConfigured(lease, finishTimeout) && finishTimeout >= 0
    requires lease % MILLISECOND == 0 && finishTimeout % MILLISECOND == 0
    requires 100 <= timeoutMs <= 30000 && 0 <= overhead < MILLISECOND
    requires ClaimsUse(steps, id, lease)
    ensures Outlasts(start, steps, id, overhead + timeoutMs * MILLISECOND + finishTimeout)
  {
    assert WholeMilliseconds(lease) == lease;
    assert lease - finishTimeout - MAX_ENDPOINT_TIMEOUT >= MILLISECOND by {
      var l, f := lease / MILLISECOND, finishTimeout / MILLISECOND;
      assert lease == l * MILLISECOND && finishTimeout == f * MILLISECOND;
    }
    LeaseLengths(start, steps, id, lease, overhead + timeoutMs * MILLISECOND + finishTimeout);
  }
}
