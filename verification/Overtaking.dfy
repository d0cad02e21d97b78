/** A run in which a due delivery is overtaken: the finishes that join are not idle in the bound. */
module Overtaking {
  import opened Prelude
  import opened DeliveryModel
  import opened AttemptResults
  import opened Queue
  import opened Fencing
  import opened Fairness
  import opened Scenario

  const LATER: EnqueueParams := EnqueueParams("v2", "late", "e", "type", "{}", "key2")
  const LATE: Delivery := FreshDelivery("v2", "e", 8, 10)
  const LATE_EVENT: Event := Event("e", "type", "{}", "key2", 10)
  const CLAIM: Step := Claim("d", "w", "t", 45 * SECOND)

  /** A report of attempt n, back-dated: completed at 2n and to be retried at 2n + 1. */
  function Unavailable(n: int): AttemptResult {
    AttemptResult("d", "w", "t", n, Retry, Some(503), "", "", 1, 1, 2 * n, 2 * n + 1, CircuitNone, 0, 0)
  }

  /** The delivery at work and the late one. */
  function TwoDeliveries(now: Time, d: Delivery, attempts: seq<Attempt>): State {
    State(now, map["e" := ENDPOINT], map["v" := EVENT, "v2" := LATE_EVENT], map["d" := d, "late" := LATE], attempts)
  }

  const LEASED: Delivery := Leased(FRESH, "w", "t", 45 * SECOND, 1)

  lemma SecondStored()
    ensures Apply(Apply(Apply(OneDelivery(1, LEASED, []), Tick(10)), Enqueue(LATER)), Tick(20))
         == TwoDeliveries(20, LEASED, [])
  {
    var s := OneDelivery(10, LEASED, []);
    assert Apply(OneDelivery(1, LEASED, []), Tick(10)) == s;
    assert Commit(s, Enqueue(LATER)).deliveries == map["d" := LEASED, "late" := LATE];
    assert Commit(s, Enqueue(LATER)).events == map["v" := EVENT, "v2" := LATE_EVENT];
  }

  lemma Reached(steps: seq<Step>)
    requires steps == [CREATE, Enqueue(PARAMS), CLAIM, Tick(10), Enqueue(LATER), Tick(20)]
    ensures Run(Start(1), steps) == TwoDeliveries(20, LEASED, [])
  {
    RunPrefix(Start(1), steps, 0);
    RunPrefix(Start(1), steps, 1);
    RunPrefix(Start(1), steps, 2);
    RunPrefix(Start(1), steps, 3);
    RunPrefix(Start(1), steps, 4);
    RunPrefix(Start(1), steps, 5);
    assert steps[..0] == [] && steps[..6] == steps;
    Stored();
    NamesAreVisible();
    Claimed(1, FRESH, [], "w", "t", 45 * SECOND);
    SecondStored();
  }

  /** A row on which the back-dated report of attempt n commits and can be claimed again. */
  predicate UnderLease(d: Delivery, n: int, attempts: seq<Attempt>) {
    && d.status == Processing && d.attemptCount == n < d.maxAttempts && d.endpointId == "e"
    && d.lockedBy == Some("w") && d.leaseToken == Some("t")
    && !HasRow(attempts, "d", n)
  }

  lemma ReportJoins(d: Delivery, n: int, attempts: seq<Attempt>)
    requires UnderLease(d, n, attempts) && 1 <= n <= 4
    ensures var s, step := TwoDeliveries(20, d, attempts), Finish(Unavailable(n));
            && Enabled(s, step)
            && Apply(s, step) == TwoDeliveries(20, Finished(d, Unavailable(n), 20), attempts + [FinishRow(Unavailable(n))])
            && Joins(s, step, "late")
  {
    var s, r := TwoDeliveries(20, d, attempts), Unavailable(n);
    NamesAreVisible();
    assert Acceptable(r);
    assert Commit(s, Finish(r)).endpoints == s.endpoints;
    assert Commit(s, Finish(r)).deliveries == map["d" := Finished(d, r, 20), "late" := LATE];
  }

  lemma ClaimFollows(d: Delivery, attempts: seq<Attempt>)
    requires d.status == Retrying && d.nextAttemptAt < 10 && d.attemptCount < d.maxAttempts && d.endpointId == "e"
    ensures var s := TwoDeliveries(20, d, attempts);
            && Enabled(s, CLAIM) && Orderly(s, CLAIM, "late")
            && Apply(s, CLAIM) == TwoDeliveries(20, Leased(d, "w", "t", 45 * SECOND, 20), attempts)
  {
    var s := TwoDeliveries(20, d, attempts);
    NamesAreVisible();
    assert Commit(s, CLAIM).deliveries == map["d" := Leased(d, "w", "t", 45 * SECOND, 20), "late" := LATE];
  }

  /** The four steps: two reports that join, each followed by a claim that takes the joined row. */
  lemma FourSteps(s: State, more: seq<Step>)
    requires s == TwoDeliveries(20, LEASED, [])
    requires more == [Finish(Unavailable(1)), CLAIM, Finish(Unavailable(2)), CLAIM]
    ensures Joins(At(s, more, 0), more[0], "late") && Joins(At(s, more, 2), more[2], "late")
    ensures Commits(s, more, 1) && Orderly(At(s, more, 1), more[1], "late")
    ensures Commits(s, more, 3) && Orderly(At(s, more, 3), more[3], "late")
  {
    var d1 := Finished(LEASED, Unavailable(1), 20);
    var d2 := Leased(d1, "w", "t", 45 * SECOND, 20);
    var d3 := Finished(d2, Unavailable(2), 20);
    var rows := [FinishRow(Unavailable(1))];
    RunPrefix(s, more, 0);
    RunPrefix(s, more, 1);
    RunPrefix(s, more, 2);
    assert more[..0] == [];
    ReportJoins(LEASED, 1, []);
    assert [] + rows == rows;
    ClaimFollows(d1, rows);
    ReportJoins(d2, 2, rows);
    ClaimFollows(d3, rows + [FinishRow(Unavailable(2))]);
  }

  lemma Counts(s: State, a: Step, b: Step, c: Step, d: Step, id: Id, more: seq<Step>)
    requires more == [a, b, c, d] && !a.Claim? && b.Claim? && !c.Claim? && d.Claim?
    requires b.deliveryId != id && d.deliveryId != id
    requires Commits(s, more, 1) && Commits(s, more, 3)
    requires Joins(At(s, more, 0), a, id) && Joins(At(s, more, 2), c, id)
    ensures ClaimCount(s, more) == 2 && JoinCount(s, more, id) == 2 && Leases(s, more, id) == []
  {
    assert more[..4] == more && more[..1][..0] == more[..0] && more[..2][..1] == more[..1]
        && more[..3][..2] == more[..2] && more[..4][..3] == more[..3] && more[..0] == [];
    assert ClaimCount(s, more[..1]) == 0 && JoinCount(s, more[..1], id) == 1 && Leases(s, more[..1], id) == [];
    assert ClaimCount(s, more[..2]) == 1 && JoinCount(s, more[..2], id) == 1 && Leases(s, more[..2], id) == [];
    assert ClaimCount(s, more[..3]) == 1 && JoinCount(s, more[..3], id) == 2 && Leases(s, more[..3], id) == [];
  }

  /** Overtaking is real: in a reachable state with nothing ahead of a due delivery, two reports with
      old completion times put theirs ahead in turn, and two orderly claims pass the delivery by. */
  lemma BackdatedReportsOvertake(steps: seq<Step>, more: seq<Step>, s: State)
    requires steps == [CREATE, Enqueue(PARAMS), CLAIM, Tick(10), Enqueue(LATER), Tick(20)]
    requires more == [Finish(Unavailable(1)), CLAIM, Finish(Unavailable(2)), CLAIM]
    requires s == Run(Start(1), steps)
    ensures Due(s, "late") && OrderlyRun(s, more, "late")
    ensures |Ahead(s, "late")| == 0 && JoinCount(s, more, "late") == 2
    ensures ClaimCount(s, more) > |Ahead(s, "late")| + 1 && Leases(s, more, "late") == []
  {
    Reached(steps);
    FourSteps(s, more);
    Counts(s, more[0], more[1], more[2], more[3], "late", more);
    assert Ahead(s, "late") == {};
    forall i | 0 <= i < |more|
      ensures Orderly(At(s, more, i), more[i], "late")
    {
      assert i == 0 || i == 1 || i == 2 || i == 3;
    }
  }
}
