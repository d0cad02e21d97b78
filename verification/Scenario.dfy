/** Small concrete states and runs, for the results that show a property to fail. */
module Scenario {
  import opened Prelude
  import opened DeliveryModel
  import opened AttemptResults
  import opened Queue

  const CREATE: Step := CreateEndpoint("e", 30000, 8)
  const PARAMS: EnqueueParams := EnqueueParams("v", "d", "e", "type", "{}", "key")
  const ENDPOINT: Endpoint := Endpoint(30000, 8, 0, None, None, 1, 1)
  const EVENT: Event := Event("e", "type", "{}", "key", 1)
  const FRESH: Delivery := FreshDelivery("v", "e", 8, 1)

  /** One endpoint with a budget of 8, one event, and the row of its delivery. */
  function OneDelivery(now: Time, d: Delivery, attempts: seq<Attempt>): State {
    State(now, map["e" := ENDPOINT], map["v" := EVENT], map["d" := d], attempts)
  }

  lemma Stored()
    ensures Apply(Apply(Start(1), CREATE), Enqueue(PARAMS)) == OneDelivery(1, FRESH, [])
  {}

  lemma Claimed(now: Time, d: Delivery, attempts: seq<Attempt>, worker: string, token: string, lease: Duration)
    requires Waiting(d) && d.nextAttemptAt <= now && d.attemptCount < d.maxAttempts && d.endpointId == "e"
    requires worker != "" && TrimSpace(worker) == worker && !Blank(token) && lease >= MILLISECOND
    ensures Enabled(OneDelivery(now, d, attempts), Claim("d", worker, token, lease))
    ensures Apply(OneDelivery(now, d, attempts), Claim("d", worker, token, lease))
         == OneDelivery(now, Leased(d, worker, token, lease, now), attempts)
  {}

  lemma Reported(now: Time, d: Delivery, attempts: seq<Attempt>, r: AttemptResult)
    requires d.status == Processing && d.lockedBy == Some(r.workerId) && d.leaseToken == Some(r.leaseToken)
    requires r.deliveryId == "d" && d.endpointId == "e" && d.attemptCount == r.attemptNumber
    requires Acceptable(r) && r.circuitOutcome == CircuitNone && !HasRow(attempts, "d", r.attemptNumber)
    ensures Apply(OneDelivery(now, d, attempts), Finish(r))
         == OneDelivery(now, Finished(d, r, now), attempts + [FinishRow(r)])
  {
    var s, step := OneDelivery(now, d, attempts), Finish(r);
    assert Commit(s, step).deliveries == map["d" := Finished(d, r, now)];
    assert Commit(s, step).endpoints == s.endpoints;
  }

  lemma NamesAreVisible()
    ensures !Blank("d") && !Blank("w") && !Blank("x") && !Blank("t") && !Blank("u")
    ensures TrimSpace("w") == "w" && TrimSpace("x") == "x"
  {}
}
