/** The status graph is exact: every move it allows occurs, and no other. */
module Lifecycle {
  import opened Prelude
  import opened DeliveryModel
  import opened AttemptResults
  import opened Queue
  import opened Guarantees
  import opened Scenario

  /** The step moves the delivery from one status to another. */
  predicate Moves(s: State, step: Step, id: Id, a: Status, b: Status) {
    && id in s.deliveries && id in Apply(s, step).deliveries
    && s.deliveries[id].status == a && Apply(s, step).deliveries[id].status == b && a != b
  }

  const CLAIM: Step := Claim("d", "w", "t", 45 * SECOND)

  function Reporting(n: int, decision: Decision, status: int): AttemptResult {
    AttemptResult("d", "w", "t", n, decision, Some(status), "", "", 1, 1, 2, 3, CircuitNone, 0, 0)
  }

  lemma ReportIsAcceptable(n: int, decision: Decision, status: int)
    requires 1 <= n <= 3 && 100 <= status <= 599
    requires decision == Evaluate(status, false)
    ensures Acceptable(Reporting(n, decision, status))
  {
    NamesAreVisible();
  }

  /** Some run and step make the move. */
  ghost predicate Occurs(a: Status, b: Status) {
    exists now: Time, steps: seq<Step>, step: Step, id: Id :: Moves(Run(Start(now), steps), step, id, a, b)
  }

  lemma MoveOccurs(now: Time, steps: seq<Step>, step: Step, id: Id, a: Status, b: Status)
    requires Moves(Run(Start(now), steps), step, id, a, b)
    ensures Occurs(a, b)
  {}

  /** The run has brought the one delivery to this status and attempt, and its next step can follow. */
  predicate Lives(steps: seq<Step>, d: Delivery, rows: seq<Attempt>, status: Status, n: int) {
    && Run(Start(1), steps) == OneDelivery(10, d, rows)
    && d.status == status && d.attemptCount == n && n < d.maxAttempts <= 16
    && d.endpointId == "e" && d.nextAttemptAt <= 10
    && (d.status == Processing ==> d.lockedBy == Some("w") && d.leaseToken == Some("t"))
    && (forall i :: 0 <= i < |rows| ==> rows[i].number <= if d.status == Processing then n - 1 else n)
  }

  lemma LifeBegins() returns (steps: seq<Step>, d: Delivery)
    ensures Lives(steps, d, [], Pending, 0) && d.maxAttempts == 8
  {
    d := FRESH;
    steps := [CREATE, Enqueue(PARAMS), Tick(10)];
    RunPrefix(Start(1), steps, 0);
    RunPrefix(Start(1), steps, 1);
    RunPrefix(Start(1), steps, 2);
    assert steps[..0] == [] && steps[..3] == steps;
    Stored();
  }

  lemma ClaimMoves(steps: seq<Step>, d: Delivery, rows: seq<Attempt>, n: int) returns (d': Delivery)
    requires Lives(steps, d, rows, d.status, n) && (d.status == Pending || d.status == Retrying)
    ensures d'.maxAttempts == d.maxAttempts
    ensures n + 1 < d.maxAttempts ==> Lives(steps + [CLAIM], d', rows, Processing, n + 1)
    ensures Occurs(d.status, Processing)
  {
    NamesAreVisible();
    Claimed(10, d, rows, "w", "t", 45 * SECOND);
    RunSnoc(Start(1), steps, CLAIM);
    MoveOccurs(1, steps, CLAIM, "d", d.status, Processing);
    d' := Leased(d, "w", "t", 45 * SECOND, 10);
  }

  lemma ReportMoves(steps: seq<Step>, d: Delivery, rows: seq<Attempt>, n: int, decision: Decision, code: int)
    returns (d': Delivery, rows': seq<Attempt>)
    requires Lives(steps, d, rows, Processing, n) && 1 <= n <= 3
    requires 100 <= code <= 599 && decision == Evaluate(code, false)
    ensures var status := if decision == Succeed then Succeeded else if decision == Retry then Retrying else Dead;
            && Lives(steps + [Finish(Reporting(n, decision, code))], d', rows', status, n)
            && d'.maxAttempts == d.maxAttempts
            && Occurs(Processing, status)
  {
    var r := Reporting(n, decision, code);
    ReportIsAcceptable(n, decision, code);
    Reported(10, d, rows, r);
    RunSnoc(Start(1), steps, Finish(r));
    d', rows' := Finished(d, r, 10), rows + [FinishRow(r)];
    MoveOccurs(1, steps, Finish(r), "d", Processing, d'.status);
  }

  lemma ReplayMoves(steps: seq<Step>, d: Delivery, rows: seq<Attempt>, n: int) returns (d': Delivery)
    requires Lives(steps, d, rows, Dead, n) && d.maxAttempts == 8
    ensures Lives(steps + [Replay("d")], d', rows, Pending, n) && Occurs(Dead, Pending)
  {
    RunSnoc(Start(1), steps, Replay("d"));
    MoveOccurs(1, steps, Replay("d"), "d", Dead, Pending);
    d' := Replayed(d, 8, 10);
  }

  lemma RetriedLife() returns (steps: seq<Step>, d: Delivery, rows: seq<Attempt>)
    ensures Occurs(Pending, Processing) && Occurs(Processing, Retrying)
    ensures Lives(steps, d, rows, Retrying, 1) && d.maxAttempts == 8
  {
    steps, d := LifeBegins();
    d := ClaimMoves(steps, d, [], 0);
    d, rows := ReportMoves(steps + [CLAIM], d, [], 1, Retry, 503);
    steps := steps + [CLAIM] + [Finish(Reporting(1, Retry, 503))];
  }

  /** A delivery that is retried, discarded and replayed. */
  lemma FailedLife()
    ensures Occurs(Pending, Processing) && Occurs(Processing, Retrying) && Occurs(Retrying, Processing)
    ensures Occurs(Processing, Dead) && Occurs(Dead, Pending)
  {
    var steps, d, rows := RetriedLife();
    d := ClaimMoves(steps, d, rows, 1);
    d, rows := ReportMoves(steps + [CLAIM], d, rows, 2, Discard, 404);
    d := ReplayMoves(steps + [CLAIM] + [Finish(Reporting(2, Discard, 404))], d, rows, 2);
  }

  lemma SuccessfulLife()
    ensures Occurs(Processing, Succeeded)
  {
    var steps, d := LifeBegins();
    d := ClaimMoves(steps, d, [], 0);
    var d', rows := ReportMoves(steps + [CLAIM], d, [], 1, Succeed, 200);
  }

  /** In the runs of the queue a delivery moves from one status to another exactly when the status
      graph allows it. */
  lemma StatusGraphIsExact(a: Status, b: Status)
    ensures a.CanTransition(b) <==> Occurs(a, b)
  {
    if a.CanTransition(b) {
      FailedLife();
      SuccessfulLife();
    }
    if Occurs(a, b) {
      var now: Time, steps: seq<Step>, step: Step, id: Id :| Moves(Run(Start(now), steps), step, id, a, b);
      StatusMovesAreLegal(Run(Start(now), steps), step, id);
    }
  }
}
