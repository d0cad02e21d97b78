/** The store as an object whose tables the calls update in place. Each call works on local copies
    and assigns the tables at its commit, so a return before the commit leaves them as they were.
    Every method is proved against the function of the same call (internal/store), and the object
    remembers the run that made its tables, so that what holds of every run holds of the object. */
module Store {
  import opened Prelude
  import opened DeliveryModel
  import opened AttemptResults
  import opened Queue
  import opened QueueInvariant
  import Calls
  import Guarantees
  import Fencing
  import Answers
  import Choices

  /** A row that the recovery update returns. */
  datatype RecoveredLease = RecoveredLease(deliveryId: Id, attempt: int, startedAt: Time, completedAt: Time)

  function ReturnedRow(s: State, id: Id): RecoveredLease
    requires Expired(s, id)
  {
    RecoveredLease(id, s.deliveries[id].attemptCount, s.deliveries[id].lockedAt.value, s.now)
  }

  /** The scanned rows are those of the batch, each from the row before the update. */
  predicate Returned(s: State, batch: seq<Id>, recovered: seq<RecoveredLease>) {
    && |recovered| == |batch|
    && (forall k :: 0 <= k < |batch| ==> Expired(s, batch[k]) && recovered[k] == ReturnedRow(s, batch[k]))
  }

  /** An attempt as callers see it: the stored milliseconds as a duration. */
  datatype AttemptView = AttemptView(row: Attempt, duration: Duration)

  datatype Details = Details(delivery: Delivery, event: Event, attempts: seq<AttemptView>)

  function View(row: Attempt): AttemptView {
    AttemptView(row, row.durationMs * MILLISECOND)
  }

  function Views(rows: seq<Attempt>): seq<AttemptView> {
    seq(|rows|, k requires 0 <= k < |rows| => View(rows[k]))
  }

  /** The report repeats the worker and the token of the claim whose number it carries, and no step
      has closed that attempt. */
  predicate LeaseIsOpen(origin: Time, history: seq<Step>, r: AttemptResult) {
    var leases, n := Fencing.Leases(Start(origin), history, r.deliveryId), r.attemptNumber;
    && 1 <= n <= |leases|
    && r.workerId == leases[n - 1].worker && r.leaseToken == leases[n - 1].token
    && !Fencing.ClosedIn(Start(origin), history, r.deliveryId, n)
  }

  lemma OpenLeaseDecides(origin: Time, history: seq<Step>, r: AttemptResult)
    ensures Calls.FinishAttempt(Run(Start(origin), history), r).1.Ok?
       <==> Acceptable(r) && LeaseIsOpen(origin, history, r)
  {
    if Acceptable(r) {
      Fencing.FinishIsRecordedIffLeaseIsOpen(origin, history, r);
    }
  }

  lemma ClaimKeepsPromise(origin: Time, history: seq<Step>, name: string, lease: Duration, token: string,
                          batch: seq<Id>, pick: Option<Id>, locked: set<Id>)
    requires TrimSpace(name) != "" && lease >= MILLISECOND && !Blank(token)
    requires Calls.LegalPick(Calls.RecoverAll(Run(Start(origin), history), batch), pick, locked)
    ensures var recovered := Calls.RecoverAll(Run(Start(origin), history), batch);
            var (t, answer) := Calls.ClaimDelivery(Run(Start(origin), history), name, lease, token, batch, pick);
            && answer.Ok?
            && (answer.value.Some? <==> Choices.WorkIsFree(recovered, locked))
            && (answer.value.Some? ==>
                  && pick.Some? && pick.value in recovered.deliveries
                  && Answers.JobPromise(recovered, pick.value, TrimSpace(name), token, lease, t, answer.value.value))
  {
    var s := Run(Start(origin), history);
    ReachableInv(origin, history);
    Choices.JobIffFreeCandidate(s, name, lease, token, batch, pick, locked);
    if pick.Some? {
      Calls.RecoveryKeepsInv(s, batch);
      Answers.ConsistentUnderInv(Calls.RecoverAll(s, batch), pick.value);
      TrimIsIdempotent(name);
      Answers.ClaimAnswers(Calls.RecoverAll(s, batch), pick.value, TrimSpace(name), token, lease);
    }
  }

  lemma TablesAreUnique(origin: Time, history: seq<Step>)
    ensures KeysUnique(Run(Start(origin), history).events)
    ensures EventsUnique(Run(Start(origin), history).deliveries)
  {
    ReachableInv(origin, history);
  }

  class Store {
    var now: Time
    var endpoints: map<Id, Endpoint>
    var events: map<Id, Event>
    var deliveries: map<Id, Delivery>
    var attempts: seq<Attempt>
    ghost const origin: Time
    ghost var history: seq<Step>

    function Snapshot(): State
      reads this
    {
      State(now, endpoints, events, deliveries, attempts)
    }

    /** The tables are those of the run of all calls so far. */
    ghost predicate Valid()
      reads this
    {
      Snapshot() == Run(Start(origin), history)
    }

    constructor (now: Time)
      ensures Valid() && origin == now && history == []
    {
      this.origin := now;
      history := [];
      this.now := now;
      endpoints := map[];
      events := map[];
      deliveries := map[];
      attempts := [];
    }

    /** The run with the steps of one more call, before the call has changed anything. */
    ghost method Append(call: Calls.Call)
      requires Valid()
      modifies this`history
      ensures history == old(history) + Calls.StepsOf(call)
      ensures Run(Start(origin), history) == Calls.Perform(Snapshot(), call)
    {
      ReachableInv(origin, history);
      Calls.CallIsARun(Snapshot(), call);
      RunConcat(Start(origin), history, Calls.StepsOf(call));
      history := history + Calls.StepsOf(call);
    }

    /** Time passes between calls; the database clock never goes back. */
    method AdvanceClock(at: Time)
      requires Valid()
      modifies this
      ensures Valid() && history == old(history) + Calls.StepsOf(Calls.TimePasses(at))
      ensures Snapshot() == old(Snapshot()).(now := Max(old(now), at))
    {
      Append(Calls.TimePasses(at));
      if at > now {
        now := at;
      }
    }

    method CreateEndpoint(id: Id, timeout: Duration, maxAttempts: int) returns (result: Result<Endpoint, Calls.Error>)
      requires Valid()
      modifies this
      ensures Valid() && history == old(history) + Calls.StepsOf(Calls.CallCreate(id, timeout, maxAttempts))
      ensures (Snapshot(), result) == Calls.CreateCall(old(Snapshot()), id, timeout, maxAttempts)
      ensures result.Ok? ==> id !in old(endpoints) && EndpointInv(result.value)
    {
      Append(Calls.CallCreate(id, timeout, maxAttempts));
      var limit, budget := timeout, maxAttempts;
      if limit == 0 {
        limit := 5 * SECOND;
      }
      if limit < 100 * MILLISECOND || limit > 30 * SECOND {
        return Err(Calls.Invalid("timeout must be between 100ms and 30s"));
      }
      if budget == 0 {
        budget := 8;
      }
      if !ValidMaxAttempts(budget) {
        return Err(Calls.Invalid("max attempts must be between 1 and 100"));
      }
      if id in endpoints {
        return Err(Calls.Database("insert endpoint"));
      }
      var created := Endpoint(Milliseconds(limit), budget, 0, None, None, now, now);
      endpoints := endpoints[id := created];
      return Ok(created);
    }

    method DisableEndpoint(id: Id) returns (result: Result<Endpoint, Calls.Error>)
      requires Valid()
      modifies this
      ensures Valid() && history == old(history) + Calls.StepsOf(Calls.CallDisable(id))
      ensures (Snapshot(), result) == Calls.DisableCall(old(Snapshot()), id)
      ensures result.Ok? ==> result.value.disabledAt.Some?
      ensures id in old(endpoints) && old(endpoints)[id].disabledAt.Some? ==> Snapshot() == old(Snapshot())
    {
      Append(Calls.CallDisable(id));
      if id !in endpoints {
        return Err(Calls.NotFound);
      }
      var e := endpoints[id];
      var disabledAt := if e.disabledAt.Some? then e.disabledAt.value else now;
      var updatedAt := if e.disabledAt.None? then now else e.updatedAt;
      e := e.(disabledAt := Some(disabledAt), updatedAt := updatedAt);
      endpoints := endpoints[id := e];
      return Ok(e);
    }

    /** The UNIQUE constraints on events and deliveries make both look-ups unambiguous. */
    method EnqueueEvent(p: EnqueueParams) returns (result: Result<Calls.Enqueued, Calls.Error>)
      requires Valid()
      modifies this
      ensures Valid() && history == old(history) + Calls.StepsOf(Calls.CallEnqueue(p))
      ensures (Snapshot(), result) == Calls.EnqueueEvent(old(Snapshot()), p)
      ensures Answers.EnqueuePromise(old(Snapshot()), p, Snapshot(), result)
    {
      TablesAreUnique(origin, history);
      Append(Calls.CallEnqueue(p));
      result := Upsert(p);
      Answers.EnqueuedDeliveryIsClaimable(origin, old(history), p);
    }

    /** Event and delivery, each new or already there. */
    method Upsert(p: EnqueueParams) returns (result: Result<Calls.Enqueued, Calls.Error>)
      requires KeysUnique(events) && EventsUnique(deliveries)
      modifies this`events, this`deliveries
      ensures (Snapshot(), result) == Calls.EnqueueEvent(old(Snapshot()), p)
    {
      if p.endpointId !in endpoints {
        return Err(Calls.NotFound);
      }
      var maxAttempts := endpoints[p.endpointId].maxAttempts;
      if endpoints[p.endpointId].disabledAt.Some? {
        return Err(Calls.EndpointDisabled);
      }

      var newEvents := events;
      var eventId := p.eventId;
      if e :| e in events && SameKey(events[e], p) {
        assert Calls.EventFor(old(Snapshot()), p) == Some(e);
        eventId := e;
        if events[e].eventType != p.eventType || events[e].payload != p.payload {
          return Err(Calls.IdempotencyConflict);
        }
      } else {
        if p.eventId in events {
          return Err(Calls.Database("upsert event"));
        }
        newEvents := events[p.eventId := Event(p.endpointId, p.eventType, p.payload, p.idempotencyKey, now)];
      }
      var duplicate := eventId != p.eventId;

      var newDeliveries := deliveries;
      var deliveryId := p.deliveryId;
      if d :| d in deliveries && deliveries[d].eventId == eventId {
        assert Calls.DeliveryFor(old(Snapshot()), eventId) == Some(d);
        deliveryId := d;
      } else {
        if p.deliveryId in deliveries {
          return Err(Calls.Database("upsert delivery"));
        }
        newDeliveries := deliveries[p.deliveryId := FreshDelivery(eventId, p.endpointId, maxAttempts, now)];
      }
      events := newEvents;
      deliveries := newDeliveries;
      return Ok(Calls.Enqueued(eventId, newEvents[eventId], deliveryId, newDeliveries[deliveryId], duplicate));
    }

    /** The rows that the recovery update returns, read one by one. */
    method ScanRecovered(batch: seq<Id>) returns (recovered: seq<RecoveredLease>)
      requires forall i :: 0 <= i < |batch| ==> Expired(Snapshot(), batch[i])
      ensures Returned(Snapshot(), batch, recovered)
    {
      recovered := [];
      for i := 0 to |batch|
        invariant Returned(Snapshot(), batch[..i], recovered)
      {
        assert Expired(Snapshot(), batch[i]);
        var d := deliveries[batch[i]];
        recovered := recovered + [RecoveredLease(batch[i], d.attemptCount, d.lockedAt.value, now)];
        assert batch[..i + 1] == batch[..i] + [batch[i]];
      }
      assert batch[..|batch|] == batch;
    }

    /** One insertion for each recovered lease, skipped when the row is already there. */
    method InsertRecovered(recovered: seq<RecoveredLease>, ghost before: State, ghost batch: seq<Id>)
      requires Calls.Distinct(batch) && Returned(before, batch, recovered) && attempts == before.attempts
      modifies this`attempts
      ensures attempts == Calls.RecoverAll(before, batch).attempts
    {
      for i := 0 to |recovered|
        invariant attempts == Calls.RecoverAll(before, batch[..i]).attempts
      {
        var item := recovered[i];
        assert Expired(before, batch[i]) && item == ReturnedRow(before, batch[i]);
        Calls.RecoverAllSnoc(before, batch, i);
        if !HasRow(attempts, item.deliveryId, item.attempt) {
          var row := Attempt(item.deliveryId, item.attempt, None, "", LEASE_EXPIRED,
                             DurationMilliseconds(item.completedAt - item.startedAt), item.startedAt, item.completedAt);
          assert row == RecoveryRow(batch[i], before.deliveries[batch[i]], before.now);
          attempts := attempts + [row];
        }
      }
      assert batch[..|recovered|] == batch;
    }

    /** One bulk update, then one insertion for each returned row. The result is the same as
        recovering the leases one after the other. */
    method RecoverExpiredLeases(batch: seq<Id>)
      requires Calls.Distinct(batch) && forall i :: 0 <= i < |batch| ==> Expired(Snapshot(), batch[i])
      modifies this`deliveries, this`attempts
      ensures Snapshot() == Calls.RecoverAll(old(Snapshot()), batch)
    {
      ghost var before := Snapshot();
      var recovered := ScanRecovered(batch);
      deliveries := map x | x in deliveries :: if x in batch then Recovered(deliveries[x], now) else deliveries[x];
      InsertRecovered(recovered, before, batch);
      Calls.RecoverAllRows(before, batch);
      assert deliveries == Calls.RecoverAll(before, batch).deliveries;
    }

    /** Recovery and claim in one transaction. The batch and the pick are the answers of the two
        queries; the token is a new UUID. */
    method ClaimDelivery(workerId: string, lease: Duration, token: string, batch: seq<Id>, pick: Option<Id>,
                         ghost lockedLeases: set<Id>, ghost lockedRows: set<Id>)
      returns (result: Result<Option<Calls.Job>, Calls.Error>)
      requires !Blank(token)
      requires TrimSpace(workerId) != "" && lease >= MILLISECOND ==>
                 && Calls.LegalBatch(Snapshot(), batch, lockedLeases)
                 && Calls.LegalPick(Calls.RecoverAll(Snapshot(), batch), pick, lockedRows)
      requires Valid()
      modifies this
      ensures Valid() && history == old(history) + Calls.StepsOf(Calls.CallClaim(workerId, lease, token, batch, pick))
      ensures (Snapshot(), result) == Calls.ClaimDelivery(old(Snapshot()), workerId, lease, token, batch, pick)
      ensures result.Ok? <==> TrimSpace(workerId) != "" && lease >= MILLISECOND
      ensures result.Ok? ==>
                var recovered := Calls.RecoverAll(old(Snapshot()), batch);
                && (result.value.Some? <==> Choices.WorkIsFree(recovered, lockedRows))
                && (result.value.Some? ==>
                      && pick.Some? && pick.value in recovered.deliveries
                      && Answers.JobPromise(recovered, pick.value, TrimSpace(workerId), token, lease,
                                            Snapshot(), result.value.value))
      ensures result.Err? ==> Snapshot() == old(Snapshot())
    {
      Append(Calls.CallClaim(workerId, lease, token, batch, pick));
      var worker := TrimSpace(workerId);
      if worker == "" {
        return Err(Calls.Invalid("worker id is required"));
      }
      if lease < MILLISECOND {
        return Err(Calls.Invalid("lease duration must be at least one millisecond"));
      }
      ClaimKeepsPromise(origin, old(history), workerId, lease, token, batch, pick, lockedRows);
      RecoverExpiredLeases(batch);
      result := Ok(None);
      if pick.Some? {
        var id := pick.value;
        LeaseRow(id, worker, token, lease);
        if deliveries[id].eventId in events {
          var d := deliveries[id];
          result := Ok(Some(Calls.Job(id, d, events[d.eventId], endpoints[d.endpointId])));
        }
      }
    }

    /** The update of the claim query. */
    method LeaseRow(id: Id, worker: string, token: string, lease: Duration)
      requires Enabled(Snapshot(), Claim(id, worker, token, lease))
      modifies this`deliveries
      ensures Snapshot() == Apply(old(Snapshot()), Claim(id, worker, token, lease))
      ensures id in deliveries && deliveries[id].endpointId in endpoints
    {
      var d := deliveries[id];
      deliveries := deliveries[id := d.(status := Processing,
                                        attemptCount := d.attemptCount + 1,
                                        lockedBy := Some(worker),
                                        leaseToken := Some(token),
                                        lockedAt := Some(now),
                                        lockedUntil := Some(now + Milliseconds(lease) * MILLISECOND),
                                        updatedAt := now)];
    }

    /** The endpoint update that ends a finish. */
    method UpdateCircuit(e: Endpoint, r: AttemptResult) returns (updated: Endpoint)
      ensures updated == CircuitAfter(e, r, now)
    {
      updated := e;
      match r.circuitOutcome
      case CircuitFailure =>
        var failures := e.consecutiveFailures + 1;
        if failures >= r.circuitThreshold {
          var current := if e.circuitOpenUntil.Some? then e.circuitOpenUntil.value else now;
          var cooled := now + Milliseconds(r.circuitCooldown) * MILLISECOND;
          updated := updated.(circuitOpenUntil := Some(if cooled > current then cooled else current));
        }
        updated := updated.(consecutiveFailures := failures, updatedAt := now);
      case CircuitSuccess =>
        updated := updated.(consecutiveFailures := 0, circuitOpenUntil := None, updatedAt := now);
      case _ =>
    }

    method FinishAttempt(r: AttemptResult) returns (result: Result<Status, Calls.Error>)
      requires Valid()
      modifies this
      ensures Valid() && history == old(history) + Calls.StepsOf(Calls.CallFinish(r))
      ensures (Snapshot(), result) == Calls.FinishAttempt(old(Snapshot()), r)
      ensures result.Ok? <==> Acceptable(r) && LeaseIsOpen(origin, old(history), r)
      ensures result.Err? ==> Snapshot() == old(Snapshot())
    {
      OpenLeaseDecides(origin, history, r);
      Append(Calls.CallFinish(r));
      var objection := ValidateAttemptResult(r);
      if objection.Some? {
        return Err(Calls.Invalid(objection.value));
      }
      if !HoldsLease(Snapshot(), r) {
        return Err(Calls.LeaseLost);
      }
      var d := deliveries[r.deliveryId];
      var again := r.decision == Retry && d.attemptCount < d.maxAttempts;
      var finished := d.(
        status := if r.decision == Succeed then Succeeded else if again then Retrying else Dead,
        nextAttemptAt := if again then r.nextAttemptAt else d.nextAttemptAt,
        lockedBy := None, leaseToken := None, lockedAt := None, lockedUntil := None,
        lastStatusCode := r.statusCode, lastError := r.errorMessage, lastCompletedAt := Some(r.completedAt),
        updatedAt := now);
      assert finished == Finished(d, r, now);
      if HasRow(attempts, r.deliveryId, r.attemptNumber) {
        return Err(Calls.Database("record delivery attempt"));
      }
      var row := Attempt(r.deliveryId, r.attemptNumber, r.statusCode, r.responseBody, r.errorMessage,
                         DurationMilliseconds(r.duration), r.startedAt, r.completedAt);
      var newEndpoints := endpoints;
      if d.endpointId in endpoints {
        var e := UpdateCircuit(endpoints[d.endpointId], r);
        newEndpoints := endpoints[d.endpointId := e];
      }
      deliveries := deliveries[r.deliveryId := finished];
      attempts := attempts + [row];
      endpoints := newEndpoints;
      return Ok(finished.status);
    }

    method ReplayDelivery(id: Id) returns (result: Result<Delivery, Calls.Error>)
      requires Valid()
      modifies this
      ensures Valid() && history == old(history) + Calls.StepsOf(Calls.CallReplay(id))
      ensures (Snapshot(), result) == Calls.ReplayDelivery(old(Snapshot()), id)
      ensures id in old(deliveries) ==> old(deliveries)[id].endpointId in old(endpoints)
      ensures Answers.ReplayPromise(old(Snapshot()), id, Snapshot(), result)
      ensures result.Err? ==> Snapshot() == old(Snapshot())
    {
      Answers.ConsistentRun(origin, history, id);
      Answers.ReplayAnswers(Snapshot(), id);
      Append(Calls.CallReplay(id));
      if id !in deliveries || deliveries[id].endpointId !in endpoints {
        return Err(Calls.NotFound);
      }
      var d := deliveries[id];
      var budget := endpoints[d.endpointId].maxAttempts;
      if endpoints[d.endpointId].disabledAt.Some? {
        return Err(Calls.EndpointDisabled);
      }
      if d.status != Dead || d.maxAttempts > MAX_INT32 - budget {
        return Err(Calls.NotReplayable);
      }
      d := d.(status := Pending, maxAttempts := d.maxAttempts + budget, nextAttemptAt := now, updatedAt := now);
      deliveries := deliveries[id := d];
      return Ok(d);
    }

    /** The attempt rows of a delivery, read one by one. */
    method ScanAttempts(id: Id) returns (found: seq<AttemptView>)
      ensures found == Views(Rows(attempts, id))
    {
      found := [];
      for i := 0 to |attempts|
        invariant found == Views(Rows(attempts[..i], id))
      {
        RowsSnoc(attempts[..i], attempts[i], id);
        assert attempts[..i + 1] == attempts[..i] + [attempts[i]];
        if attempts[i].deliveryId == id {
          found := found + [View(attempts[i])];
        }
      }
      assert attempts[..|attempts|] == attempts;
    }

    /** A delivery with its attempt history. It is found exactly when it exists, and the history is
        complete and ordered: attempt k + 1 stands at position k, up to the last recorded one. */
    method GetDelivery(id: Id) returns (result: Result<Details, Calls.Error>)
      requires Valid()
      ensures result.Ok? <==> id in deliveries
      ensures result.Err? ==> result.error == Calls.NotFound
      ensures result.Ok? ==>
                && deliveries[id].eventId in events
                && result.value == Details(deliveries[id], events[deliveries[id].eventId], Views(Rows(attempts, id)))
                && |result.value.attempts| == Recorded(deliveries[id])
                && (forall k :: 0 <= k < |result.value.attempts| ==>
                      && result.value.attempts[k].row == Rows(attempts, id)[k]
                      && result.value.attempts[k].row.number == k + 1
                      && result.value.attempts[k].duration == result.value.attempts[k].row.durationMs * 1_000_000)
    {
      ReachableInv(origin, history);
      if id !in deliveries || deliveries[id].eventId !in events {
        return Err(Calls.NotFound);
      }
      var found := ScanAttempts(id);
      assert DeliveryInv(Snapshot().deliveries[id], Rows(Snapshot().attempts, id), now);
      return Ok(Details(deliveries[id], events[deliveries[id].eventId], found));
    }
  }

  /** Results about runs are results about the object: whatever calls it has served, its tables meet
      every constraint of the schema, and no insertion of an attempt can collide. */
  lemma ObjectMeetsSchema(store: Store)
    requires store.Valid()
    ensures Guarantees.Schema(store.Snapshot())
    ensures forall r :: Enabled(store.Snapshot(), Finish(r)) <==> Acceptable(r) && HoldsLease(store.Snapshot(), r)
  {
    Guarantees.SchemaIsATheorem(store.origin, store.history);
    Guarantees.InsertionsNeverCollide(store.origin, store.history, store.Snapshot());
  }
}
