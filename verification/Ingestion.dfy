/** Idempotent ingestion: one event and one delivery per endpoint and key, for any sequence of calls. */
module Ingestion {
  import opened Prelude
  import opened DeliveryModel
  import opened Queue
  import opened QueueInvariant
  import opened Calls

  /** Stored events never change, and a stored delivery keeps its event and endpoint. */
  lemma StepKeepsStored(s: State, step: Step, e: Id, id: Id)
    ensures e in s.events ==> e in Apply(s, step).events && Apply(s, step).events[e] == s.events[e]
    ensures id in s.deliveries ==>
              && id in Apply(s, step).deliveries
              && Apply(s, step).deliveries[id].eventId == s.deliveries[id].eventId
              && Apply(s, step).deliveries[id].endpointId == s.deliveries[id].endpointId
  {}

  lemma {:induction false} RunKeepsStored(s: State, steps: seq<Step>, e: Id, id: Id)
    ensures e in s.events ==> e in Run(s, steps).events && Run(s, steps).events[e] == s.events[e]
    ensures id in s.deliveries ==>
              && id in Run(s, steps).deliveries
              && Run(s, steps).deliveries[id].eventId == s.deliveries[id].eventId
              && Run(s, steps).deliveries[id].endpointId == s.deliveries[id].endpointId
  {
    if steps != [] {
      var m := |steps| - 1;
      RunKeepsStored(s, steps[..m], e, id);
      StepKeepsStored(Run(s, steps[..m]), steps[m], e, id);
    }
  }

  /** A call that stores something answers with its own two ids and no duplicate flag. */
  lemma NewEventIsNoDuplicate(s: State, p: EnqueueParams)
    requires Enabled(s, Enqueue(p))
    ensures var result := EnqueueEvent(s, p).1;
            && result.Ok?
            && result.value.eventId == p.eventId && result.value.deliveryId == p.deliveryId
            && !result.value.duplicate
            && result.value.delivery.status == Pending && result.value.delivery.attemptCount == 0
  {}

  predicate SameEvent(p: EnqueueParams, q: EnqueueParams) {
    p.eventType == q.eventType && p.payload == q.payload
  }

  predicate SameIngestKey(p: EnqueueParams, q: EnqueueParams) {
    p.endpointId == q.endpointId && p.idempotencyKey == q.idempotencyKey
  }

  /** With an event and its delivery stored under the key, a call for that key changes nothing. */
  lemma StoredKeyAnswers(s: State, e: Id, id: Id, q: EnqueueParams)
    requires Inv(s)
    requires e in s.events && SameKey(s.events[e], q)
    requires id in s.deliveries && s.deliveries[id].eventId == e
    ensures EnqueueEvent(s, q).0 == s
    ensures EnqueueEvent(s, q).1 ==
      if s.endpoints[q.endpointId].disabledAt.Some? then Err(EndpointDisabled)
      else if s.events[e].eventType != q.eventType || s.events[e].payload != q.payload then Err(IdempotencyConflict)
      else Ok(Enqueued(e, s.events[e], id, s.deliveries[id], e != q.eventId))
  {
    assert EventFor(s, q) == Some(e);
    assert DeliveryFor(s, e) == Some(id);
  }

  /** Idempotence over whole runs. Once a call has stored its event, every later call with the same
      endpoint and key, after anything whatever, changes no table. If the endpoint is enabled it
      returns the two original ids and the delivery as it stands when type and payload agree, and a
      conflict when they do not. */
  lemma RepeatedCallsChangeNothing(now: Time, before: seq<Step>, p: EnqueueParams, after: seq<Step>, q: EnqueueParams)
    requires Enabled(Run(Start(now), before), Enqueue(p)) && SameIngestKey(p, q)
    ensures var t := Run(Start(now), before + [Enqueue(p)] + after);
            && EnqueueEvent(t, q).0 == t
            && p.endpointId in t.endpoints && p.deliveryId in t.deliveries
            && var answer := EnqueueEvent(t, q).1;
            if t.endpoints[p.endpointId].disabledAt.Some? then answer == Err(EndpointDisabled)
            else if !SameEvent(p, q) then answer == Err(IdempotencyConflict)
            else
              && answer.Ok?
              && answer.value.eventId == p.eventId
              && answer.value.deliveryId == p.deliveryId
              && answer.value.delivery == t.deliveries[p.deliveryId]
              && answer.value.event.eventType == p.eventType && answer.value.event.payload == p.payload
              && answer.value.duplicate == (q.eventId != p.eventId)
  {
    var s := Run(Start(now), before + [Enqueue(p)]);
    RunSnoc(Start(now), before, Enqueue(p));
    RunConcat(Start(now), before + [Enqueue(p)], after);
    RunKeepsStored(s, after, p.eventId, p.deliveryId);
    ReachableInv(now, before + [Enqueue(p)] + after);
    var t := Run(s, after);
    assert t.events[p.eventId].endpointId in t.endpoints;
    StoredKeyAnswers(t, p.eventId, p.deliveryId, q);
  }

  /** At most one call of a run stores an event for an endpoint and key. */
  lemma KeyIsStoredOnce(now: Time, steps: seq<Step>, i: int, j: int)
    requires 0 <= i < j < |steps| && steps[i].Enqueue? && steps[j].Enqueue?
    requires Commits(Start(now), steps, i) && SameIngestKey(steps[i].params, steps[j].params)
    ensures !Commits(Start(now), steps, j)
  {
    var after := steps[i + 1..j];
    assert steps[..j] == steps[..i] + [steps[i]] + after;
    RunSnoc(Start(now), steps[..i], steps[i]);
    RunConcat(Start(now), steps[..i] + [steps[i]], after);
    RunKeepsStored(Run(Start(now), steps[..i] + [steps[i]]), after, steps[i].params.eventId, "");
  }

  ghost predicate KeyStored(s: State, p: EnqueueParams) {
    exists e :: e in s.events && SameKey(s.events[e], p)
  }

  /** The duplicate flag compares ids, so it tells the truth for a caller whose event id is new. */
  lemma DuplicateFlagForFreshId(s: State, p: EnqueueParams)
    requires p.eventId !in s.events && EnqueueEvent(s, p).1.Ok?
    ensures EnqueueEvent(s, p).1.value.duplicate <==> KeyStored(s, p)
  {}
}
