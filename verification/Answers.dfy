/** What each call promises its caller, in the columns of the rows it leaves behind. */
module Answers {
  import opened Prelude
  import opened DeliveryModel
  import opened AttemptResults
  import opened Queue
  import opened QueueInvariant
  import opened Calls
  import opened Fencing
  import opened Ingestion

  /** The endpoint takes deliveries, in its columns. */
  predicate Serves(e: Endpoint, now: Time) {
    e.disabledAt.None? && (e.circuitOpenUntil.None? || e.circuitOpenUntil.value <= now)
  }

  /** What the invariant says of one row. */
  predicate Consistent(s: State, id: Id) {
    id in s.deliveries ==>
      && s.deliveries[id].eventId in s.events
      && s.deliveries[id].endpointId in s.endpoints
      && BudgetInv(s.deliveries[id]) && LockInv(s.deliveries[id], s.now)
  }

  lemma ConsistentUnderInv(s: State, id: Id)
    requires Inv(s)
    ensures Consistent(s, id)
  {
    if id in s.deliveries {
      assert DeliveryInv(s.deliveries[id], Rows(s.attempts, id), s.now);
    }
  }

  lemma ConsistentRun(now: Time, steps: seq<Step>, id: Id)
    ensures Consistent(Run(Start(now), steps), id)
  {
    ReachableInv(now, steps);
    ConsistentUnderInv(Run(Start(now), steps), id);
  }

  // ---------------------------------------------------------------- replay

  /** A replay is accepted exactly for a dead delivery whose endpoint is not disabled and whose limit
      still fits in 32 bits, whether its budget is exhausted or not. The answer is the stored row: it
      waits from now on with the endpoint's limit added, its attempts and last outcome as they were. */
  predicate ReplayPromise(s: State, id: Id, t: State, answer: Result<Delivery, Error>)
    requires id in s.deliveries ==> s.deliveries[id].endpointId in s.endpoints
  {
    if id !in s.deliveries then answer == Err(NotFound) && t == s
    else
      var d, e := s.deliveries[id], s.endpoints[s.deliveries[id].endpointId];
      && (answer.Ok? <==> d.status == Dead && e.disabledAt.None? && d.maxAttempts + e.maxAttempts <= 0x7fff_ffff)
      && (answer.Err? ==> t == s && answer.error == if e.disabledAt.Some? then EndpointDisabled else NotReplayable)
      && (answer.Ok? ==>
            && t == s.(deliveries := s.deliveries[id := answer.value])
            && answer.value == d.(status := Pending, nextAttemptAt := s.now,
                                  maxAttempts := d.maxAttempts + e.maxAttempts, updatedAt := s.now))
  }

  lemma ReplayAnswers(s: State, id: Id)
    requires Consistent(s, id)
    ensures ReplayPromise(s, id, ReplayDelivery(s, id).0, ReplayDelivery(s, id).1)
  {}

  lemma PendingIsClaimable(s: State, id: Id, d: Delivery, e: Endpoint)
    requires id in s.deliveries && s.deliveries[id] == d && d.endpointId in s.endpoints && s.endpoints[d.endpointId] == e
    requires d.status == Pending || d.status == Retrying
    requires d.nextAttemptAt <= s.now && d.attemptCount < d.maxAttempts
    ensures Candidate(s, id) <==> Serves(e, s.now)
  {}

  lemma EndpointHasBudget(s: State, e: Id)
    requires EndpointsInv(s) && e in s.endpoints
    ensures s.endpoints[e].maxAttempts >= 1
  {}

  /** After any run a replay does what it promises, and the delivery can be claimed at once unless
      its endpoint is cooling down. */
  lemma ReplayedDeliveryIsClaimable(now: Time, steps: seq<Step>, id: Id)
    ensures var s := Run(Start(now), steps);
            var (t, answer) := ReplayDelivery(s, id);
            && (id in s.deliveries ==> s.deliveries[id].endpointId in s.endpoints)
            && ReplayPromise(s, id, t, answer)
            && (answer.Ok? ==> (Candidate(t, id) <==> Serves(s.endpoints[s.deliveries[id].endpointId], s.now)))
  {
    var s := Run(Start(now), steps);
    var (t, answer) := ReplayDelivery(s, id);
    ConsistentRun(now, steps, id);
    ReplayAnswers(s, id);
    if answer.Ok? {
      var e := s.deliveries[id].endpointId;
      ReachableInv(now, steps);
      EndpointHasBudget(s, e);
      PendingIsClaimable(t, id, answer.value, s.endpoints[e]);
    }
  }

  // ---------------------------------------------------------------- recovery

  /** A recovery closes exactly the leases whose end has come. The delivery waits from now on while
      its budget lasts, is dead otherwise, and gives up its lock. */
  predicate RecoveryPromise(s: State, id: Id, t: State)
    requires id in s.deliveries && s.deliveries[id].endpointId in s.endpoints
  {
    var d := s.deliveries[id];
    if d.status == Processing && d.lockedUntil.Some? && d.lockedUntil.value <= s.now then
      && id in t.deliveries
      && var d' := t.deliveries[id];
      && d'.lockedBy.None? && d'.leaseToken.None? && d'.lockedAt.None? && d'.lockedUntil.None?
      && d'.attemptCount == d.attemptCount && d'.maxAttempts == d.maxAttempts
      && d'.lastError == "delivery lease expired" && d'.lastCompletedAt == Some(s.now)
      && d'.lastStatusCode == d.lastStatusCode && d'.updatedAt == s.now
      && t.endpoints == s.endpoints && t.events == s.events && t.now == s.now
      && (if d.attemptCount < d.maxAttempts
          then d'.status == Retrying && d'.nextAttemptAt == s.now
               && (Candidate(t, id) <==> Serves(s.endpoints[d.endpointId], s.now))
          else d'.status == Dead && d'.nextAttemptAt == d.nextAttemptAt)
    else t == s
  }

  lemma RecoveryAnswers(s: State, id: Id)
    requires Consistent(s, id) && id in s.deliveries
    ensures RecoveryPromise(s, id, Apply(s, Recover(id)))
  {}

  /** After any run, recovery does what it promises. */
  lemma RecoveredDeliveryIsClaimable(now: Time, steps: seq<Step>, id: Id)
    requires id in Run(Start(now), steps).deliveries
    ensures var s := Run(Start(now), steps);
            && s.deliveries[id].endpointId in s.endpoints
            && RecoveryPromise(s, id, Apply(s, Recover(id)))
  {
    ConsistentRun(now, steps, id);
    RecoveryAnswers(Run(Start(now), steps), id);
  }

  // ---------------------------------------------------------------- ingestion

  /** No stored event has this endpoint and key. */
  ghost predicate KeyIsNew(s: State, p: EnqueueParams) {
    forall e | e in s.events :: s.events[e].endpointId != p.endpointId || s.events[e].idempotencyKey != p.idempotencyKey
  }

  /** An enqueue stores something exactly for a known endpoint that is not disabled, a new key and new
      ids: the event as it was given, and its delivery, which can be claimed at once unless the
      endpoint is cooling down. */
  ghost predicate EnqueuePromise(s: State, p: EnqueueParams, t: State, answer: Result<Enqueued, Error>) {
    && (answer == Err(NotFound) <==> p.endpointId !in s.endpoints)
    && (answer == Err(EndpointDisabled) <==> p.endpointId in s.endpoints && s.endpoints[p.endpointId].disabledAt.Some?)
    && (t != s <==> p.endpointId in s.endpoints && s.endpoints[p.endpointId].disabledAt.None?
                    && KeyIsNew(s, p) && p.eventId !in s.events && p.deliveryId !in s.deliveries)
    && (t != s ==>
          && answer.Ok?
          && t == s.(events := s.events[p.eventId := answer.value.event],
                     deliveries := s.deliveries[p.deliveryId := answer.value.delivery])
          && answer.value.event == Event(p.endpointId, p.eventType, p.payload, p.idempotencyKey, s.now)
          && var d := answer.value.delivery;
          && d.eventId == p.eventId && d.endpointId == p.endpointId && d.status == Pending
          && d.attemptCount == 0 && d.maxAttempts == s.endpoints[p.endpointId].maxAttempts
          && d.nextAttemptAt == s.now && d.createdAt == s.now && d.updatedAt == s.now
          && (Candidate(t, p.deliveryId) <==> Serves(s.endpoints[p.endpointId], s.now)))
  }

  lemma StoringAnswers(s: State, p: EnqueueParams)
    requires Enabled(s, Enqueue(p)) && s.endpoints[p.endpointId].maxAttempts >= 1
    ensures EnqueueEvent(s, p).1.Ok?
    ensures Commit(s, Enqueue(p)) != s
    ensures EnqueuePromise(s, p, Commit(s, Enqueue(p)), EnqueueEvent(s, p).1)
  {
    assert p.deliveryId in Commit(s, Enqueue(p)).deliveries;
  }

  lemma RefusingAnswers(s: State, p: EnqueueParams)
    ensures EnqueueEvent(s, p).1 == Err(NotFound) <==> p.endpointId !in s.endpoints
    ensures EnqueueEvent(s, p).1 == Err(EndpointDisabled)
       <==> p.endpointId in s.endpoints && s.endpoints[p.endpointId].disabledAt.Some?
  {}

  lemma NewKeyEnables(s: State, p: EnqueueParams)
    requires Linked(s)
    ensures Enabled(s, Enqueue(p))
       <==> (&& p.endpointId in s.endpoints && s.endpoints[p.endpointId].disabledAt.None?
             && KeyIsNew(s, p) && p.eventId !in s.events && p.deliveryId !in s.deliveries)
  {}

  lemma EnqueueAnswers(s: State, p: EnqueueParams)
    requires Linked(s) && EnqueueEvent(s, p).0 == Apply(s, Enqueue(p))
    requires p.endpointId in s.endpoints ==> s.endpoints[p.endpointId].maxAttempts >= 1
    ensures EnqueuePromise(s, p, EnqueueEvent(s, p).0, EnqueueEvent(s, p).1)
  {
    NewKeyEnables(s, p);
    if Enabled(s, Enqueue(p)) {
      StoringAnswers(s, p);
    } else {
      RefusingAnswers(s, p);
    }
  }

  /** After any run, an enqueue does what it promises. */
  lemma EnqueuedDeliveryIsClaimable(now: Time, steps: seq<Step>, p: EnqueueParams)
    ensures var s := Run(Start(now), steps);
            EnqueuePromise(s, p, EnqueueEvent(s, p).0, EnqueueEvent(s, p).1)
  {
    var s := Run(Start(now), steps);
    ReachableInv(now, steps);
    EnqueueIsAStep(s, p);
    EnqueueAnswers(s, p);
  }

  // ---------------------------------------------------------------- claims

  /** The job a claim hands out is the stored delivery, under a lease that starts now. */
  predicate JobPromise(s: State, id: Id, worker: string, token: string, lease: Duration, t: State, job: Job)
    requires id in s.deliveries
  {
    var d := s.deliveries[id];
    && job.deliveryId == id
    && t == s.(deliveries := s.deliveries[id := job.delivery])
    && job.delivery == d.(status := Processing, attemptCount := d.attemptCount + 1,
                          lockedBy := Some(worker), leaseToken := Some(token), lockedAt := Some(s.now),
                          lockedUntil := Some(s.now + lease / 1_000_000 * 1_000_000), updatedAt := s.now)
    && d.eventId in s.events && job.event == s.events[d.eventId]
    && d.endpointId in s.endpoints && job.endpoint == s.endpoints[d.endpointId]
  }

  lemma ClaimAnswers(s: State, id: Id, worker: string, token: string, lease: Duration)
    requires Consistent(s, id) && Enabled(s, Claim(id, worker, token, lease))
    ensures var t := Apply(s, Claim(id, worker, token, lease));
            JobOf(t, id).Some? && JobPromise(s, id, worker, token, lease, t, JobOf(t, id).value)
  {}

  lemma EnqueuedStays(now: Time, steps: seq<Step>, i: int, p: EnqueueParams)
    requires 0 <= i < |steps| && steps[i] == Enqueue(p) && Commits(Start(now), steps, i)
    ensures var s := Run(Start(now), steps);
            && p.eventId in s.events
            && s.events[p.eventId]
               == Event(p.endpointId, p.eventType, p.payload, p.idempotencyKey, At(Start(now), steps, i).now)
            && p.deliveryId in s.deliveries
            && s.deliveries[p.deliveryId].eventId == p.eventId && s.deliveries[p.deliveryId].endpointId == p.endpointId
  {
    RunAfterStep(Start(now), steps, i);
    RunKeepsStored(Apply(At(Start(now), steps, i), Enqueue(p)), steps[i + 1..], p.eventId, p.deliveryId);
  }

  /** What was published is what is sent. However long ago a call stored an event, and whatever
      happened since, a claim that picks its delivery hands out that event with the same type, payload
      and key, the endpoint it was meant for, and the next attempt number. */
  lemma JobCarriesTheEvent(now: Time, steps: seq<Step>, i: int, p: EnqueueParams,
                           name: string, lease: Duration, token: string, batch: seq<Id>)
    requires 0 <= i < |steps| && steps[i] == Enqueue(p) && Commits(Start(now), steps, i)
    requires TrimSpace(name) != "" && lease >= MILLISECOND && !Blank(token)
    requires Candidate(RecoverAll(Run(Start(now), steps), batch), p.deliveryId)
    ensures var s := Run(Start(now), steps);
            var (t, answer) := ClaimDelivery(s, name, lease, token, batch, Some(p.deliveryId));
            && answer.Ok? && answer.value.Some?
            && var job := answer.value.value;
            && job.deliveryId == p.deliveryId
            && job.event == Event(p.endpointId, p.eventType, p.payload, p.idempotencyKey, At(Start(now), steps, i).now)
            && p.endpointId in s.endpoints && job.endpoint == s.endpoints[p.endpointId]
            && job.delivery.attemptCount == |Leases(Start(now), steps, p.deliveryId)| + 1
            && JobPromise(RecoverAll(s, batch), p.deliveryId, TrimSpace(name), token, lease, t, job)
  {
    var s, id := Run(Start(now), steps), p.deliveryId;
    EnqueuedStays(now, steps, i, p);
    LeasesMatchRun(now, steps, id);
    RecoverAllKeeps(s, batch, id);
    ReachableInv(now, steps);
    RecoveryKeepsInv(s, batch);
    ConsistentUnderInv(RecoverAll(s, batch), id);
    TrimIsIdempotent(name);
    ClaimAnswers(RecoverAll(s, batch), id, TrimSpace(name), token, lease);
  }

  // ---------------------------------------------------------------- finish and disable

  /** The status a finish answers is the stored one. */
  lemma FinishAnswersStoredStatus(s: State, r: AttemptResult)
    ensures var (t, answer) := FinishAttempt(s, r);
            answer.Ok? ==> r.deliveryId in t.deliveries && t.deliveries[r.deliveryId].status == answer.value
  {}

  /** Disabling answers the stored row, whose moment is the first. */
  lemma DisableAnswersStoredRow(s: State, id: Id)
    ensures var (t, answer) := DisableCall(s, id);
            && (answer.Ok? <==> id in s.endpoints)
            && (answer.Err? ==> answer.error == NotFound && t == s)
            && (answer.Ok? ==>
                  && t == s.(endpoints := s.endpoints[id := answer.value])
                  && var e := s.endpoints[id];
                  && answer.value == e.(disabledAt := if e.disabledAt.Some? then e.disabledAt else Some(s.now),
                                        updatedAt := if e.disabledAt.Some? then e.updatedAt else s.now))
  {}
}
