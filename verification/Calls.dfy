/** The calls of the store as functions of the tables: the new tables and the answer. What the
    database is free to choose in a query (which rows are locked by others and how ties are broken)
    comes in as an argument, with a predicate that says which choices the query allows. */
module Calls {
  import opened Prelude
  import opened DeliveryModel
  import opened AttemptResults
  import opened Queue
  import opened QueueInvariant

  datatype Error =
    | Invalid(message: string)
    | LeaseLost
    | NotFound
    | EndpointDisabled
    | NotReplayable
    | IdempotencyConflict
    | Database(message: string)

  /** What a claim hands to a worker; the event and endpoint rows come from the query's joins. */
  datatype Job = Job(deliveryId: Id, delivery: Delivery, event: Event, endpoint: Endpoint)

  datatype Enqueued = Enqueued(eventId: Id, event: Event, deliveryId: Id, delivery: Delivery, duplicate: bool)

  // ---------------------------------------------------------------- ClaimDelivery

  const RECOVERY_LIMIT: int := 32

  predicate Distinct(ids: seq<Id>) {
    forall i, j | 0 <= i < j < |ids| :: ids[i] != ids[j]
  }

  /** The recovery query may answer with these rows: expired ones that are not locked, those whose
      lease ran out first if there are more than the limit. */
  ghost predicate LegalBatch(s: State, ids: seq<Id>, locked: set<Id>) {
    && Distinct(ids)
    && |ids| <= RECOVERY_LIMIT
    && (forall i :: 0 <= i < |ids| ==> Expired(s, ids[i]) && ids[i] !in locked)
    && (forall x | Expired(s, x) && x !in locked && x !in ids ::
          && |ids| == RECOVERY_LIMIT
          && forall i :: 0 <= i < |ids| ==> s.deliveries[ids[i]].lockedUntil.value <= s.deliveries[x].lockedUntil.value)
  }

  /** The order of the claim query. */
  predicate NotAfter(a: Delivery, b: Delivery) {
    a.nextAttemptAt < b.nextAttemptAt || (a.nextAttemptAt == b.nextAttemptAt && a.createdAt <= b.createdAt)
  }

  /** The claim query may answer with this row, or with none. */
  ghost predicate LegalPick(s: State, pick: Option<Id>, locked: set<Id>) {
    match pick
    case None => forall x | Candidate(s, x) :: x in locked
    case Some(id) =>
      && Candidate(s, id)
      && id !in locked
      && (forall x | Candidate(s, x) && x !in locked :: NotAfter(s.deliveries[id], s.deliveries[x]))
  }

  /** Recovery, one lease after the other. */
  function RecoverAll(s: State, ids: seq<Id>): State {
    if ids == [] then s
    else Apply(RecoverAll(s, ids[..|ids| - 1]), Recover(ids[|ids| - 1]))
  }

  function JobOf(s: State, id: Id): Option<Job> {
    if id in s.deliveries && s.deliveries[id].eventId in s.events && s.deliveries[id].endpointId in s.endpoints then
      var d := s.deliveries[id];
      Some(Job(id, d, s.events[d.eventId], s.endpoints[d.endpointId]))
    else None
  }

  function ClaimDelivery(s: State, workerId: string, lease: Duration, token: string,
                         batch: seq<Id>, pick: Option<Id>): (State, Result<Option<Job>, Error>)
  {
    var worker := TrimSpace(workerId);
    if worker == "" then (s, Err(Invalid("worker id is required")))
    else if lease < MILLISECOND then (s, Err(Invalid("lease duration must be at least one millisecond")))
    else
      var recovered := RecoverAll(s, batch);
      match pick
      case None => (recovered, Ok(None))
      case Some(id) =>
        var claimed := Apply(recovered, Claim(id, worker, token, lease));
        (claimed, Ok(JobOf(claimed, id)))
  }

  // ---------------------------------------------------------------- FinishAttempt

  function FinishAttempt(s: State, r: AttemptResult): (State, Result<Status, Error>) {
    var objection := ValidateAttemptResult(r);
    if objection.Some? then (s, Err(Invalid(objection.value)))
    else if !HoldsLease(s, r) then (s, Err(LeaseLost))
    else if HasRow(s.attempts, r.deliveryId, r.attemptNumber) then (s, Err(Database("record delivery attempt")))
    else (Commit(s, Finish(r)), Ok(Finished(s.deliveries[r.deliveryId], r, s.now).status))
  }

  // ---------------------------------------------------------------- ReplayDelivery, DisableEndpoint, CreateEndpoint

  function ReplayDelivery(s: State, id: Id): (State, Result<Delivery, Error>) {
    if id !in s.deliveries || s.deliveries[id].endpointId !in s.endpoints then (s, Err(NotFound))
    else
      var d := s.deliveries[id];
      var e := s.endpoints[d.endpointId];
      if e.disabledAt.Some? then (s, Err(EndpointDisabled))
      else if d.status != Dead || d.maxAttempts > MAX_INT32 - e.maxAttempts then (s, Err(NotReplayable))
      else (Commit(s, Replay(id)), Ok(Replayed(d, e.maxAttempts, s.now)))
  }

  function DisableCall(s: State, id: Id): (State, Result<Endpoint, Error>) {
    if id !in s.endpoints then (s, Err(NotFound))
    else (Commit(s, DisableEndpoint(id)), Ok(Disabled(s.endpoints[id], s.now)))
  }

  /** The endpoint service fills in missing limits before it checks them. */
  function TimeoutOrDefault(timeout: Duration): Duration {
    if timeout == 0 then 5 * SECOND else timeout
  }

  function AttemptsOrDefault(maxAttempts: int): int {
    if maxAttempts == 0 then 8 else maxAttempts
  }

  predicate ValidTimeout(timeout: Duration) {
    100 * MILLISECOND <= timeout <= 30 * SECOND
  }

  /** The checks of the endpoint service (internal/endpoint), then the insertion of the store. */
  function CreateCall(s: State, id: Id, timeout: Duration, maxAttempts: int): (State, Result<Endpoint, Error>) {
    var (limit, budget) := (TimeoutOrDefault(timeout), AttemptsOrDefault(maxAttempts));
    var step := CreateEndpoint(id, Milliseconds(limit), budget);
    if !ValidTimeout(limit) then (s, Err(Invalid("timeout must be between 100ms and 30s")))
    else if !ValidMaxAttempts(budget) then (s, Err(Invalid("max attempts must be between 1 and 100")))
    else if id in s.endpoints then (s, Err(Database("insert endpoint")))
    else (Commit(s, step), Ok(Commit(s, step).endpoints[id]))
  }

  // ---------------------------------------------------------------- EnqueueEvent

  /** The stored event with this endpoint and key. */
  ghost function EventFor(s: State, p: EnqueueParams): (found: Option<Id>)
    ensures found.Some? ==> found.value in s.events && SameKey(s.events[found.value], p)
    ensures found.None? ==> forall e :: e in s.events ==> !SameKey(s.events[e], p)
  {
    if e :| e in s.events && SameKey(s.events[e], p) then Some(e) else None
  }

  /** The stored delivery of an event. */
  ghost function DeliveryFor(s: State, e: Id): (found: Option<Id>)
    ensures found.Some? ==> found.value in s.deliveries && s.deliveries[found.value].eventId == e
    ensures found.None? ==> forall d :: d in s.deliveries ==> s.deliveries[d].eventId != e
  {
    if d :| d in s.deliveries && s.deliveries[d].eventId == e then Some(d) else None
  }

  /** The second insertion: the event's delivery, new or already there. */
  ghost function UpsertDelivery(s: State, p: EnqueueParams, e: Id, events: map<Id, Event>, maxAttempts: int):
    (State, Result<Enqueued, Error>)
    requires e in events
  {
    var duplicate := e != p.eventId;
    match DeliveryFor(s, e)
    case Some(d) =>
      (s.(events := events), Ok(Enqueued(e, events[e], d, s.deliveries[d], duplicate)))
    case None =>
      if p.deliveryId in s.deliveries then (s, Err(Database("upsert delivery")))
      else
        var row := FreshDelivery(e, p.endpointId, maxAttempts, s.now);
        (s.(events := events, deliveries := s.deliveries[p.deliveryId := row]),
         Ok(Enqueued(e, events[e], p.deliveryId, row, duplicate)))
  }

  ghost function EnqueueEvent(s: State, p: EnqueueParams): (State, Result<Enqueued, Error>) {
    if p.endpointId !in s.endpoints then (s, Err(NotFound))
    else if s.endpoints[p.endpointId].disabledAt.Some? then (s, Err(EndpointDisabled))
    else
      var maxAttempts := s.endpoints[p.endpointId].maxAttempts;
      match EventFor(s, p)
      case Some(e) =>
        if s.events[e].eventType != p.eventType || s.events[e].payload != p.payload
        then (s, Err(IdempotencyConflict))
        else UpsertDelivery(s, p, e, s.events, maxAttempts)
      case None =>
        if p.eventId in s.events then (s, Err(Database("upsert event")))
        else
          var row := Event(p.endpointId, p.eventType, p.payload, p.idempotencyKey, s.now);
          UpsertDelivery(s, p, p.eventId, s.events[p.eventId := row], maxAttempts)
  }

  // ---------------------------------------------------------------- calls are runs of steps

  lemma FinishIsOkIff(s: State, r: AttemptResult)
    ensures FinishAttempt(s, r).1.Ok? <==> Enabled(s, Finish(r))
  {}

  /** In a state with the invariant, a finish commits exactly when the step is enabled; every other
      answer is an error that changes nothing, and only two errors are possible. */
  lemma FinishIsAStep(s: State, r: AttemptResult)
    requires Inv(s)
    ensures FinishAttempt(s, r).0 == Apply(s, Finish(r))
    ensures FinishAttempt(s, r).1.Ok? <==> Enabled(s, Finish(r))
    ensures FinishAttempt(s, r).1.Err? ==>
              FinishAttempt(s, r).1.error == if Acceptable(r) then LeaseLost else Invalid(ValidateAttemptResult(r).value)
  {
    FinishIsOkIff(s, r);
    if HoldsLease(s, r) {
      NextNumberIsFree(s, r.deliveryId);
    }
    FinishErrors(s, r);
  }

  lemma FinishErrors(s: State, r: AttemptResult)
    requires HoldsLease(s, r) ==> !HasRow(s.attempts, r.deliveryId, r.attemptNumber)
    ensures FinishAttempt(s, r).0 == Apply(s, Finish(r))
    ensures FinishAttempt(s, r).1.Err? ==>
              FinishAttempt(s, r).1.error == if Acceptable(r) then LeaseLost else Invalid(ValidateAttemptResult(r).value)
  {}

  lemma ReplayIsAStep(s: State, id: Id)
    ensures ReplayDelivery(s, id).0 == Apply(s, Replay(id))
    ensures ReplayDelivery(s, id).1.Ok? <==> Enabled(s, Replay(id))
  {}

  lemma StoredEventUnchanged(s: State, p: EnqueueParams, e: Id)
    requires IngestInv(s) && EventFor(s, p) == Some(e)
    ensures EnqueueEvent(s, p).0 == s
  {}

  lemma NewEventIsAStep(s: State, p: EnqueueParams)
    requires Linked(s) && EventFor(s, p) == None
    ensures EnqueueEvent(s, p).0 == Apply(s, Enqueue(p))
    ensures Enabled(s, Enqueue(p)) ==> EnqueueEvent(s, p).1.Ok?
  {}

  /** Either the call stored a new event with its delivery, and it is the step, or it changed
      nothing; the event without a delivery that the second insertion could repair never occurs. */
  lemma EnqueueIsAStep(s: State, p: EnqueueParams)
    requires Inv(s)
    ensures EnqueueEvent(s, p).0 == Apply(s, Enqueue(p))
    ensures Enabled(s, Enqueue(p)) ==> EnqueueEvent(s, p).1.Ok?
  {
    if EventFor(s, p).Some? {
      StoredEventUnchanged(s, p, EventFor(s, p).value);
    } else {
      NewEventIsAStep(s, p);
    }
  }

  /** Each limit is missing or permitted, and the id is new. */
  predicate Creatable(s: State, id: Id, timeout: Duration, maxAttempts: int) {
    && (timeout == 0 || 100_000_000 <= timeout <= 30_000_000_000)
    && (maxAttempts == 0 || 1 <= maxAttempts <= 100)
    && id !in s.endpoints
  }

  /** The row of a new endpoint: a permitted limit as asked, in milliseconds, and five seconds or
      eight attempts for a missing one. */
  lemma CreateAnswers(s: State, id: Id, timeout: Duration, maxAttempts: int)
    ensures var (t, answer) := CreateCall(s, id, timeout, maxAttempts);
            && (answer.Ok? <==> Creatable(s, id, timeout, maxAttempts))
            && (answer.Err? ==> t == s)
            && (answer.Ok? ==>
                  && t == s.(endpoints := s.endpoints[id := answer.value])
                  && answer.value.timeoutMs == (if timeout == 0 then 5000 else timeout / 1_000_000)
                  && answer.value.maxAttempts == (if maxAttempts == 0 then 8 else maxAttempts)
                  && answer.value.consecutiveFailures == 0
                  && answer.value.createdAt == s.now && answer.value.updatedAt == s.now
                  && answer.value.disabledAt.None? && answer.value.circuitOpenUntil.None?)
  {}

  /** The event's delivery can be claimed at once, with this budget and no attempts used. */
  ghost predicate ServedAtOnce(s: State, p: EnqueueParams, budget: int) {
    var (u, stored) := EnqueueEvent(s, p);
    && stored.Ok? && !stored.value.duplicate
    && Candidate(u, p.deliveryId)
    && u.deliveries[p.deliveryId].attemptCount == 0
    && u.deliveries[p.deliveryId].maxAttempts == budget
  }

  /** A new endpoint serves at once: it is created exactly when its limits are missing or permitted
      and the id is new; it is open at every time; and the first event for it, under new ids, becomes
      a delivery that can be claimed in the same moment, with the endpoint's budget. */
  lemma NewEndpointServes(s: State, id: Id, timeout: Duration, maxAttempts: int, p: EnqueueParams)
    requires Inv(s)
    ensures var (t, answer) := CreateCall(s, id, timeout, maxAttempts);
            && (answer.Ok? <==> Creatable(s, id, timeout, maxAttempts))
            && (answer.Err? ==> t == s)
            && (answer.Ok? ==>
                  && t == s.(endpoints := s.endpoints[id := answer.value])
                  && answer.value.timeoutMs == (if timeout == 0 then 5000 else timeout / 1_000_000)
                  && answer.value.maxAttempts == (if maxAttempts == 0 then 8 else maxAttempts)
                  && forall at: Time :: EndpointOpen(answer.value, at))
            && (answer.Ok? && p.endpointId == id && p.eventId !in s.events && p.deliveryId !in s.deliveries ==>
                  ServedAtOnce(t, p, if maxAttempts == 0 then 8 else maxAttempts))
  {
    CreateAnswers(s, id, timeout, maxAttempts);
    var (t, answer) := CreateCall(s, id, timeout, maxAttempts);
    if answer.Ok? && p.endpointId == id && p.eventId !in s.events && p.deliveryId !in s.deliveries {
      FirstEvent(s, t, p);
    }
  }

  lemma FirstEvent(s: State, t: State, p: EnqueueParams)
    requires Linked(s) && p.endpointId !in s.endpoints && p.eventId !in s.events && p.deliveryId !in s.deliveries
    requires t.events == s.events && t.deliveries == s.deliveries
    requires p.endpointId in t.endpoints && EndpointOpen(t.endpoints[p.endpointId], t.now)
    requires t.endpoints[p.endpointId].maxAttempts >= 1
    ensures ServedAtOnce(t, p, t.endpoints[p.endpointId].maxAttempts)
  {
    assert EventFor(t, p) == None;
    assert DeliveryFor(t, p.eventId) == None;
  }

  function Recoveries(ids: seq<Id>): seq<Step> {
    if ids == [] then [] else Recoveries(ids[..|ids| - 1]) + [Recover(ids[|ids| - 1])]
  }

  lemma {:induction false} RecoverAllIsARun(s: State, ids: seq<Id>)
    ensures RecoverAll(s, ids) == Run(s, Recoveries(ids))
  {
    if ids != [] {
      var n := |ids| - 1;
      RecoverAllIsARun(s, ids[..n]);
      RunSnoc(s, Recoveries(ids[..n]), Recover(ids[n]));
    }
  }

  datatype Call =
    | CallClaim(workerId: string, lease: Duration, token: string, batch: seq<Id>, pick: Option<Id>)
    | CallFinish(result: AttemptResult)
    | CallReplay(deliveryId: Id)
    | CallEnqueue(params: EnqueueParams)
    | CallDisable(endpointId: Id)
    | CallCreate(endpointId: Id, timeout: Duration, maxAttempts: int)
    | TimePasses(at: Time)

  ghost function Perform(s: State, call: Call): State {
    match call
    case CallClaim(workerId, lease, token, batch, pick) =>
      ClaimDelivery(s, workerId, lease, token, batch, pick).0
    case CallFinish(r) => FinishAttempt(s, r).0
    case CallReplay(id) => ReplayDelivery(s, id).0
    case CallEnqueue(p) => EnqueueEvent(s, p).0
    case CallDisable(id) => DisableCall(s, id).0
    case CallCreate(id, timeout, maxAttempts) => CreateCall(s, id, timeout, maxAttempts).0
    case TimePasses(at) => Apply(s, Tick(at))
  }

  ghost function PerformAll(s: State, calls: seq<Call>): State {
    if calls == [] then s else Perform(PerformAll(s, calls[..|calls| - 1]), calls[|calls| - 1])
  }

  /** The steps a call tries. */
  function StepsOf(call: Call): seq<Step> {
    match call
    case CallClaim(workerId, lease, token, batch, pick) =>
      if TrimSpace(workerId) == "" || lease < MILLISECOND then []
      else Recoveries(batch) + if pick.Some? then [Claim(pick.value, TrimSpace(workerId), token, lease)] else []
    case CallFinish(r) => [Finish(r)]
    case CallReplay(id) => [Replay(id)]
    case CallEnqueue(p) => [Enqueue(p)]
    case CallDisable(id) => [DisableEndpoint(id)]
    case CallCreate(id, timeout, maxAttempts) =>
      if !ValidTimeout(TimeoutOrDefault(timeout)) then []
      else [CreateEndpoint(id, Milliseconds(TimeoutOrDefault(timeout)), AttemptsOrDefault(maxAttempts))]
    case TimePasses(at) => [Tick(at)]
  }

  function StepsOfAll(calls: seq<Call>): seq<Step> {
    if calls == [] then [] else StepsOfAll(calls[..|calls| - 1]) + StepsOf(calls[|calls| - 1])
  }

  lemma RunOfOne(s: State, step: Step)
    ensures Run(s, [step]) == Apply(s, step)
  {}

  lemma RecoveriesThen(s: State, ids: seq<Id>, step: Step)
    ensures Run(s, Recoveries(ids) + [step]) == Apply(RecoverAll(s, ids), step)
    ensures Run(s, Recoveries(ids) + []) == RecoverAll(s, ids)
  {
    RecoverAllIsARun(s, ids);
    RunSnoc(s, Recoveries(ids), step);
    assert Recoveries(ids) + [] == Recoveries(ids);
  }

  lemma ClaimIsARun(s: State, call: Call)
    requires call.CallClaim?
    ensures Perform(s, call) == Run(s, StepsOf(call))
  {
    var id := if call.pick.Some? then call.pick.value else "";
    RecoveriesThen(s, call.batch, Claim(id, TrimSpace(call.workerId), call.token, call.lease));
  }

  lemma CreateIsAStep(s: State, id: Id, timeout: Duration, maxAttempts: int)
    requires ValidTimeout(TimeoutOrDefault(timeout))
    ensures CreateCall(s, id, timeout, maxAttempts).0
         == Apply(s, CreateEndpoint(id, Milliseconds(TimeoutOrDefault(timeout)), AttemptsOrDefault(maxAttempts)))
  {}

  lemma CallIsARun(s: State, call: Call)
    requires Inv(s)
    ensures Perform(s, call) == Run(s, StepsOf(call))
  {
    match call
    case CallClaim(_, _, _, _, _) => ClaimIsARun(s, call);
    case CallFinish(r) => FinishIsAStep(s, r); RunOfOne(s, Finish(r));
    case CallReplay(id) => ReplayIsAStep(s, id); RunOfOne(s, Replay(id));
    case CallEnqueue(p) => EnqueueIsAStep(s, p); RunOfOne(s, Enqueue(p));
    case CallDisable(id) => RunOfOne(s, DisableEndpoint(id));
    case CallCreate(id, timeout, maxAttempts) =>
      if ValidTimeout(TimeoutOrDefault(timeout)) {
        CreateIsAStep(s, id, timeout, maxAttempts);
        RunOfOne(s, CreateEndpoint(id, Milliseconds(TimeoutOrDefault(timeout)), AttemptsOrDefault(maxAttempts)));
      }
    case TimePasses(at) => RunOfOne(s, Tick(at));
  }

  /** Whatever calls arrive and whatever the database chooses, the tables are those of a run. */
  lemma {:induction false} CallsAreRuns(now: Time, calls: seq<Call>)
    ensures PerformAll(Start(now), calls) == Run(Start(now), StepsOfAll(calls))
  {
    if calls != [] {
      var n := |calls| - 1;
      CallsAreRuns(now, calls[..n]);
      ReachableInv(now, StepsOfAll(calls[..n]));
      CallIsARun(PerformAll(Start(now), calls[..n]), calls[n]);
      RunConcat(Start(now), StepsOfAll(calls[..n]), StepsOf(calls[n]));
    }
  }

  // ---------------------------------------------------------------- recovery in bulk

  /** What recovery does to the delivery rows: exactly the leases of the batch are recovered, each
      from the row it had before the transaction. */
  lemma {:induction false} RecoverAllRows(s: State, ids: seq<Id>)
    requires Distinct(ids) && forall i :: 0 <= i < |ids| ==> Expired(s, ids[i])
    ensures var t := RecoverAll(s, ids);
            && t.now == s.now && t.endpoints == s.endpoints && t.events == s.events
            && t.deliveries.Keys == s.deliveries.Keys
            && (forall x :: x in s.deliveries ==>
                  t.deliveries[x] == if x in ids then Recovered(s.deliveries[x], s.now) else s.deliveries[x])
  {
    if ids != [] {
      var n := |ids| - 1;
      var before := RecoverAll(s, ids[..n]);
      RecoverAllRows(s, ids[..n]);
      assert ids[n] !in ids[..n];
      assert ids == ids[..n] + [ids[n]];
      assert before.deliveries[ids[n]] == s.deliveries[ids[n]];
      assert Enabled(before, Recover(ids[n]));
    }
  }

  /** Recovery alters nothing that a claim hands out, whatever the batch. */
  lemma {:induction false} RecoverAllKeeps(s: State, ids: seq<Id>, id: Id)
    ensures var t := RecoverAll(s, ids);
            && t.now == s.now && t.endpoints == s.endpoints && t.events == s.events
            && (id in t.deliveries <==> id in s.deliveries)
            && (id in s.deliveries ==>
                  && t.deliveries[id].eventId == s.deliveries[id].eventId
                  && t.deliveries[id].endpointId == s.deliveries[id].endpointId
                  && t.deliveries[id].attemptCount == s.deliveries[id].attemptCount)
  {
    if ids != [] {
      RecoverAllKeeps(s, ids[..|ids| - 1], id);
    }
  }

  lemma RecoveryKeepsInv(s: State, batch: seq<Id>)
    requires Inv(s)
    ensures Inv(RecoverAll(s, batch))
  {
    RecoverAllIsARun(s, batch);
    RunKeepsInv(s, Recoveries(batch));
  }

  /** The next recovery of a batch still finds the row as it was, and adds its row to the log unless
      one is there. */
  lemma RecoverAllSnoc(s: State, ids: seq<Id>, i: int)
    requires Distinct(ids) && forall k :: 0 <= k < |ids| ==> Expired(s, ids[k])
    requires 0 <= i < |ids| && Expired(s, ids[i])
    ensures var before, d := RecoverAll(s, ids[..i]), s.deliveries[ids[i]];
            RecoverAll(s, ids[..i + 1]).attempts
            == if HasRow(before.attempts, ids[i], d.attemptCount) then before.attempts
               else before.attempts + [RecoveryRow(ids[i], d, s.now)]
  {
    var before := RecoverAll(s, ids[..i]);
    assert ids[..i + 1][..i] == ids[..i];
    RecoverAllRows(s, ids[..i]);
    assert ids[i] !in ids[..i];
    assert Enabled(before, Recover(ids[i]));
  }
}
