/** Recovery in order of expiry, at most 32 leases a transaction: how long an expired lease waits. */
module RecoveryWait {
  import opened Prelude
  import opened DeliveryModel
  import opened Queue
  import opened QueueInvariant
  import opened Calls
  import opened Fencing

  /** A claim transaction with its recovery batch and the claim that follows, or any other step. */
  datatype Txn = ClaimTxn(batch: seq<Id>, claim: Option<Step>) | Other(step: Step)

  function Execute(s: State, txn: Txn): State {
    match txn
    case ClaimTxn(batch, claim) =>
      var recovered := RecoverAll(s, batch);
      if claim.Some? then Apply(recovered, claim.value) else recovered
    case Other(step) => Apply(s, step)
  }

  function ExecuteAll(s: State, txns: seq<Txn>): State {
    if txns == [] then s else Execute(ExecuteAll(s, txns[..|txns| - 1]), txns[|txns| - 1])
  }

  function ClaimTxns(txns: seq<Txn>): nat {
    if txns == [] then 0
    else ClaimTxns(txns[..|txns| - 1]) + if txns[|txns| - 1].ClaimTxn? then 1 else 0
  }

  /** No row is locked by others when a batch is chosen. */
  ghost predicate Unhindered(s: State, txns: seq<Txn>) {
    forall i :: 0 <= i < |txns| && txns[i].ClaimTxn? ==> LegalBatch(ExecuteAll(s, txns[..i]), txns[i].batch, {})
  }

  /** The other leases that end no later. */
  ghost function LeasesAhead(s: State, id: Id): set<Id>
    requires id in s.deliveries && s.deliveries[id].lockedUntil.Some?
  {
    set x | x in s.deliveries && x != id && s.deliveries[x].status == Processing && s.deliveries[x].lockedUntil.Some?
            && s.deliveries[x].lockedUntil.value <= s.deliveries[id].lockedUntil.value
  }

  /** The lease of attempt n is closed, or it is still the one it was and no lease has joined those
      ahead. */
  ghost predicate Progress(s: State, t: State, id: Id, work: int)
    requires Expired(s, id)
  {
    || Outcomes(t, id) >= s.deliveries[id].attemptCount
    || (&& Expired(t, id)
        && t.deliveries[id] == s.deliveries[id]
        && |LeasesAhead(t, id)| + work <= |LeasesAhead(s, id)|)
  }

  /** A lease granted now ends after every lease that has already expired. */
  lemma TargetEndsLater(s: State, step: Step, x: Id, until: Time)
    requires Enabled(s, step) && Target(step) == Some(x) && until <= s.now
    ensures x in Commit(s, step).deliveries
    ensures var d := Commit(s, step).deliveries[x];
            d.status == Processing && d.lockedUntil.Some? ==> until < d.lockedUntil.value
  {}

  lemma NoLeaseJoins(s: State, step: Step, id: Id)
    requires Expired(s, id) && Target(step) != Some(id)
    ensures var s' := Apply(s, step);
            Expired(s', id) && s'.deliveries[id] == s.deliveries[id] && LeasesAhead(s', id) <= LeasesAhead(s, id)
  {
    var s' := Apply(s, step);
    OthersUntouched(s, step, id);
    ClockMovesForward(s, step);
    if Enabled(s, step) {
      if Target(step).Some? {
        TargetEndsLater(s, step, Target(step).value, s.deliveries[id].lockedUntil.value);
      }
      forall x | x in LeasesAhead(s', id)
        ensures x in LeasesAhead(s, id)
      {
        if Target(step) != Some(x) {
          OthersUntouched(s, step, x);
        }
      }
    }
  }

  /** A step on the delivery itself closes its lease or does nothing. */
  lemma OwnStepCloses(s: State, step: Step, id: Id)
    requires Expired(s, id) && Target(step) == Some(id)
    ensures Apply(s, step) == s || Outcomes(Apply(s, step), id) == s.deliveries[id].attemptCount
  {}

  lemma StepProgress(s: State, step: Step, id: Id)
    requires Expired(s, id)
    ensures Progress(s, Apply(s, step), id, 0)
  {
    if Target(step) == Some(id) {
      OwnStepCloses(s, step, id);
    } else {
      NoLeaseJoins(s, step, id);
      NotLarger(LeasesAhead(Apply(s, step), id), LeasesAhead(s, id));
    }
  }

  lemma {:induction false} DistinctCount(ids: seq<Id>)
    requires Distinct(ids)
    ensures |set x | x in ids| == |ids|
  {
    if ids != [] {
      var n := |ids| - 1;
      DistinctCount(ids[..n]);
      var rest := set x | x in ids[..n];
      assert ids == ids[..n] + [ids[n]];
      assert (set x | x in ids) == rest + {ids[n]};
      assert ids[n] !in rest;
    }
  }

  lemma BatchIsAhead(s: State, ids: seq<Id>, id: Id)
    requires Expired(s, id) && LegalBatch(s, ids, {}) && id !in ids
    ensures (set x | x in ids) <= LeasesAhead(s, id) && |ids| == RECOVERY_LIMIT
  {}

  lemma BatchLeavesAhead(s: State, ids: seq<Id>, id: Id)
    requires Expired(s, id) && LegalBatch(s, ids, {}) && id !in ids
    ensures var t := RecoverAll(s, ids);
            Expired(t, id) && t.deliveries[id] == s.deliveries[id]
            && LeasesAhead(t, id) <= LeasesAhead(s, id) - set x | x in ids
  {
    RecoverAllRows(s, ids);
  }

  /** A full batch that misses the lease takes 32 leases from those ahead. */
  lemma BatchProgress(s: State, ids: seq<Id>, id: Id)
    requires Expired(s, id) && LegalBatch(s, ids, {})
    ensures Progress(s, RecoverAll(s, ids), id, RECOVERY_LIMIT)
  {
    if id in ids {
      RecoverAllRows(s, ids);
    } else {
      BatchIsAhead(s, ids, id);
      BatchLeavesAhead(s, ids, id);
      DistinctCount(ids);
      var taken, rest := (set x | x in ids), LeasesAhead(RecoverAll(s, ids), id);
      NotLarger(rest + taken, LeasesAhead(s, id));
      assert rest !! taken;
    }
  }

  lemma OutcomesGrowByRecovery(s: State, ids: seq<Id>, id: Id)
    ensures Outcomes(s, id) <= Outcomes(RecoverAll(s, ids), id)
  {
    RecoverAllIsARun(s, ids);
    OutcomesGrow(s, Recoveries(ids), id);
  }

  lemma ExecuteProgress(s: State, txn: Txn, id: Id)
    requires Expired(s, id)
    requires txn.ClaimTxn? ==> LegalBatch(s, txn.batch, {})
    ensures Progress(s, Execute(s, txn), id, if txn.ClaimTxn? then RECOVERY_LIMIT else 0)
  {
    match txn
    case Other(step) => StepProgress(s, step, id);
    case ClaimTxn(batch, claim) =>
      BatchProgress(s, batch, id);
      var recovered := RecoverAll(s, batch);
      if claim.Some? {
        StepClosesNext(recovered, claim.value, id, 0);
        if Expired(recovered, id) {
          StepProgress(recovered, claim.value, id);
        }
      }
  }

  lemma ClosedStaysClosed(s: State, txn: Txn, id: Id)
    ensures Outcomes(s, id) <= Outcomes(Execute(s, txn), id)
  {
    match txn
    case Other(step) => StepClosesNext(s, step, id, 0);
    case ClaimTxn(batch, claim) =>
      OutcomesGrowByRecovery(s, batch, id);
      if claim.Some? {
        StepClosesNext(RecoverAll(s, batch), claim.value, id, 0);
      }
  }

  lemma {:induction false} AllProgress(s: State, txns: seq<Txn>, id: Id)
    requires Expired(s, id) && Unhindered(s, txns)
    ensures Progress(s, ExecuteAll(s, txns), id, RECOVERY_LIMIT * ClaimTxns(txns))
  {
    if txns != [] {
      var m := |txns| - 1;
      var t := ExecuteAll(s, txns[..m]);
      assert forall i :: 0 <= i < m ==> txns[..m][..i] == txns[..i];
      assert Unhindered(s, txns[..m]);
      AllProgress(s, txns[..m], id);
      ClosedStaysClosed(t, txns[m], id);
      if Outcomes(t, id) < s.deliveries[id].attemptCount {
        ExecuteProgress(t, txns[m], id);
      }
    }
  }

  lemma EndedIsExpired(s: State, id: Id)
    requires DeliveriesInv(s) && id in s.deliveries && s.deliveries[id].status == Processing
    requires s.deliveries[id].lockedUntil.Some? && s.deliveries[id].lockedUntil.value <= s.now
    ensures Expired(s, id)
  {
    assert LockInv(s.deliveries[id], s.now);
  }

  /** Bounded recovery wait: with k other leases that end no later, an expired lease is recovered or
      finished by claim transaction k / 32 + 1 at the latest, whatever else happens in between. */
  lemma ExpiredLeaseIsClosed(s: State, txns: seq<Txn>, id: Id)
    requires Inv(s) && id in s.deliveries && s.deliveries[id].status == Processing
    requires s.deliveries[id].lockedUntil.Some? && s.deliveries[id].lockedUntil.value <= s.now
    requires Unhindered(s, txns) && ClaimTxns(txns) >= |LeasesAhead(s, id)| / 32 + 1
    ensures Outcomes(ExecuteAll(s, txns), id) >= s.deliveries[id].attemptCount
  {
    EndedIsExpired(s, id);
    AllProgress(s, txns, id);
  }
}
