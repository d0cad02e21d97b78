/** The choices the two queries leave to the database: there always is one, and whichever it is, a
    claim hands out work exactly when some is free. */
module Choices {
  import opened Prelude
  import opened DeliveryModel
  import opened Queue
  import opened QueueInvariant
  import opened Calls
  import opened Breaker

  /** Keys in lexicographic order. */
  predicate AtMost(a: (int, int), b: (int, int)) {
    a.0 < b.0 || (a.0 == b.0 && a.1 <= b.1)
  }

  lemma {:induction false} Least(pool: set<Id>, key: Id -> (int, int)) returns (first: Id)
    requires pool != {}
    ensures first in pool && forall x :: x in pool ==> AtMost(key(first), key(x))
  {
    first :| first in pool;
    if pool != {first} {
      var other := Least(pool - {first}, key);
      if !AtMost(key(first), key(other)) {
        first := other;
      }
    }
  }

  /** The first rows of a pool in the order of their keys, as many as the limit allows. */
  lemma {:induction false} Earliest(pool: set<Id>, key: Id -> (int, int), limit: nat) returns (ids: seq<Id>)
    ensures Distinct(ids) && |ids| <= limit
    ensures forall i :: 0 <= i < |ids| ==> ids[i] in pool
    ensures forall x :: x in pool && x !in ids ==>
              |ids| == limit && forall i :: 0 <= i < |ids| ==> AtMost(key(ids[i]), key(x))
    decreases limit
  {
    if pool == {} || limit == 0 {
      ids := [];
    } else {
      var first := Least(pool, key);
      var rest := Earliest(pool - {first}, key, limit - 1);
      ids := [first] + rest;
      forall x | x in pool && x !in ids
        ensures |ids| == limit && forall i :: 0 <= i < |ids| ==> AtMost(key(ids[i]), key(x))
      {
        assert ids[0] == first && x in pool - {first} && x !in rest;
      }
    }
  }

  function ExpiryKey(s: State): Id -> (int, int) {
    x => if x in s.deliveries && s.deliveries[x].lockedUntil.Some? then (s.deliveries[x].lockedUntil.value, 0) else (0, 0)
  }

  function DueKey(s: State): Id -> (int, int) {
    x => if x in s.deliveries then (s.deliveries[x].nextAttemptAt, s.deliveries[x].createdAt) else (0, 0)
  }

  /** Whatever rows others have locked, the recovery query has an answer, of at most 32 rows. */
  lemma RecoveryHasAnswer(s: State, locked: set<Id>) returns (batch: seq<Id>)
    ensures LegalBatch(s, batch, locked) && |batch| <= 32
  {
    var pool := set x | x in s.deliveries && Expired(s, x) && x !in locked;
    batch := Earliest(pool, ExpiryKey(s), 32);
    forall x | Expired(s, x) && x !in locked && x !in batch
      ensures |batch| == 32
      ensures forall i :: 0 <= i < |batch| ==> s.deliveries[batch[i]].lockedUntil.value <= s.deliveries[x].lockedUntil.value
    {
      assert x in pool;
      forall i | 0 <= i < |batch|
        ensures s.deliveries[batch[i]].lockedUntil.value <= s.deliveries[x].lockedUntil.value
      {
        assert AtMost(ExpiryKey(s)(batch[i]), ExpiryKey(s)(x));
      }
    }
  }

  /** So has the claim query. */
  lemma ClaimHasAnswer(s: State, locked: set<Id>) returns (pick: Option<Id>)
    ensures LegalPick(s, pick, locked)
  {
    var pool := set x | x in s.deliveries && Candidate(s, x) && x !in locked;
    if pool == {} {
      pick := None;
      assert forall x | Candidate(s, x) && x !in locked :: x in pool;
    } else {
      var first := Least(pool, DueKey(s));
      pick := Some(first);
      forall x | Candidate(s, x) && x !in locked
        ensures NotAfter(s.deliveries[first], s.deliveries[x])
      {
        assert x in pool;
      }
    }
  }

  /** A batch has at most 32 rows, and leaves an expired lease that nobody has locked only when it is
      full of leases that ended no later. */
  lemma BatchIsFullOrComplete(s: State, batch: seq<Id>, locked: set<Id>, x: Id)
    requires LegalBatch(s, batch, locked)
    ensures |batch| <= 32
    ensures Expired(s, x) && x !in locked && x !in batch ==>
              |batch| == 32 && forall i :: 0 <= i < |batch| ==>
                batch[i] in s.deliveries
                && s.deliveries[batch[i]].lockedUntil.value <= s.deliveries[x].lockedUntil.value
  {}

  /** Some candidate is not locked by others. */
  ghost predicate WorkIsFree(s: State, locked: set<Id>) {
    exists x :: x in s.deliveries && Candidate(s, x) && x !in locked
  }

  /** A claim hands out a job exactly when some candidate is not locked by others, and then one that
      no such candidate precedes. */
  lemma JobIffFreeCandidate(s: State, name: string, lease: Duration, token: string, batch: seq<Id>,
                            pick: Option<Id>, locked: set<Id>)
    requires Inv(s) && TrimSpace(name) != "" && lease >= MILLISECOND && !Blank(token)
    requires LegalPick(RecoverAll(s, batch), pick, locked)
    ensures var u, answer := RecoverAll(s, batch), ClaimDelivery(s, name, lease, token, batch, pick).1;
            && answer.Ok?
            && (answer.value.Some? <==> WorkIsFree(u, locked))
            && (answer.value.Some? ==>
                  var id := answer.value.value.deliveryId;
                  && id in u.deliveries && Candidate(u, id) && id !in locked
                  && forall x | x in u.deliveries && Candidate(u, x) && x !in locked ::
                       || u.deliveries[id].nextAttemptAt < u.deliveries[x].nextAttemptAt
                       || (u.deliveries[id].nextAttemptAt == u.deliveries[x].nextAttemptAt
                           && u.deliveries[id].createdAt <= u.deliveries[x].createdAt))
  {
    RecoveryKeepsInv(s, batch);
    if pick.Some? {
      CandidateHasJob(RecoverAll(s, batch), pick.value, TrimSpace(name), token, lease);
    }
  }

  /** A claim is refused exactly for a blank name or a lease below a millisecond, and then changes
      nothing. */
  lemma ClaimIsRefusedIff(s: State, name: string, lease: Duration, token: string, batch: seq<Id>, pick: Option<Id>)
    ensures var (t, answer) := ClaimDelivery(s, name, lease, token, batch, pick);
            && (answer.Err? <==> SpaceBetween(name, 0, |name|) || lease < 1_000_000)
            && (answer.Err? ==> t == s)
  {
    BlankIffAllSpace(name);
  }

  lemma CandidateHasJob(s: State, id: Id, worker: string, token: string, lease: Duration)
    requires Linked(s) && Candidate(s, id)
    ensures JobOf(Apply(s, Claim(id, worker, token, lease)), id).Some?
    ensures JobOf(Apply(s, Claim(id, worker, token, lease)), id).value.deliveryId == id
  {}

  lemma RecoveryGrantsRun(now: Time, steps: seq<Step>, batch: seq<Id>)
    ensures RecoverAll(Run(Start(now), steps), batch) == Run(Start(now), steps + Recoveries(batch))
  {
    RecoverAllIsARun(Run(Start(now), steps), batch);
    RunConcat(Start(now), steps, Recoveries(batch));
  }

  /** Due work is handed out. After any run, while some waiting delivery is due, not locked by others,
      and its endpoint is not disabled and has cooled down, every claim hands out a job. */
  lemma DueWorkIsHandedOut(now: Time, steps: seq<Step>, name: string, lease: Duration, token: string,
                           batch: seq<Id>, pick: Option<Id>, locked: set<Id>,
                           id: Id, threshold: int, cooldown: Duration)
    requires TrimSpace(name) != "" && lease >= MILLISECOND && !Blank(token) && threshold >= 1
    requires LegalPick(Run(Start(now), steps + Recoveries(batch)), pick, locked)
    requires var u, all := Run(Start(now), steps + Recoveries(batch)), steps + Recoveries(batch);
             && id in u.deliveries && id !in locked
             && var d := u.deliveries[id];
             && (d.status == Pending || d.status == Retrying) && d.nextAttemptAt <= u.now
             && d.endpointId in u.endpoints && u.endpoints[d.endpointId].disabledAt.None?
             && Uniform(Start(now), all, d.endpointId, threshold, cooldown)
             && CooledDown(Signals(Start(now), all, d.endpointId), threshold, cooldown, u.now)
    ensures var answer := ClaimDelivery(Run(Start(now), steps), name, lease, token, batch, pick).1;
            answer.Ok? && answer.value.Some?
  {
    var s := Run(Start(now), steps);
    ReachableInv(now, steps);
    RecoveryGrantsRun(now, steps, batch);
    ClaimableIff(now, steps + Recoveries(batch), id, threshold, cooldown);
    JobIffFreeCandidate(s, name, lease, token, batch, pick, locked);
  }
}
