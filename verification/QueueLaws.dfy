/** What the queue operations do to the columns of single rows, and what a lease is good for. */
module QueueLaws {
  import opened Common
  import opened QueueTable
  import opened QueueRuns

  /* ---------- enqueue ---------- */

  // A row other than a dead one holds the key.
  ghost predicate Held(t: Table, jobType: string, key: DedupeKey) {
    exists id | id in t.jobs :: t.jobs[id].jobType == jobType && t.jobs[id].key == key && t.jobs[id].status != Dead
  }

  /** A job is inserted exactly if no queued, running or succeeded row of its type holds its key; it is
      due at `runAt`, or now, and has all its attempts before it. */
  lemma EnqueueInsertsIff(t: Table, c: Config, jobType: string, payload: Payload, schemaVersion: int, key: DedupeKey,
                          runAt: Option<Time>, now: Time)
    requires Inv(t)
    ensures var t', id := Enqueue(t, c, jobType, payload, schemaVersion, key, runAt, now), t.nextId;
            && (Held(t, jobType, key) ==> t' == t)
            && (!Held(t, jobType, key) ==>
                  && t'.jobs.Keys == t.jobs.Keys + {id} && id !in t.jobs
                  && (forall other | other in t.jobs :: t'.jobs[other] == t.jobs[other])
                  && var j := t'.jobs[id];
                     && j.jobType == jobType && j.payload == payload && j.schemaVersion == schemaVersion && j.key == key
                     && j.status == Queued && j.attempts == 0 && j.maxAttempts == c.maxAttempts
                     && j.nextAttemptAt == (match runAt case Some(at) => at case None => now)
                     && j.leasedUntil == None && j.leaseOwner == None)
  {
    if Held(t, jobType, key) {
      var id :| id in t.jobs && t.jobs[id].jobType == jobType && t.jobs[id].key == key && t.jobs[id].status != Dead;
      assert Occupies(t.jobs[id], jobType, key);
    }
    if Taken(t, jobType, key) {
      var id :| id in t.jobs && Occupies(t.jobs[id], jobType, key);
      assert t.jobs[id].status != Dead;
    }
  }

  /* ---------- claim ---------- */

  // Queued, of the type, due, and not leased any more.
  predicate Due(j: Job, jobType: string, now: Time) {
    && j.jobType == jobType && j.status == Queued && j.nextAttemptAt <= now
    && (match j.leasedUntil case None => true case Some(until) => until < now)
  }

  /** A claim takes the due row of the type with the smallest id, and nothing exactly if none is due. */
  lemma ClaimTakesFirstDue(t: Table, c: Config, jobType: string, owner: string, now: Time, id: nat)
    requires id in t.jobs
    ensures var t' := Claim(t, c, jobType, owner, now);
            && t'.jobs.Keys == t.jobs.Keys
            && (Due(t.jobs[id], jobType, now) && (forall other | other in t.jobs && other < id ::
                                                    !Due(t.jobs[other], jobType, now)) ==>
                  var j, j' := t.jobs[id], t'.jobs[id];
                  && j'.status == Running && j'.attempts == j.attempts + 1
                  && j'.leasedUntil == Some(now + c.lease) && j'.leaseOwner == Some(owner)
                  && j'.jobType == j.jobType && j'.key == j.key && j'.payload == j.payload
                  && j'.nextAttemptAt == j.nextAttemptAt && j'.maxAttempts == j.maxAttempts)
            && (!Due(t.jobs[id], jobType, now) || (exists other | other in t.jobs && other < id ::
                                                     Due(t.jobs[other], jobType, now)) ==>
                  t'.jobs[id] == t.jobs[id])
  {
    assert forall other | other in t.jobs ::
        Due(t.jobs[other], jobType, now) <==> Claimable(t.jobs[other], jobType, now);
  }

  /* ---------- fail ---------- */

  function Doubled(base: int, times: nat): int {
    if times == 0 then base else 2 * Doubled(base, times - 1)
  }

  lemma {:induction false} BackoffIsDoubledBase(c: Config, attempts: nat)
    requires attempts >= 1
    ensures Backoff(c, attempts) == Min(Doubled(2 * c.halfBase, attempts - 1), 60_000_000)
  {
    HalfTimesPow(c.halfBase, attempts);
  }

  lemma {:induction false} HalfTimesPow(half: nat, attempts: nat)
    requires attempts >= 1
    ensures half * Pow2(attempts) == Doubled(2 * half, attempts - 1)
  {
    if attempts == 1 {
      assert Pow2(1) == 2 * Pow2(0);
    } else {
      HalfTimesPow(half, attempts - 1);
      assert Pow2(attempts) == 2 * Pow2(attempts - 1);
      assert half * (2 * Pow2(attempts - 1)) == 2 * (half * Pow2(attempts - 1));
    }
  }

  /** The retry after the k-th failed attempt waits the backoff base, doubled k - 1 times and cut off at
      a minute; with the last attempt the job is dead. */
  lemma RetryDelay(t: Table, c: Config, id: nat, error: string, now: Time)
    requires id in t.jobs && t.jobs[id].attempts >= 1
    ensures var j, j' := t.jobs[id], Fail(t, c, id, error, now).jobs[id];
            && j'.attempts == j.attempts && j'.lastError == Some(error)
            && j'.leasedUntil == None && j'.leaseOwner == None
            && (j.attempts >= j.maxAttempts ==> j'.status == Dead)
            && (j.attempts < j.maxAttempts ==>
                  && j'.status == Queued
                  && j'.nextAttemptAt == now + Min(Doubled(2 * c.halfBase, j.attempts - 1), 60_000_000))
  {
    BackoffIsDoubledBase(c, t.jobs[id].attempts);
  }

  /* ---------- reaping ---------- */

  // The lease of a running row is over.
  predicate LeaseOver(j: Job, now: Time) {
    j.status == Running && match j.leasedUntil case None => false case Some(until) => until < now
  }

  /** A row is requeued exactly if it runs on a lease that is over; it keeps its attempts and its time. */
  lemma ReapRequeuesIff(t: Table, now: Time, id: nat)
    requires id in t.jobs
    ensures var t' := ReapStaleLeases(t, now);
            && t'.jobs.Keys == t.jobs.Keys && t'.nextId == t.nextId
            && var j, j' := t.jobs[id], t'.jobs[id];
               if LeaseOver(j, now)
               then && j'.status == Queued && j'.leasedUntil == None && j'.leaseOwner == None
                    && j'.attempts == j.attempts && j'.maxAttempts == j.maxAttempts
                    && j'.nextAttemptAt == j.nextAttemptAt && j'.key == j.key && j'.jobType == j.jobType
                    && j'.payload == j.payload && j'.lastError == j.lastError
               else j' == j
  {
  }

  /** A row is deleted exactly if it is finished, successfully or not, and older than the retention. */
  lemma ReapOldDeletesIff(t: Table, retention: Time, now: Time, id: nat)
    requires id in t.jobs
    ensures var t', j := ReapOldJobs(t, retention, now), t.jobs[id];
            && (id !in t'.jobs <==> (j.status == Succeeded || j.status == Dead) && j.updatedAt < now - retention)
            && (id in t'.jobs ==> t'.jobs[id] == j)
  {
  }

  /* ---------- leases ---------- */

  // Nobody settles the job, and no reaper runs after the end of its lease.
  predicate LeftAlone(s: Step, id: nat, until: Time) {
    && !(s.DoComplete? && s.id == id) && !(s.DoFail? && s.id == id)
    && (s.DoReapLeases? ==> s.now <= until)
  }

  lemma LeaseStep(c: Config, t: Table, s: Step, id: nat, until: Time)
    requires Inv(t) && Legal(t, s) && LeftAlone(s, id, until)
    requires id in t.jobs && t.jobs[id].status == Running && t.jobs[id].leasedUntil == Some(until)
    ensures id in Apply(c, t, s).jobs && Apply(c, t, s).jobs[id] == t.jobs[id]
  {
    match s
    case DoReapLeases(now) => ReapRequeuesIff(t, now, id);
    case DoReapOld(retention, now) => ReapOldDeletesIff(t, retention, now, id);
    case DoClaim(jobType, owner, now) => ClaimTakesFirstDue(t, c, jobType, owner, now, id);
    case _ =>
  }

  /** From its claim to the end of its lease a job is its worker's: whatever else happens in the queue,
      other claims and reapers included, the row stays as the claim left it. */
  lemma {:induction false} LeaseProtects(c: Config, t: Table, ext: seq<Step>, id: nat, until: Time)
    requires Inv(t) && Run(c, t, ext)
    requires id in t.jobs && t.jobs[id].status == Running && t.jobs[id].leasedUntil == Some(until)
    requires forall i | 0 <= i < |ext| :: LeftAlone(ext[i], id, until)
    ensures id in Exec(c, t, ext).jobs && Exec(c, t, ext).jobs[id] == t.jobs[id]
  {
    if ext != [] {
      LeaseProtects(c, t, Front(ext), id, until);
      RunKeepsInv(c, t, Front(ext));
      LeaseStep(c, Exec(c, t, Front(ext)), Last(ext), id, until);
    }
  }

  /** A job whose worker is gone: the first reaper after the lease, which is `c.lease` from the claim,
      makes it claimable again, its attempt spent. */
  lemma CrashedJobReturns(c: Config, t: Table, jobType: string, owner: string, now: Time, id: nat, ext: seq<Step>,
                          later: Time)
    requires Inv(t) && Candidate(t, jobType, now) == Some(id) && later > now + c.lease && c.lease >= 0
    requires Run(c, Claim(t, c, jobType, owner, now), ext)
    requires forall i | 0 <= i < |ext| :: LeftAlone(ext[i], id, now + c.lease)
    ensures var before := Exec(c, Claim(t, c, jobType, owner, now), ext);
            var after := ReapStaleLeases(before, later);
            && id in before.jobs && !Due(before.jobs[id], jobType, later)
            && id in after.jobs && Due(after.jobs[id], jobType, later)
            && after.jobs[id].attempts == t.jobs[id].attempts + 1
  {
    var t1 := Claim(t, c, jobType, owner, now);
    ClaimTakesFirstDue(t, c, jobType, owner, now, id);
    ClaimKeepsInv(t, c, jobType, owner, now);
    LeaseProtects(c, t1, ext, id, now + c.lease);
    ReapRequeuesIff(Exec(c, t1, ext), later, id);
  }
}
