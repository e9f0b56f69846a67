/** The queue_jobs table as a value, and what each queue operation does to it
    (registry/app/outbox/queue.py). */
module QueueTable {
  import opened Common

  // Points in time and durations, in microseconds.
  type Time = int

  const SECOND: Time := 1_000_000
  const DAY: Time := 86_400 * SECOND
  const MAX_BACKOFF: Time := 60 * SECOND

  datatype Status = Queued | Running | Succeeded | Dead

  // The formatted keys "billing:<org>:<time>" and "scan:<version>", by their fields.
  datatype DedupeKey = DedupeKey(prefix: string, subject: int, at: Option<Time>)

  type Payload = map<string, int>

  datatype Job = Job(
    jobType: string,
    payload: Payload,
    schemaVersion: int,
    key: DedupeKey,
    status: Status,
    attempts: nat,
    maxAttempts: nat,
    nextAttemptAt: Time,
    leasedUntil: Option<Time>,
    leaseOwner: Option<string>,
    lastError: Option<string>,
    updatedAt: Time)

  // Row ids are handed out in increasing order and never reused.
  datatype Table = Table(jobs: map<nat, Job>, nextId: nat)

  // The backoff base is twice `halfBase`, so that base * 2^(attempts - 1) stays
  // integral when attempts is 0.
  datatype Config = Config(lease: Time, maxAttempts: nat, halfBase: nat)

  predicate Active(j: Job) {
    j.status.Queued? || j.status.Running? || j.status.Succeeded?
  }

  predicate Occupies(j: Job, jobType: string, key: DedupeKey) {
    j.jobType == jobType && j.key == key && Active(j)
  }

  predicate Taken(t: Table, jobType: string, key: DedupeKey) {
    exists id | id in t.jobs :: Occupies(t.jobs[id], jobType, key)
  }

  predicate Claimable(j: Job, jobType: string, now: Time) {
    && j.jobType == jobType
    && j.status.Queued?
    && j.nextAttemptAt <= now
    && (j.leasedUntil.None? || j.leasedUntil.value < now)
  }

  predicate IsFirstClaimable(t: Table, jobType: string, now: Time, id: nat) {
    && id in t.jobs && Claimable(t.jobs[id], jobType, now)
    && forall other | other in t.jobs && Claimable(t.jobs[other], jobType, now) :: id <= other
  }

  predicate IsLeast(id: nat, ids: set<nat>) {
    id in ids && forall other | other in ids :: id <= other
  }

  /** Every non-empty set of ids has a least one. */
  lemma {:induction false} LeastId(ids: set<nat>, some: nat)
    requires some in ids
    ensures exists id :: IsLeast(id, ids)
    decreases some
  {
    if other :| other in ids && other < some {
      LeastId(ids, other);
    } else {
      assert IsLeast(some, ids);
    }
  }

  /** The claim query: the due, unleased, queued row of the type with the smallest id. */
  function Candidate(t: Table, jobType: string, now: Time): (r: Option<nat>)
    ensures r.Some? ==> IsFirstClaimable(t, jobType, now, r.value)
    ensures r.None? ==> forall id | id in t.jobs :: !Claimable(t.jobs[id], jobType, now)
  {
    var due := set id | id in t.jobs && Claimable(t.jobs[id], jobType, now);
    if due == {} then
      assert forall id | id in t.jobs :: Claimable(t.jobs[id], jobType, now) ==> id in due;
      None
    else
      assert exists id :: IsFirstClaimable(t, jobType, now, id) by {
        var some :| some in due;
        LeastId(due, some);
        var id :| IsLeast(id, due);
        assert forall other | other in t.jobs && Claimable(t.jobs[other], jobType, now) :: other in due;
        assert IsFirstClaimable(t, jobType, now, id);
      }
      var id :| IsFirstClaimable(t, jobType, now, id);
      Some(id)
  }

  function Pow2(n: nat): (p: nat)
    ensures p >= 1
  {
    if n == 0 then 1 else 2 * Pow2(n - 1)
  }

  function Backoff(c: Config, attempts: nat): Time {
    Min(c.halfBase * Pow2(attempts), MAX_BACKOFF)
  }

  function NewJob(c: Config, jobType: string, payload: Payload, schemaVersion: int, key: DedupeKey,
                  runAt: Option<Time>, now: Time): Job
  {
    Job(jobType, payload, schemaVersion, key, Queued, 0, c.maxAttempts,
        if runAt.Some? then runAt.value else now, None, None, None, now)
  }

  function Enqueue(t: Table, c: Config, jobType: string, payload: Payload, schemaVersion: int, key: DedupeKey,
                   runAt: Option<Time>, now: Time): Table
  {
    if Taken(t, jobType, key) then t
    else Table(t.jobs[t.nextId := NewJob(c, jobType, payload, schemaVersion, key, runAt, now)], t.nextId + 1)
  }

  function Claim(t: Table, c: Config, jobType: string, owner: string, now: Time): Table {
    match Candidate(t, jobType, now)
    case None => t
    case Some(id) =>
      var j := t.jobs[id];
      t.(jobs := t.jobs[id := j.(status := Running, attempts := j.attempts + 1, leasedUntil := Some(now + c.lease),
                                leaseOwner := Some(owner), updatedAt := now)])
  }

  function Complete(t: Table, id: nat, now: Time): Table {
    if id !in t.jobs then t
    else t.(jobs := t.jobs[id := t.jobs[id].(status := Succeeded, leasedUntil := None, leaseOwner := None,
                                            lastError := None, updatedAt := now)])
  }

  function Fail(t: Table, c: Config, id: nat, error: string, now: Time): Table {
    if id !in t.jobs then t
    else
      var j := t.jobs[id].(leasedUntil := None, leaseOwner := None, lastError := Some(error), updatedAt := now);
      t.(jobs := t.jobs[id := if j.attempts >= j.maxAttempts then j.(status := Dead)
                              else j.(status := Queued, nextAttemptAt := now + Backoff(c, j.attempts))])
  }

  predicate Stale(j: Job, now: Time) {
    j.status.Running? && j.leasedUntil.Some? && j.leasedUntil.value < now
  }

  function Requeue(j: Job, now: Time): Job {
    if Stale(j, now) then j.(status := Queued, leasedUntil := None, leaseOwner := None, updatedAt := now) else j
  }

  function ReapStaleLeases(t: Table, now: Time): Table {
    t.(jobs := map id | id in t.jobs :: Requeue(t.jobs[id], now))
  }

  predicate Expired(j: Job, retention: Time, now: Time) {
    (j.status.Succeeded? || j.status.Dead?) && j.updatedAt < now - retention
  }

  function ReapOldJobs(t: Table, retention: Time, now: Time): Table {
    t.(jobs := map id | id in t.jobs && !Expired(t.jobs[id], retention, now) :: t.jobs[id])
  }
}
