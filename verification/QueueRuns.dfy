/** What every run of the queue keeps, and how long a job can be overtaken. */
module QueueRuns {
  import opened Common
  import opened QueueTable

  datatype Step =
    | DoEnqueue(jobType: string, payload: Payload, schemaVersion: int, key: DedupeKey, runAt: Option<Time>, now: Time)
    | DoClaim(jobType: string, owner: string, now: Time)
    | DoComplete(id: nat, now: Time)
    | DoFail(id: nat, error: string, now: Time)
    | DoReapLeases(now: Time)
    | DoReapOld(retention: Time, now: Time)

  function Apply(c: Config, t: Table, s: Step): Table {
    match s
    case DoEnqueue(jobType, payload, version, key, runAt, now) =>
      Enqueue(t, c, jobType, payload, version, key, runAt, now)
    case DoClaim(jobType, owner, now) => Claim(t, c, jobType, owner, now)
    case DoComplete(id, now) => Complete(t, id, now)
    case DoFail(id, error, now) => Fail(t, c, id, error, now)
    case DoReapLeases(now) => ReapStaleLeases(t, now)
    case DoReapOld(retention, now) => ReapOldJobs(t, retention, now)
  }

  // A worker completes or fails only the job it is running.
  predicate Legal(t: Table, s: Step) {
    (s.DoComplete? || s.DoFail?) ==> s.id in t.jobs && t.jobs[s.id].status.Running?
  }

  const Empty := Table(map[], 0)

  function Exec(c: Config, start: Table, steps: seq<Step>): Table {
    if steps == [] then start else Apply(c, Exec(c, start, Front(steps)), Last(steps))
  }

  ghost predicate Run(c: Config, start: Table, steps: seq<Step>) {
    steps == [] || (Run(c, start, Front(steps)) && Legal(Exec(c, start, Front(steps)), Last(steps)))
  }

  /* ---------- the table invariant ---------- */

  predicate LeaseCoherent(j: Job) {
    && (j.status.Running? <==> j.leaseOwner.Some?)
    && (j.status.Running? <==> j.leasedUntil.Some?)
  }

  ghost predicate SingleActive(t: Table) {
    forall a, b | a in t.jobs && b in t.jobs && Active(t.jobs[a]) && Active(t.jobs[b])
                  && t.jobs[a].jobType == t.jobs[b].jobType && t.jobs[a].key == t.jobs[b].key :: a == b
  }

  ghost predicate Inv(t: Table) {
    && (forall id | id in t.jobs :: id < t.nextId)
    && (forall id | id in t.jobs :: LeaseCoherent(t.jobs[id]))
    && SingleActive(t)
    && (forall id | id in t.jobs && t.jobs[id].status.Dead? :: t.jobs[id].attempts >= t.jobs[id].maxAttempts)
  }

  lemma EnqueueKeepsInv(t: Table, c: Config, jobType: string, payload: Payload, version: int, key: DedupeKey,
                        runAt: Option<Time>, now: Time)
    requires Inv(t)
    ensures Inv(Enqueue(t, c, jobType, payload, version, key, runAt, now))
  {
    var t' := Enqueue(t, c, jobType, payload, version, key, runAt, now);
    if !Taken(t, jobType, key) {
      forall a | a in t.jobs && Active(t.jobs[a]) && t.jobs[a].jobType == jobType
        ensures t.jobs[a].key != key
      {
        assert !Occupies(t.jobs[a], jobType, key);
      }
      assert SingleActive(t');
    }
  }

  lemma ClaimKeepsInv(t: Table, c: Config, jobType: string, owner: string, now: Time)
    requires Inv(t)
    ensures Inv(Claim(t, c, jobType, owner, now))
  {
  }

  lemma CompleteKeepsInv(t: Table, id: nat, now: Time)
    requires Inv(t) && id in t.jobs && t.jobs[id].status.Running?
    ensures Inv(Complete(t, id, now))
  {
  }

  lemma FailKeepsInv(t: Table, c: Config, id: nat, error: string, now: Time)
    requires Inv(t) && id in t.jobs && t.jobs[id].status.Running?
    ensures Inv(Fail(t, c, id, error, now))
  {
  }

  lemma ReapKeepsInv(t: Table, now: Time)
    requires Inv(t)
    ensures Inv(ReapStaleLeases(t, now))
  {
    var t' := ReapStaleLeases(t, now);
    assert forall id | id in t'.jobs :: t'.jobs[id] == Requeue(t.jobs[id], now);
  }

  lemma ReapOldKeepsInv(t: Table, retention: Time, now: Time)
    requires Inv(t)
    ensures Inv(ReapOldJobs(t, retention, now))
  {
    var t' := ReapOldJobs(t, retention, now);
    assert forall id | id in t'.jobs :: id in t.jobs && t'.jobs[id] == t.jobs[id];
  }

  /** Every legal step keeps the invariant. */
  lemma StepKeepsInv(c: Config, t: Table, s: Step)
    requires Inv(t) && Legal(t, s)
    ensures Inv(Apply(c, t, s))
  {
    match s
    case DoEnqueue(jobType, payload, version, key, runAt, now) =>
      EnqueueKeepsInv(t, c, jobType, payload, version, key, runAt, now);
    case DoClaim(jobType, owner, now) => ClaimKeepsInv(t, c, jobType, owner, now);
    case DoComplete(id, now) => CompleteKeepsInv(t, id, now);
    case DoFail(id, error, now) => FailKeepsInv(t, c, id, error, now);
    case DoReapLeases(now) => ReapKeepsInv(t, now);
    case DoReapOld(retention, now) => ReapOldKeepsInv(t, retention, now);
  }

  lemma {:induction false} RunKeepsInv(c: Config, start: Table, steps: seq<Step>)
    requires Inv(start) && Run(c, start, steps)
    ensures Inv(Exec(c, start, steps))
  {
    if steps != [] {
      RunKeepsInv(c, start, Front(steps));
      StepKeepsInv(c, Exec(c, start, Front(steps)), Last(steps));
    }
  }

  /** `complete` checks no status. Applied to any row it keeps the invariant exactly
      unless it revives a dead job whose key another active job has taken since. */
  lemma CompleteKeepsInvIff(t: Table, id: nat, now: Time)
    requires Inv(t)
    ensures Inv(Complete(t, id, now)) <==>
            !(id in t.jobs && t.jobs[id].status.Dead? && Taken(t, t.jobs[id].jobType, t.jobs[id].key))
  {
    var t' := Complete(t, id, now);
    if id in t.jobs && t.jobs[id].status.Dead? {
      var j := t.jobs[id];
      if Taken(t, j.jobType, j.key) {
        var other :| other in t.jobs && Occupies(t.jobs[other], j.jobType, j.key);
        assert Active(t'.jobs[other]) && Active(t'.jobs[id]) && other != id;
        assert !SingleActive(t');
      } else {
        forall a | a in t.jobs && Active(t.jobs[a]) && t.jobs[a].jobType == j.jobType
          ensures t.jobs[a].key != j.key
        {
          assert !Occupies(t.jobs[a], j.jobType, j.key);
        }
      }
    }
  }

  const ExampleConfig := Config(SECOND, 1, SECOND)
  const ExampleKey := DedupeKey("scan", 7, None)
  const ExampleSteps := [
    DoEnqueue("scan.run", map[], 1, ExampleKey, None, 0),
    DoClaim("scan.run", "w", 1),
    DoFail(0, "broken", 2),
    DoEnqueue("scan.run", map[], 1, ExampleKey, None, 3)]

  lemma ExampleDead()
    ensures var t := Exec(ExampleConfig, Empty, ExampleSteps[..3]);
            && Run(ExampleConfig, Empty, ExampleSteps[..3])
            && t.nextId == 1 && t.jobs.Keys == {0} && t.jobs[0].status.Dead?
            && t.jobs[0].jobType == "scan.run" && t.jobs[0].key == ExampleKey
  {
    var s0, s1, s2, s3 := ExampleSteps[..0], ExampleSteps[..1], ExampleSteps[..2], ExampleSteps[..3];
    assert s0 == [] && Front(s1) == s0 && Front(s2) == s1 && Front(s3) == s2;
    assert Last(s1) == ExampleSteps[0] && Last(s2) == ExampleSteps[1] && Last(s3) == ExampleSteps[2];
    var t1 := Exec(ExampleConfig, Empty, s1);
    assert Exec(ExampleConfig, Empty, s0) == Empty && !Taken(Empty, "scan.run", ExampleKey);
    assert t1 == Table(map[0 := NewJob(ExampleConfig, "scan.run", map[], 1, ExampleKey, None, 0)], 1);
    assert Claimable(t1.jobs[0], "scan.run", 1);
    assert Candidate(t1, "scan.run", 1) == Some(0);
    var t2 := Exec(ExampleConfig, Empty, s2);
    assert t2.jobs[0].status.Running? && t2.jobs[0].attempts == 1;
    assert Run(ExampleConfig, Empty, s0);
    assert Run(ExampleConfig, Empty, s1);
    assert Run(ExampleConfig, Empty, s2);
  }

  /** A reachable table on which completing a dead job breaks the invariant: two active jobs, one key. */
  lemma CompletingDeadJobCanBreakInv()
    ensures var t := Exec(ExampleConfig, Empty, ExampleSteps);
            Run(ExampleConfig, Empty, ExampleSteps) && Inv(t) && 0 in t.jobs && !Inv(Complete(t, 0, 4))
  {
    ExampleDead();
    var t3, t := Exec(ExampleConfig, Empty, ExampleSteps[..3]), Exec(ExampleConfig, Empty, ExampleSteps);
    assert Front(ExampleSteps) == ExampleSteps[..3];
    assert !Taken(t3, "scan.run", ExampleKey);
    assert Occupies(t.jobs[1], "scan.run", ExampleKey);
    RunKeepsInv(ExampleConfig, Empty, ExampleSteps);
    CompleteKeepsInvIff(t, 0, 4);
  }

  /* ---------- dead stays dead ---------- */

  ghost predicate Buried(t: Table, id: nat) {
    id < t.nextId && (id in t.jobs ==> t.jobs[id].status.Dead?)
  }

  /** A dead-lettered job is never queued, running or succeeded again. */
  lemma {:induction false} DeadForever(c: Config, start: Table, steps: seq<Step>, id: nat)
    requires Inv(start) && Run(c, start, steps) && Buried(start, id)
    ensures Buried(Exec(c, start, steps), id)
  {
    if steps != [] {
      DeadForever(c, start, Front(steps), id);
      RunKeepsInv(c, start, Front(steps));
    }
  }

  /* ---------- attempts, claims and reaps ---------- */

  function ClaimOf(t: Table, s: Step): Option<nat> {
    if s.DoClaim? then Candidate(t, s.jobType, s.now) else None
  }

  predicate ReapOf(t: Table, s: Step, id: nat) {
    s.DoReapLeases? && id in t.jobs && Stale(t.jobs[id], s.now)
  }

  function Claims(c: Config, steps: seq<Step>, id: nat): nat {
    if steps == [] then 0
    else Claims(c, Front(steps), id)
         + if ClaimOf(Exec(c, Empty, Front(steps)), Last(steps)) == Some(id) then 1 else 0
  }

  function Reaps(c: Config, steps: seq<Step>, id: nat): nat {
    if steps == [] then 0
    else Reaps(c, Front(steps), id) + if ReapOf(Exec(c, Empty, Front(steps)), Last(steps), id) then 1 else 0
  }

  predicate WithinAttempts(j: Job, reaps: nat) {
    if j.status.Queued? then j.attempts < j.maxAttempts + reaps else j.attempts <= j.maxAttempts + reaps
  }

  /** The attempts column counts the claims, and only a reaped lease buys another one. */
  lemma {:induction false} AttemptsBound(c: Config, steps: seq<Step>, id: nat)
    requires c.maxAttempts >= 1 && Run(c, Empty, steps)
    ensures var t := Exec(c, Empty, steps);
            && (id >= t.nextId ==> id !in t.jobs && Claims(c, steps, id) == 0)
            && (id in t.jobs ==>
                  && t.jobs[id].maxAttempts == c.maxAttempts
                  && t.jobs[id].attempts == Claims(c, steps, id)
                  && WithinAttempts(t.jobs[id], Reaps(c, steps, id)))
  {
    if steps != [] {
      AttemptsBound(c, Front(steps), id);
      RunKeepsInv(c, Empty, Front(steps));
      AttemptsStep(c, Exec(c, Empty, Front(steps)), Last(steps), id, Reaps(c, Front(steps), id));
    }
  }

  /** A step adds an attempt exactly by claiming the job, and reaping its lease is what leaves room for it. */
  lemma AttemptsStep(c: Config, t: Table, s: Step, id: nat, reaps: nat)
    requires c.maxAttempts >= 1 && Inv(t) && Legal(t, s)
    requires id in t.jobs ==> t.jobs[id].maxAttempts == c.maxAttempts && WithinAttempts(t.jobs[id], reaps)
    ensures var t' := Apply(c, t, s);
            && t'.nextId >= t.nextId && (ClaimOf(t, s) == Some(id) ==> id in t.jobs)
            && (id in t'.jobs && id !in t.jobs ==> id == t.nextId < t'.nextId && t'.jobs[id].attempts == 0)
            && (id in t'.jobs ==>
                  && t'.jobs[id].maxAttempts == c.maxAttempts
                  && WithinAttempts(t'.jobs[id], reaps + if ReapOf(t, s, id) then 1 else 0)
                  && (id in t.jobs ==>
                        t'.jobs[id].attempts == t.jobs[id].attempts + if ClaimOf(t, s) == Some(id) then 1 else 0))
  {
  }

  /** A job no lease of which was ever reaped, and which was not acknowledged, is dead
      exactly when it has been claimed max_attempts times and is not being worked on. */
  lemma DeadAfterExactlyMaxClaims(c: Config, steps: seq<Step>, id: nat)
    requires c.maxAttempts >= 1 && Run(c, Empty, steps)
    requires Reaps(c, steps, id) == 0
    requires var t := Exec(c, Empty, steps);
             id in t.jobs && !t.jobs[id].status.Succeeded? && !t.jobs[id].status.Running?
    ensures Exec(c, Empty, steps).jobs[id].status.Dead? <==> Claims(c, steps, id) == c.maxAttempts
  {
    AttemptsBound(c, steps, id);
    RunKeepsInv(c, Empty, steps);
  }
}
