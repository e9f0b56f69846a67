/** Why the clock must move between operations, and how late a past_due job can be. */
module BillingExamples {
  import opened Common
  import opened QueueTable
  import opened BillingState
  import opened BillingRuns
  import opened BillingTheorems

  function At(t: Time): Reads { Reads(t, t, t, t, t, t, t, t) }

  const Example := Settings(10, 20, 5, map["free" := map[]], {})
  const ExampleSteps := [
    DoEnsure(1, At(0)),
    DoTransition(1, GracePeriod, At(1)),
    DoWork("w", 10, [Visit(1, At(10))], 10)]

  function ExampleSub(status: SubStatus, graceEndsAt: Option<Time>, updatedAt: Time): Sub {
    Sub("free", status, Snapshot("free", status, map[]), Some(10), graceEndsAt, None, updatedAt)
  }

  function ExampleJob(at: Time, now: Time): Job {
    NewJob(DEFAULT_QUEUE, RECONCILE, OrgPayload(1), 1, BillingKey(1, at), Some(at), now)
  }

  lemma ExampleBeforeWork()
    ensures Exec(Example, ExampleSteps[..2]) ==
            DB(map[1 := ExampleSub(GracePeriod, Some(21), 1)], map[],
               Table(map[0 := ExampleJob(10, 0), 1 := ExampleJob(21, 1)], 2))
    ensures Run(Example, -1, ExampleSteps[..2])
  {
    var s0, s1, s2 := ExampleSteps[..0], ExampleSteps[..1], ExampleSteps[..2];
    assert Front(s2) == s1 && Front(s1) == s0 == [];
    var db0, db1 := Exec(Example, s0), Exec(Example, s1);
    assert db0 == BillingRuns.Empty;
    assert !Taken(db0.queue, RECONCILE, BillingKey(1, 10));
    assert db1 == DB(map[1 := ExampleSub(Trial, None, 0)], map[], Table(map[0 := ExampleJob(10, 0)], 1));
    assert !Taken(db1.queue, RECONCILE, BillingKey(1, 21));
    assert Run(Example, -1, s0);
    assert Last(s1) == ExampleSteps[0] && Clock(-1, s0) == -1;
    assert Run(Example, -1, s1);
    assert Last(s2) == ExampleSteps[1] && Clock(-1, s1) == 0;
  }

  lemma ExampleWork()
    ensures Run(Example, -1, ExampleSteps) && Clock(-1, ExampleSteps) == 10
    ensures var db, done := Exec(Example, ExampleSteps[..2]), Exec(Example, ExampleSteps);
            && done.subs == db.subs && done.subs == map[1 := ExampleSub(GracePeriod, Some(21), 1)]
            && done.queue.jobs.Keys == {0, 1} && done.queue.jobs[0].key == BillingKey(1, 10)
            && done.queue.jobs[0].jobType == RECONCILE && done.queue.jobs[0].status.Succeeded?
            && done.queue.jobs[1] == ExampleJob(21, 1)
  {
    ExampleBeforeWork();
    assert Front(ExampleSteps) == ExampleSteps[..2];
    var db := Exec(Example, ExampleSteps[..2]);
    var claimed := Candidate(db.queue, RECONCILE, 10);
    assert Claimable(db.queue.jobs[0], RECONCILE, 10) && !Claimable(db.queue.jobs[1], RECONCILE, 10);
    assert claimed == Some(0);
    var visits := [Visit(1, At(10))];
    var db1 := db.(queue := Claim(db.queue, DEFAULT_QUEUE, RECONCILE, "w", 10));
    assert Occupies(db1.queue.jobs[1], RECONCILE, BillingKey(1, 21));
    assert Reconcile(db1, Example, 1, At(10)) == db1;
    assert visits[1..] == [];
    assert ReconcileAll(db1, Example, visits) == (db1, None);
    assert Exec(Example, ExampleSteps) == db1.(queue := Complete(db1.queue, 0, 10));
  }

  /** Two operations at the same clock reading can lose the deadline: the scheduled key is that of
      a job that has just succeeded. */
  lemma SameTickForgets()
    ensures var last := DoTransition(1, PastDue, At(10));
            var before := Exec(Example, ExampleSteps);
            var after := Apply(Example, before, last);
            && Run(Example, -1, ExampleSteps)
            && Clock(-1, ExampleSteps) == Begin(last) && Prompt(Example, last) && Legal(before, last)
            && 1 in after.subs && after.subs[1].status.PastDue? && Deadline(Example, after.subs[1]) == Some(15)
            && !HasWork(after.queue, 1, 15)
  {
    ExampleWork();
    var before := Exec(Example, ExampleSteps);
    assert Occupies(before.queue.jobs[0], RECONCILE, BillingKey(1, 10));
    var after := Apply(Example, before, DoTransition(1, PastDue, At(10)));
    assert after.queue == before.queue;
  }

  /* ---------- late by one operation ---------- */

  // The transition is flushed at 3; the worker reads 7 to decide and 9 to schedule.
  const LateSteps := [
    DoEnsure(1, At(0)),
    DoTransition(1, PastDue, Reads(1, 1, 1, 1, 1, 1, 3, 3)),
    DoWork("w", 6, [Visit(1, Reads(7, 7, 7, 7, 9, 9, 9, 9))], 9)]

  lemma LateBeforeWork()
    ensures Exec(Example, LateSteps[..2]) ==
            DB(map[1 := ExampleSub(PastDue, None, 3)], map[],
               Table(map[0 := ExampleJob(10, 0), 1 := ExampleJob(5, 1)], 2))
    ensures Run(Example, -1, LateSteps[..2]) && Clock(-1, LateSteps[..2]) == 3
  {
    var s0, s1, s2 := LateSteps[..0], LateSteps[..1], LateSteps[..2];
    assert Front(s2) == s1 && Front(s1) == s0 == [];
    var db0, db1 := Exec(Example, s0), Exec(Example, s1);
    assert db0 == BillingRuns.Empty;
    assert !Taken(db0.queue, RECONCILE, BillingKey(1, 10));
    assert db1 == DB(map[1 := ExampleSub(Trial, None, 0)], map[], Table(map[0 := ExampleJob(10, 0)], 1));
    assert !Taken(db1.queue, RECONCILE, BillingKey(1, 5));
    assert Run(Example, -1, s0);
    assert Last(s1) == LateSteps[0] && Clock(-1, s0) == -1;
    assert Run(Example, -1, s1);
    assert Last(s2) == LateSteps[1] && Clock(-1, s1) == 0;
  }

  lemma LateWork()
    ensures Run(Example, -1, LateSteps) && Clock(-1, LateSteps) == 9
    ensures var done := Exec(Example, LateSteps);
            && done.subs == map[1 := ExampleSub(PastDue, None, 3)]
            && done.queue.jobs.Keys == {0, 1, 2} && done.queue.jobs[0] == ExampleJob(10, 0)
            && done.queue.jobs[1].status.Succeeded? && done.queue.jobs[2] == ExampleJob(9, 9)
  {
    LateBeforeWork();
    assert Front(LateSteps) == LateSteps[..2];
    var db := Exec(Example, LateSteps[..2]);
    assert !Claimable(db.queue.jobs[0], RECONCILE, 6) && Claimable(db.queue.jobs[1], RECONCILE, 6);
    assert Candidate(db.queue, RECONCILE, 6) == Some(1);
    var visits := [Visit(1, Reads(7, 7, 7, 7, 9, 9, 9, 9))];
    var db1 := db.(queue := Claim(db.queue, DEFAULT_QUEUE, RECONCILE, "w", 6));
    assert !Taken(db1.queue, RECONCILE, BillingKey(1, 9));
    var db2 := db1.(queue := EnqueueReconcile(db1.queue, 1, 9, 9));
    assert Reconcile(db1, Example, 1, visits[0].times) == db2;
    assert visits[1..] == [];
    assert ReconcileAll(db1, Example, visits) == (db2, None);
    assert Exec(Example, LateSteps) == db2.(queue := Complete(db2.queue, 1, 9));
  }

  /** A past_due deadline that passes between the two clock readings of one reconcile: at 9 nothing is
      queued for the deadline 8, only a job that is due now. */
  lemma LateByOneOperation()
    ensures var db := Exec(Example, LateSteps);
            && Run(Example, -1, LateSteps) && Clock(-1, LateSteps) == 9
            && 1 in db.subs && db.subs[1].status.PastDue? && Deadline(Example, db.subs[1]) == Some(8)
            && !HasWork(db.queue, 1, 8) && HasWork(db.queue, 1, 9)
  {
    LateWork();
    DueAtNineOnly(Exec(Example, LateSteps));
  }

  lemma DueAtNineOnly(db: DB)
    requires db.subs == map[1 := ExampleSub(PastDue, None, 3)]
    requires db.queue.jobs.Keys == {0, 1, 2} && db.queue.jobs[0] == ExampleJob(10, 0)
    requires db.queue.jobs[1].status.Succeeded? && db.queue.jobs[2] == ExampleJob(9, 9)
    ensures 1 in db.subs && Deadline(Example, db.subs[1]) == Some(8)
    ensures !HasWork(db.queue, 1, 8) && HasWork(db.queue, 1, 9)
  {
    assert QueuedReconcile(db.queue.jobs[2], 1, 9);
  }
}
