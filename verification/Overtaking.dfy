/** How often a due job can be overtaken by lower-id jobs of its type, leases reaped or not. */
module Overtaking {
  import opened Common
  import opened QueueTable
  import opened QueueRuns

  /** The claims the row has left, counting every reap it has had. */
  function Left(c: Config, steps: seq<Step>, jobType: string, id: nat): int {
    var t := Exec(c, Empty, steps);
    if id in t.jobs && t.jobs[id].jobType == jobType
    then t.jobs[id].maxAttempts - t.jobs[id].attempts + Reaps(c, steps, id)
    else 0
  }

  /** Those of all rows of the type with ids below `bound`. */
  function Budget(c: Config, steps: seq<Step>, jobType: string, bound: nat): int {
    if bound == 0 then 0 else Budget(c, steps, jobType, bound - 1) + Left(c, steps, jobType, bound - 1)
  }

  predicate IsReaped(t: Table, s: Step, jobType: string, id: nat) {
    ReapOf(t, s, id) && t.jobs[id].jobType == jobType
  }

  predicate IsClaimed(t: Table, s: Step, jobType: string, id: nat) {
    ClaimOf(t, s) == Some(id) && s.DoClaim? && s.jobType == jobType
  }

  function RowsClaimed(t: Table, s: Step, jobType: string, bound: nat): nat {
    if bound == 0 then 0
    else RowsClaimed(t, s, jobType, bound - 1) + if IsClaimed(t, s, jobType, bound - 1) then 1 else 0
  }

  function RowsReaped(t: Table, s: Step, jobType: string, bound: nat): nat {
    if bound == 0 then 0
    else RowsReaped(t, s, jobType, bound - 1) + if IsReaped(t, s, jobType, bound - 1) then 1 else 0
  }

  /** How many leases of lower-id jobs of the type the further steps reap. */
  function ReapsBelow(c: Config, before: seq<Step>, ext: seq<Step>, jobType: string, bound: nat): nat {
    if ext == [] then 0
    else ReapsBelow(c, before, Front(ext), jobType, bound)
         + RowsReaped(Exec(c, Empty, before + Front(ext)), Last(ext), jobType, bound)
  }

  function ClaimCalls(steps: seq<Step>, jobType: string): nat {
    if steps == [] then 0
    else ClaimCalls(Front(steps), jobType) + if Last(steps).DoClaim? && Last(steps).jobType == jobType then 1 else 0
  }

  // None of the further steps claims the job.
  predicate NeverClaims(c: Config, before: seq<Step>, ext: seq<Step>, id: nat) {
    ext == [] ||
    (NeverClaims(c, before, Front(ext), id)
     && ClaimOf(Exec(c, Empty, before + Front(ext)), Last(ext)) != Some(id))
  }

  predicate Waiting(t: Table, id: nat, jobType: string, due: Time) {
    && id in t.jobs && t.jobs[id].status.Queued? && t.jobs[id].jobType == jobType
    && t.jobs[id].nextAttemptAt <= due
  }

  /* ---------- one step ---------- */

  /** A row below the waiting job loses one claim when it is claimed and gains one when it is reaped. */
  lemma LeftStep(c: Config, steps: seq<Step>, s: Step, jobType: string, id: nat)
    requires c.maxAttempts >= 1 && Run(c, Empty, steps)
    requires var t := Exec(c, Empty, steps); Legal(t, s) && id < t.nextId
    ensures var t := Exec(c, Empty, steps);
            Left(c, steps + [s], jobType, id) + (if IsClaimed(t, s, jobType, id) then 1 else 0)
            <= Left(c, steps, jobType, id) + if IsReaped(t, s, jobType, id) then 1 else 0
  {
    assert Front(steps + [s]) == steps && Last(steps + [s]) == s;
    AttemptsBound(c, steps, id);
    RunKeepsInv(c, Empty, steps);
    AttemptsStep(c, Exec(c, Empty, steps), s, id, Reaps(c, steps, id));
    if id in Exec(c, Empty, steps + [s]).jobs {
      TypeStep(c, Exec(c, Empty, steps), s, id);
    }
  }

  lemma TypeStep(c: Config, t: Table, s: Step, id: nat)
    requires id < t.nextId && id in Apply(c, t, s).jobs
    ensures id in t.jobs && Apply(c, t, s).jobs[id].jobType == t.jobs[id].jobType
  {
  }

  lemma {:induction false} BudgetStep(c: Config, steps: seq<Step>, s: Step, jobType: string, bound: nat)
    requires c.maxAttempts >= 1 && Run(c, Empty, steps)
    requires var t := Exec(c, Empty, steps); Legal(t, s) && bound <= t.nextId
    ensures var t := Exec(c, Empty, steps);
            Budget(c, steps + [s], jobType, bound) + RowsClaimed(t, s, jobType, bound)
            <= Budget(c, steps, jobType, bound) + RowsReaped(t, s, jobType, bound)
  {
    if bound > 0 {
      BudgetStep(c, steps, s, jobType, bound - 1);
      LeftStep(c, steps, s, jobType, bound - 1);
    }
  }

  lemma {:induction false} ClaimCounts(t: Table, s: Step, jobType: string, id: nat, bound: nat)
    requires id < bound && IsClaimed(t, s, jobType, id)
    ensures RowsClaimed(t, s, jobType, bound) >= 1
  {
    if id < bound - 1 {
      ClaimCounts(t, s, jobType, id, bound - 1);
    }
  }

  lemma {:induction false} BudgetNonNegative(c: Config, steps: seq<Step>, jobType: string, bound: nat)
    requires c.maxAttempts >= 1 && Run(c, Empty, steps)
    ensures Budget(c, steps, jobType, bound) >= 0
  {
    if bound > 0 {
      BudgetNonNegative(c, steps, jobType, bound - 1);
      AttemptsBound(c, steps, bound - 1);
    }
  }

  // A claim of the type takes a lower id than the waiting job's.
  lemma WaitingStep(c: Config, t: Table, s: Step, id: nat, jobType: string, due: Time)
    requires Inv(t) && Legal(t, s) && Waiting(t, id, jobType, due)
    requires s.DoClaim? ==> s.now >= due
    requires ClaimOf(t, s) != Some(id)
    ensures Waiting(Apply(c, t, s), id, jobType, due)
    ensures s.DoClaim? && s.jobType == jobType ==> ClaimOf(t, s).Some? && ClaimOf(t, s).value < id
  {
    if s.DoClaim? && s.jobType == jobType {
      assert Claimable(t.jobs[id], jobType, s.now);
    }
  }

  /* ---------- runs ---------- */

  lemma {:induction false} OvertakingInduction(c: Config, before: seq<Step>, ext: seq<Step>, id: nat, jobType: string,
                                               due: Time)
    requires c.maxAttempts >= 1 && Run(c, Empty, before + ext)
    requires Waiting(Exec(c, Empty, before), id, jobType, due)
    requires forall s | s in ext && s.DoClaim? :: s.now >= due
    requires NeverClaims(c, before, ext, id)
    ensures Waiting(Exec(c, Empty, before + ext), id, jobType, due)
    ensures ClaimCalls(ext, jobType) + Budget(c, before + ext, jobType, id)
            <= Budget(c, before, jobType, id) + ReapsBelow(c, before, ext, jobType, id)
  {
    if ext == [] {
      assert before + ext == before;
    } else {
      var steps, s := before + Front(ext), Last(ext);
      assert before + ext == steps + [s] && Front(steps + [s]) == steps && Last(steps + [s]) == s;
      OvertakingInduction(c, before, Front(ext), id, jobType, due);
      RunKeepsInv(c, Empty, steps);
      WaitingStep(c, Exec(c, Empty, steps), s, id, jobType, due);
      OvertakingStep(c, steps, s, id, jobType);
    }
  }

  lemma OvertakingStep(c: Config, steps: seq<Step>, s: Step, id: nat, jobType: string)
    requires c.maxAttempts >= 1 && Run(c, Empty, steps)
    requires var t := Exec(c, Empty, steps);
             && Legal(t, s) && id < t.nextId
             && (s.DoClaim? && s.jobType == jobType ==> ClaimOf(t, s).Some? && ClaimOf(t, s).value < id)
    ensures Budget(c, steps + [s], jobType, id) + (if s.DoClaim? && s.jobType == jobType then 1 else 0)
            <= Budget(c, steps, jobType, id) + RowsReaped(Exec(c, Empty, steps), s, jobType, id)
  {
    var t := Exec(c, Empty, steps);
    BudgetStep(c, steps, s, jobType, id);
    if s.DoClaim? && s.jobType == jobType {
      ClaimCounts(t, s, jobType, ClaimOf(t, s).value, id);
    }
  }

  /** From any point of any run, a due queued job is overtaken at most as often as the lower-id jobs of
      its type have claims left and leases of theirs are reaped: any more claims reach the job itself. */
  lemma BoundedOvertaking(c: Config, before: seq<Step>, ext: seq<Step>, id: nat, jobType: string, due: Time)
    requires c.maxAttempts >= 1 && Run(c, Empty, before + ext)
    requires Waiting(Exec(c, Empty, before), id, jobType, due)
    requires forall s | s in ext && s.DoClaim? :: s.now >= due
    ensures ClaimCalls(ext, jobType) > Budget(c, before, jobType, id) + ReapsBelow(c, before, ext, jobType, id) ==>
              !NeverClaims(c, before, ext, id)
  {
    if NeverClaims(c, before, ext, id) {
      OvertakingInduction(c, before, ext, id, jobType, due);
      BudgetNonNegative(c, before + ext, jobType, id);
    }
  }

  /* ---------- without lease reaping ---------- */

  predicate NoReaps(steps: seq<Step>) {
    forall i | 0 <= i < |steps| :: !steps[i].DoReapLeases?
  }

  /** Sum of max_attempts - attempts over the rows of the type with ids below `bound`. */
  function AttemptsLeft(t: Table, jobType: string, bound: nat): int {
    if bound == 0 then 0
    else
      var id := bound - 1;
      AttemptsLeft(t, jobType, id)
      + if id in t.jobs && t.jobs[id].jobType == jobType then t.jobs[id].maxAttempts - t.jobs[id].attempts else 0
  }

  lemma {:induction false} NoReapsNone(c: Config, steps: seq<Step>, id: nat)
    requires NoReaps(steps)
    ensures Reaps(c, steps, id) == 0
  {
    if steps != [] {
      NoReapsNone(c, Front(steps), id);
    }
  }

  lemma {:induction false} BudgetIsAttemptsLeft(c: Config, steps: seq<Step>, jobType: string, bound: nat)
    requires NoReaps(steps)
    ensures Budget(c, steps, jobType, bound) == AttemptsLeft(Exec(c, Empty, steps), jobType, bound)
  {
    if bound > 0 {
      BudgetIsAttemptsLeft(c, steps, jobType, bound - 1);
      NoReapsNone(c, steps, bound - 1);
    }
  }

  lemma {:induction false} NoRowsReaped(t: Table, s: Step, jobType: string, bound: nat)
    requires !s.DoReapLeases?
    ensures RowsReaped(t, s, jobType, bound) == 0
  {
    if bound > 0 {
      NoRowsReaped(t, s, jobType, bound - 1);
    }
  }

  lemma {:induction false} NoReapsBelow(c: Config, before: seq<Step>, ext: seq<Step>, jobType: string, bound: nat)
    requires NoReaps(ext)
    ensures ReapsBelow(c, before, ext, jobType, bound) == 0
  {
    if ext != [] {
      NoReapsBelow(c, before, Front(ext), jobType, bound);
      NoRowsReaped(Exec(c, Empty, before + Front(ext)), Last(ext), jobType, bound);
    }
  }

  /** In a run without lease reaping that is the number of attempts the lower-id jobs have left. */
  lemma ReapFreeOvertaking(c: Config, before: seq<Step>, ext: seq<Step>, id: nat, jobType: string, due: Time)
    requires c.maxAttempts >= 1 && Run(c, Empty, before + ext) && NoReaps(before) && NoReaps(ext)
    requires Waiting(Exec(c, Empty, before), id, jobType, due)
    requires forall s | s in ext && s.DoClaim? :: s.now >= due
    ensures ClaimCalls(ext, jobType) > AttemptsLeft(Exec(c, Empty, before), jobType, id) ==>
              !NeverClaims(c, before, ext, id)
  {
    BoundedOvertaking(c, before, ext, id, jobType, due);
    BudgetIsAttemptsLeft(c, before, jobType, id);
    NoReapsBelow(c, before, ext, jobType, id);
  }
}
