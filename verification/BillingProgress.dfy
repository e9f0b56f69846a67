/** How soon the worker gets to a subscription whose deadline has passed. */
module BillingProgress {
  import opened Common
  import opened QueueTable
  import opened BillingState
  import opened BillingRuns
  import opened BillingTheorems
  import QueueRuns

  predicate IsQueued(q: Table, id: nat) {
    id in q.jobs && q.jobs[id].jobType == RECONCILE && q.jobs[id].status.Queued?
  }

  /** The number of queued reconcile jobs with ids below `bound`. */
  function QueuedBelow(q: Table, bound: nat): nat {
    if bound == 0 then 0 else QueuedBelow(q, bound - 1) + if IsQueued(q, bound - 1) then 1 else 0
  }

  // Below `bound` no job has become queued, and `spent` no longer is.
  ghost predicate Thinned(q: Table, q': Table, bound: nat, spent: Option<nat>) {
    && (forall id: nat | id < bound && IsQueued(q', id) :: IsQueued(q, id))
    && (spent.Some? && spent.value < bound ==> IsQueued(q, spent.value) && !IsQueued(q', spent.value))
  }

  lemma {:induction false} ThinnedCounts(q: Table, q': Table, bound: nat, spent: Option<nat>)
    requires Thinned(q, q', bound, spent)
    ensures QueuedBelow(q', bound) + (if spent.Some? && spent.value < bound then 1 else 0) <= QueuedBelow(q, bound)
  {
    if bound > 0 {
      ThinnedCounts(q, q', bound - 1, spent);
    }
  }

  // The job waits for the organization.
  predicate Waits(q: Table, id: nat, org: int, at: Time) {
    id in q.jobs && IsPending(q.jobs[id], org, at)
  }

  /** A worker round that does not claim the waiting job uses up one of those before it. */
  lemma RoundAdvances(c: Settings, db: DB, s: Step, bound: Time, id: nat, org: int, at: Time)
    requires Sane(c) && Inv(c, db, bound) && s.DoWork? && Legal(db, s)
    requires Waits(db.queue, id, org, at) && at <= s.claimed
    requires Candidate(db.queue, RECONCILE, s.claimed) != Some(id)
    ensures var q' := Apply(c, db, s).queue;
            Waits(q', id, org, at) && QueuedBelow(q', id) + 1 <= QueuedBelow(db.queue, id)
  {
    assert Claimable(db.queue.jobs[id], RECONCILE, s.claimed);
    WorkIsOneReconcile(c, db, s.owner, s.claimed, s.visits, s.done, bound);
    QueueRuns.StepKeepsInv(DEFAULT_QUEUE, db.queue, QueueRuns.DoClaim(RECONCILE, s.owner, s.claimed));
    var db1 := db.(queue := Claim(db.queue, DEFAULT_QUEUE, RECONCILE, s.owner, s.claimed));
    ReconcileExtends(c, db1, s.visits[0].org, s.visits[0].times);
    var q2 := Reconcile(db1, c, s.visits[0].org, s.visits[0].times).queue;
    SettledRoundAdvances(db.queue, s.owner, s.claimed, q2, s.done, id, org, at);
  }

  lemma SettledRoundAdvances(q: Table, owner: string, claimed: Time, q2: Table, done: Time, id: nat, org: int, at: Time)
    requires QueueRuns.Inv(q) && Waits(q, id, org, at) && Claimable(q.jobs[id], RECONCILE, claimed)
    requires Candidate(q, RECONCILE, claimed) != Some(id)
    requires Extends(Claim(q, DEFAULT_QUEUE, RECONCILE, owner, claimed), q2)
    ensures var q' := Complete(q2, Candidate(q, RECONCILE, claimed).value, done);
            Waits(q', id, org, at) && QueuedBelow(q', id) + 1 <= QueuedBelow(q, id)
  {
    var first := Candidate(q, RECONCILE, claimed).value;
    var q' := Complete(q2, first, done);
    RoundThins(q, Claim(q, DEFAULT_QUEUE, RECONCILE, owner, claimed), q2, q', first, id);
    ThinnedCounts(q, q', id, Some(first));
  }

  lemma RoundThins(q: Table, q1: Table, q2: Table, q': Table, first: nat, id: nat)
    requires id < q.nextId == q1.nextId && q1.jobs.Keys == q.jobs.Keys && IsQueued(q, first)
    requires forall o | o in q.jobs && o != first :: q1.jobs[o] == q.jobs[o]
    requires Extends(q1, q2) && q'.jobs.Keys == q2.jobs.Keys
    requires forall o | o in q2.jobs && o != first :: q'.jobs[o] == q2.jobs[o]
    requires !IsQueued(q', first)
    ensures Thinned(q, q', id, Some(first))
  {
  }

  lemma EnqueueExtends(q: Table, org: int, at: Time, now: Time)
    requires QueueRuns.Inv(q)
    ensures Extends(q, EnqueueReconcile(q, org, at, now)) && QueueRuns.Inv(EnqueueReconcile(q, org, at, now))
  {
    QueueRuns.EnqueueKeepsInv(q, DEFAULT_QUEUE, RECONCILE, OrgPayload(org), 1, BillingKey(org, at), Some(at), now);
  }

  lemma ScheduleExtends(q: Table, c: Settings, org: int, sub: Sub, now: Time)
    requires QueueRuns.Inv(q)
    ensures Extends(q, Schedule(q, c, org, sub, now)) && QueueRuns.Inv(Schedule(q, c, org, sub, now))
  {
    var at := NextPending(c, sub, now);
    if at.Some? {
      EnqueueExtends(q, org, at.value, now);
    }
  }

  lemma EnsureExtends(c: Settings, db: DB, org: int, r: Reads)
    requires FREE in c.catalog && QueueRuns.Inv(db.queue)
    ensures Extends(db.queue, Ensure(db, c, org, r).queue) && QueueRuns.Inv(Ensure(db, c, org, r).queue)
  {
    ScheduleExtends(db.queue, c, org, NewSub(c, r), r.createSched);
  }

  lemma TransitionExtends(c: Settings, db: DB, org: int, new_: SubStatus, r: Reads)
    requires QueueRuns.Inv(db.queue) && org in db.subs
    ensures Extends(db.queue, Transition(db, c, org, new_, r).queue)
            && QueueRuns.Inv(Transition(db, c, org, new_, r).queue)
  {
    if new_ != db.subs[org].status && TransitionError(c, db.subs[org], new_).None? {
      ScheduleExtends(db.queue, c, org, Changed(c, db.subs[org], new_, r.change), r.sched);
    }
  }

  lemma ReconcileExtends(c: Settings, db: DB, org: int, r: Reads)
    requires FREE in c.catalog && QueueRuns.Inv(db.queue)
    ensures Extends(db.queue, Reconcile(db, c, org, r).queue)
  {
    EnsureExtends(c, db, org, r);
    var db0 := Ensure(db, c, org, r);
    var target := Expiry(c, db0.subs[org], r.now);
    var db1 := if target.Some? then Transition(db0, c, org, target.value, r) else db0;
    if target.Some? {
      TransitionExtends(c, db0, org, target.value, r);
    }
    ScheduleExtends(db1.queue, c, org, db1.subs[org], r.again);
  }

  /** Billing operations outside the worker only add jobs at the end. */
  lemma OperationExtends(c: Settings, db: DB, s: Step)
    requires FREE in c.catalog && QueueRuns.Inv(db.queue) && !s.DoWork? && !s.DoOther?
    ensures Extends(db.queue, Apply(c, db, s).queue)
  {
    EnsureExtends(c, db, s.org, s.r);
    var db0 := Ensure(db, c, s.org, s.r);
    match s
    case DoTransition(org, new_, r) => TransitionExtends(c, db0, org, new_, r);
    case DoWebhook(org, provider, eventId, eventType, r) =>
      var outcome := WebhookResult(db, c, org, provider, eventId, eventType, r);
      if outcome.Processed? {
        TransitionExtends(c, db0, org, outcome.status, r);
      }
    case DoReconcile(org, r) => ReconcileExtends(c, db, org, r);
    case _ =>
  }

  lemma ExtendsThins(q: Table, q': Table, id: nat, org: int, at: Time)
    requires QueueRuns.Inv(q) && Extends(q, q') && Waits(q, id, org, at)
    ensures Waits(q', id, org, at) && QueuedBelow(q', id) <= QueuedBelow(q, id)
  {
    ThinnedCounts(q, q', id, None);
  }

  /** What is not a worker round leaves the waiting job and puts nothing before it. */
  lemma OthersDoNotOvertake(c: Settings, db: DB, s: Step, bound: Time, id: nat, org: int, at: Time)
    requires Sane(c) && Inv(c, db, bound) && !s.DoWork? && Legal(db, s) && Waits(db.queue, id, org, at)
    ensures var q' := Apply(c, db, s).queue;
            Waits(q', id, org, at) && QueuedBelow(q', id) <= QueuedBelow(db.queue, id)
  {
    if s.DoOther? {
      OtherJobsOnly(db.queue, s.other);
      ThinnedCounts(db.queue, Apply(c, db, s).queue, id, None);
    } else {
      OperationExtends(c, db, s);
      ExtendsThins(db.queue, Apply(c, db, s).queue, id, org, at);
    }
  }

  /* ---------- runs ---------- */

  function Rounds(steps: seq<Step>): nat {
    if steps == [] then 0 else Rounds(Front(steps)) + if Last(steps).DoWork? then 1 else 0
  }

  // The k-th step is a worker round that claims the job and reconciles the organization.
  ghost predicate Serves(c: Settings, steps: seq<Step>, k: nat, id: nat, org: int)
    requires FREE in c.catalog
  {
    && k < |steps| && steps[k].DoWork?
    && var db, s := Exec(c, steps[..k]), steps[k];
       && Candidate(db.queue, RECONCILE, s.claimed) == Some(id)
       && |s.visits| == 1 && s.visits[0].org == org
       && var claimed := db.(queue := Claim(db.queue, DEFAULT_QUEUE, RECONCILE, s.owner, s.claimed));
          Exec(c, steps[..k + 1]).subs == Reconcile(claimed, c, org, s.visits[0].times).subs
  }

  predicate ClaimsAt(c: Settings, steps: seq<Step>, k: nat, id: nat)
    requires FREE in c.catalog && k < |steps|
  {
    steps[k].DoWork? && Candidate(Exec(c, steps[..k]).queue, RECONCILE, steps[k].claimed) == Some(id)
  }

  // No step from the n-th on claims the job.
  ghost predicate NotClaimed(c: Settings, steps: seq<Step>, n: nat, id: nat)
    requires FREE in c.catalog
  {
    forall k | n <= k < |steps| :: !ClaimsAt(c, steps, k, id)
  }

  lemma PrefixClaims(c: Settings, steps: seq<Step>, m: nat, k: nat, id: nat)
    requires FREE in c.catalog && k < m <= |steps|
    ensures ClaimsAt(c, steps[..m], k, id) <==> ClaimsAt(c, steps, k, id)
  {
    assert steps[..m][..k] == steps[..k];
  }

  lemma FrontNotClaimed(c: Settings, steps: seq<Step>, n: nat, id: nat)
    requires FREE in c.catalog && n < |steps| && NotClaimed(c, steps, n, id)
    ensures NotClaimed(c, Front(steps), n, id)
  {
    forall k | n <= k < |steps| - 1 ensures !ClaimsAt(c, Front(steps), k, id) {
      PrefixClaims(c, steps, |steps| - 1, k, id);
    }
  }

  lemma LastNotClaimed(c: Settings, steps: seq<Step>, n: nat, id: nat)
    requires FREE in c.catalog && n < |steps| && NotClaimed(c, steps, n, id)
    ensures Last(steps).DoWork? ==> Candidate(Exec(c, Front(steps)).queue, RECONCILE, Last(steps).claimed) != Some(id)
  {
    assert !ClaimsAt(c, steps, |steps| - 1, id);
  }

  lemma {:induction false} RoundsUseUpQueue(c: Settings, start: Time, steps: seq<Step>, n: nat, id: nat,
                                          org: int, at: Time)
    requires Sane(c) && Run(c, start, steps) && n <= |steps|
    requires Waits(Exec(c, steps[..n]).queue, id, org, at)
    requires forall k | n <= k < |steps| && steps[k].DoWork? :: at <= steps[k].claimed
    requires NotClaimed(c, steps, n, id)
    ensures Waits(Exec(c, steps).queue, id, org, at)
    ensures Rounds(steps[n..]) + QueuedBelow(Exec(c, steps).queue, id) <= QueuedBelow(Exec(c, steps[..n]).queue, id)
  {
    if n == |steps| {
      assert steps[..n] == steps;
    } else {
      var front, s := Front(steps), Last(steps);
      assert front[..n] == steps[..n] && Front(steps[n..]) == front[n..];
      FrontNotClaimed(c, steps, n, id);
      LastNotClaimed(c, steps, n, id);
      RoundsUseUpQueue(c, start, front, n, id, org, at);
      RunKeepsInv(c, start, front);
      if s.DoWork? {
        RoundAdvances(c, Exec(c, front), s, Clock(start, front), id, org, at);
      } else {
        OthersDoNotOvertake(c, Exec(c, front), s, Clock(start, front), id, org, at);
      }
    }
  }

  lemma {:induction false} RunPrefix(c: Settings, start: Time, steps: seq<Step>, k: nat)
    requires FREE in c.catalog && Run(c, start, steps) && k <= |steps|
    ensures Run(c, start, steps[..k])
    ensures k < |steps| ==> Legal(Exec(c, steps[..k]), steps[k])
  {
    if k == |steps| {
      assert steps[..k] == steps;
    } else if k == |steps| - 1 {
      assert steps[..k] == Front(steps);
    } else {
      RunPrefix(c, start, Front(steps), k);
      assert Front(steps)[..k] == steps[..k];
    }
  }

  lemma ClaimServes(c: Settings, start: Time, steps: seq<Step>, k: nat, id: nat, org: int, at: Time)
    requires Sane(c) && Run(c, start, steps) && k < |steps| && steps[k].DoWork?
    requires Candidate(Exec(c, steps[..k]).queue, RECONCILE, steps[k].claimed) == Some(id)
    requires Waits(Exec(c, steps[..k]).queue, id, org, at)
    ensures Serves(c, steps, k, id, org)
  {
    RunPrefix(c, start, steps, k);
    RunKeepsInv(c, start, steps[..k]);
    var db, s := Exec(c, steps[..k]), steps[k];
    WorkIsOneReconcile(c, db, s.owner, s.claimed, s.visits, s.done, Clock(start, steps[..k]));
    OnePayloadPerOrg(s.visits[0].org, org);
    assert Front(steps[..k + 1]) == steps[..k] && Last(steps[..k + 1]) == s;
  }

  /** Once the deadline of a timed subscription has passed, a worker round reconciles it, at the latest
      after as many rounds as reconcile jobs were queued before its own. */
  lemma OverdueIsReconciled(c: Settings, start: Time, steps: seq<Step>, n: nat, org: int)
    requires Sane(c) && Run(c, start, steps) && n <= |steps|
    requires var before := Exec(c, steps[..n]);
             && org in before.subs && Timed(before.subs[org].status)
             && (Deadline(c, before.subs[org]).Some? ==>
                   forall k | n <= k < |steps| && steps[k].DoWork? ::
                     steps[k].claimed >= DueBy(c, before.subs[org], Clock(start, steps[..n])))
    ensures var q := Exec(c, steps[..n]).queue;
            exists id: nat :: id in q.jobs && q.jobs[id].payload == OrgPayload(org) && IsQueued(q, id)
                              && (Rounds(steps[n..]) > QueuedBelow(q, id) ==>
                                    exists k: nat :: n <= k && Serves(c, steps, k, id, org))
  {
    RunPrefix(c, start, steps, n);
    NoTimedSubscriptionForgotten(c, start, steps[..n], org);
    var before := Exec(c, steps[..n]);
    var q, limit := before.queue, DueBy(c, before.subs[org], Clock(start, steps[..n]));
    var id :| id in q.jobs && QueuedReconcile(q.jobs[id], org, limit);
    assert IsQueued(q, id);
    if Rounds(steps[n..]) > QueuedBelow(q, id) {
      FirstClaimServes(c, start, steps, n, id, org, q.jobs[id].nextAttemptAt);
    }
  }

  lemma {:induction false} FirstClaimServes(c: Settings, start: Time, steps: seq<Step>, n: nat, id: nat,
                                          org: int, at: Time)
    requires Sane(c) && Run(c, start, steps) && n <= |steps|
    requires Waits(Exec(c, steps[..n]).queue, id, org, at)
    requires forall k | n <= k < |steps| && steps[k].DoWork? :: at <= steps[k].claimed
    requires Rounds(steps[n..]) > QueuedBelow(Exec(c, steps[..n]).queue, id)
    ensures exists k: nat :: n <= k && Serves(c, steps, k, id, org)
  {
    if NotClaimed(c, steps, n, id) {
      RoundsUseUpQueue(c, start, steps, n, id, org, at);
    } else {
      var some: nat :| n <= some < |steps| && ClaimsAt(c, steps, some, id);
      FirstClaim(c, steps, n, id, some);
      var k: nat :| n <= k < |steps| && ClaimsAt(c, steps, k, id) && NotClaimed(c, steps[..k], n, id);
      StillWaits(c, start, steps, n, k, id, org, at);
      ClaimServes(c, start, steps, k, id, org, at);
    }
  }

  lemma StillWaits(c: Settings, start: Time, steps: seq<Step>, n: nat, k: nat, id: nat, org: int, at: Time)
    requires Sane(c) && Run(c, start, steps) && n <= k <= |steps|
    requires Waits(Exec(c, steps[..n]).queue, id, org, at)
    requires forall k | n <= k < |steps| && steps[k].DoWork? :: at <= steps[k].claimed
    requires NotClaimed(c, steps[..k], n, id)
    ensures Waits(Exec(c, steps[..k]).queue, id, org, at)
  {
    RunPrefix(c, start, steps, k);
    assert steps[..k][..n] == steps[..n];
    RoundsUseUpQueue(c, start, steps[..k], n, id, org, at);
  }

  lemma {:induction false} FirstClaim(c: Settings, steps: seq<Step>, n: nat, id: nat, some: nat)
    requires FREE in c.catalog && n <= some < |steps| && ClaimsAt(c, steps, some, id)
    ensures exists k: nat :: n <= k < |steps| && ClaimsAt(c, steps, k, id) && NotClaimed(c, steps[..k], n, id)
    decreases some
  {
    if !NotClaimed(c, steps[..some], n, id) {
      var earlier: nat :| n <= earlier < some && ClaimsAt(c, steps[..some], earlier, id);
      PrefixClaims(c, steps, some, earlier, id);
      FirstClaim(c, steps, n, id, earlier);
    }
  }
}
