/** What the runs of the billing service promise. */
module BillingTheorems {
  import opened Common
  import opened QueueTable
  import opened BillingState
  import opened BillingRuns
  import QueueRuns

  /** When a timed status runs out. */
  function Deadline(c: Settings, sub: Sub): Option<Time> {
    match sub.status
    case Trial => sub.trialEndsAt
    case GracePeriod => sub.graceEndsAt
    case PastDue => Some(sub.updatedAt + c.pastDue)
    case _ => None
  }

  predicate QueuedReconcile(j: Job, org: int, limit: Time) {
    && j.jobType == RECONCILE && j.status.Queued? && j.payload == OrgPayload(org)
    && j.nextAttemptAt <= limit
  }

  ghost predicate HasWork(q: Table, org: int, limit: Time) {
    exists id :: id in q.jobs && QueuedReconcile(q.jobs[id], org, limit)
  }

  /** By when the job must be due: the deadline; or now, if a past_due one has passed. */
  function DueBy(c: Settings, sub: Sub, now: Time): Time
    requires Deadline(c, sub).Some?
  {
    if sub.status.PastDue? then Max(Deadline(c, sub).value, now) else Deadline(c, sub).value
  }

  /** No timed subscription is forgotten: a queued reconcile job of the organization is due by
      its deadline, or, for past_due only, due already. */
  lemma NoTimedSubscriptionForgotten(c: Settings, start: Time, steps: seq<Step>, org: int)
    requires Sane(c) && Run(c, start, steps)
    requires org in Exec(c, steps).subs && Timed(Exec(c, steps).subs[org].status)
    ensures var db := Exec(c, steps);
            && Deadline(c, db.subs[org]).Some?
            && HasWork(db.queue, org, DueBy(c, db.subs[org], Clock(start, steps)))
  {
    RunKeepsInv(c, start, steps);
    var db := Exec(c, steps);
    var sub := db.subs[org];
    var limit := DueBy(c, sub, Clock(start, steps));
    var at := if sub.status.Trial? then sub.trialEndsAt.value
              else if sub.status.GracePeriod? then sub.graceEndsAt.value
              else var at :| at <= limit && Pending(db.queue, org, at); at;
    var id :| id in db.queue.jobs && IsPending(db.queue.jobs[id], org, at);
    assert QueuedReconcile(db.queue.jobs[id], org, limit);
  }

  /** So once a deadline has passed, the worker's claim finds a job. */
  lemma OverdueSubscriptionHasWork(c: Settings, start: Time, steps: seq<Step>, org: int, now: Time)
    requires Sane(c) && Run(c, start, steps)
    requires org in Exec(c, steps).subs && Timed(Exec(c, steps).subs[org].status)
    requires var sub := Exec(c, steps).subs[org];
             Deadline(c, sub).Some? ==> now >= DueBy(c, sub, Clock(start, steps))
    ensures Candidate(Exec(c, steps).queue, RECONCILE, now).Some?
  {
    NoTimedSubscriptionForgotten(c, start, steps, org);
    RunKeepsInv(c, start, steps);
    var db := Exec(c, steps);
    var limit := DueBy(c, db.subs[org], Clock(start, steps));
    var id :| id in db.queue.jobs && QueuedReconcile(db.queue.jobs[id], org, limit);
    QueuedIsCandidate(db.queue, id, org, limit, now);
  }

  lemma QueuedIsCandidate(q: Table, id: nat, org: int, limit: Time, now: Time)
    requires QueueRuns.Inv(q) && id in q.jobs && QueuedReconcile(q.jobs[id], org, limit) && limit <= now
    ensures Candidate(q, RECONCILE, now).Some?
  {
    assert Claimable(q.jobs[id], RECONCILE, now);
  }

  /** A transition into a timed status leaves the organization with work in time exactly if there was
      some before, or the key of its new job had not been spent. */
  lemma TransitionLeavesWorkIff(db: DB, c: Settings, org: int, new_: SubStatus, r: Reads, bound: Time)
    requires Sane(c) && Ordered(r) && Short(c, r.create, r.again)
    requires JobInv(db.queue, bound) && org in db.subs && org >= 1 && db.subs[org].updatedAt <= r.now
    requires new_ != db.subs[org].status && Timed(new_) && TransitionError(c, db.subs[org], new_).None?
    ensures var db' := Transition(db, c, org, new_, r);
            var at := NextPending(c, Changed(c, db.subs[org], new_, r.change), r.sched);
            var limit := DueBy(c, db'.subs[org], r.flush);
            && at.Some? && at.value <= limit
            && (HasWork(db'.queue, org, limit) <==> HasWork(db.queue, org, limit) || !Spent(db.queue, org, at.value))
  {
    var db' := Transition(db, c, org, new_, r);
    var at := NextPending(c, Changed(c, db.subs[org], new_, r.change), r.sched).value;
    EnqueueLeavesWorkIff(db.queue, org, at, r.sched, bound, DueBy(c, db'.subs[org], r.flush));
  }

  lemma EnqueueLeavesWorkIff(q: Table, org: int, at: Time, now: Time, bound: Time, limit: Time)
    requires JobInv(q, bound) && org >= 1
    ensures HasWork(EnqueueReconcile(q, org, at, now), org, limit)
            <==> HasWork(q, org, limit) || (at <= limit && !Spent(q, org, at))
  {
    var q' := EnqueueReconcile(q, org, at, now);
    EnqueueReconcileCoversIff(q, org, at, now, bound);
    if at <= limit && !Spent(q, org, at) {
      var id :| id in q'.jobs && IsPending(q'.jobs[id], org, at);
      assert QueuedReconcile(q'.jobs[id], org, limit);
    }
    if HasWork(q, org, limit) {
      var id :| id in q.jobs && QueuedReconcile(q.jobs[id], org, limit);
      assert QueuedReconcile(q'.jobs[id], org, limit);
    }
    if HasWork(q', org, limit) {
      var id :| id in q'.jobs && QueuedReconcile(q'.jobs[id], org, limit);
      assert id in q.jobs ==> QueuedReconcile(q.jobs[id], org, limit);
    }
  }

  /* ---------- on time for past_due ---------- */

  /** Before its deadline a past_due subscription, like any timed one, has a job due by the deadline. */
  lemma OnTimeBeforeDeadline(c: Settings, start: Time, steps: seq<Step>, org: int)
    requires Sane(c) && Run(c, start, steps)
    requires org in Exec(c, steps).subs && Timed(Exec(c, steps).subs[org].status)
    requires var deadline := Deadline(c, Exec(c, steps).subs[org]);
             deadline.Some? ==> Clock(start, steps) <= deadline.value
    ensures var db := Exec(c, steps);
            && Deadline(c, db.subs[org]).Some?
            && HasWork(db.queue, org, Deadline(c, db.subs[org]).value)
  {
    NoTimedSubscriptionForgotten(c, start, steps, org);
  }

  lemma AgainOnTimeIff(q: Table, c: Settings, org: int, sub: Sub, again: Time, bound: Time)
    requires Sane(c) && JobInv(q, bound) && org >= 1 && sub.status.PastDue? && bound < sub.updatedAt + c.pastDue
    ensures var limit := sub.updatedAt + c.pastDue;
            HasWork(Schedule(q, c, org, sub, again), org, limit) <==> HasWork(q, org, limit) || again <= limit
  {
    var limit := sub.updatedAt + c.pastDue;
    var at := Max(limit, again);
    EnqueueLeavesWorkIff(q, org, at, again, bound, limit);
    EnqueueReconcileCoversIff(q, org, at, again, bound);
    EnqueueReconcileCovers(q, org, at, again, bound);
  }

  /** A reconcile of a past_due subscription that is not suspended yet leaves a job due by the deadline
      exactly if there was one, or it reads the clock no later than that when it schedules. */
  lemma ReconcileOnTimeIff(db: DB, c: Settings, org: int, r: Reads, bound: Time)
    requires Sane(c) && Ordered(r) && JobInv(db.queue, bound) && bound <= r.create && org >= 1 && org in db.subs
    requires db.subs[org].status.PastDue? && Expiry(c, db.subs[org], r.now).None?
    ensures var db', limit := Reconcile(db, c, org, r), db.subs[org].updatedAt + c.pastDue;
            && Deadline(c, db'.subs[org]) == Some(limit)
            && (HasWork(db'.queue, org, limit) <==> HasWork(db.queue, org, limit) || r.again <= limit)
  {
    AgainOnTimeIff(db.queue, c, org, db.subs[org], r.again, bound);
  }

  /** A reconcile that ends a trial or grace period does so exactly if there was one, or the key of its
      first job was not spent, or it reads the clock by the deadline when it schedules again. */
  lemma ExpiryOnTimeIff(db: DB, c: Settings, org: int, r: Reads, bound: Time)
    requires Sane(c) && Ordered(r) && Short(c, r.create, r.again)
    requires JobInv(db.queue, bound) && bound <= r.create && org >= 1 && org in db.subs
    requires Coherent(c, db.subs[org]) && db.subs[org].updatedAt <= r.now
    requires Expiry(c, db.subs[org], r.now) == Some(PastDue)
    ensures var db', limit := Reconcile(db, c, org, r), r.flush + c.pastDue;
            && Deadline(c, db'.subs[org]) == Some(limit)
            && (HasWork(db'.queue, org, limit)
                <==> HasWork(db.queue, org, limit) || r.again <= limit
                     || !Spent(db.queue, org, Max(db.subs[org].updatedAt + c.pastDue, r.sched)))
  {
    ReconcileNeverRefused(db, c, org, r);
    var db1 := Transition(db, c, org, PastDue, r);
    TransitionKeeps(db, c, org, PastDue, r, bound);
    PastDueLeavesWorkIff(db, c, org, r, bound);
    AgainOnTimeIff(db1.queue, c, org, db1.subs[org], r.again, bound);
    ExpiredReconcile(db, c, org, r);
  }

  lemma ExpiredReconcile(db: DB, c: Settings, org: int, r: Reads)
    requires FREE in c.catalog && org in db.subs && Expiry(c, db.subs[org], r.now) == Some(PastDue)
    requires TransitionError(c, db.subs[org], PastDue).None?
    ensures var db1 := Transition(db, c, org, PastDue, r);
            Reconcile(db, c, org, r) == db1.(queue := Schedule(db1.queue, c, org, db1.subs[org], r.again))
  {
  }

  lemma PastDueLeavesWorkIff(db: DB, c: Settings, org: int, r: Reads, bound: Time)
    requires Sane(c) && Ordered(r) && Short(c, r.create, r.again)
    requires JobInv(db.queue, bound) && org in db.subs && org >= 1 && db.subs[org].updatedAt <= r.now
    requires !db.subs[org].status.PastDue? && TransitionError(c, db.subs[org], PastDue).None?
    ensures var db', limit := Transition(db, c, org, PastDue, r), r.flush + c.pastDue;
            && db'.subs[org].status.PastDue? && db'.subs[org].updatedAt == r.flush
            && (HasWork(db'.queue, org, limit)
                <==> HasWork(db.queue, org, limit)
                     || !Spent(db.queue, org, Max(db.subs[org].updatedAt + c.pastDue, r.sched)))
  {
    TransitionLeavesWorkIff(db, c, org, PastDue, r, bound);
  }

  /** In every reachable state the snapshot and the date columns agree with plan and status. */
  lemma LifecycleCoherent(c: Settings, start: Time, steps: seq<Step>, org: int)
    requires Sane(c) && Run(c, start, steps) && org in Exec(c, steps).subs
    ensures var sub := Exec(c, steps).subs[org];
            && sub.snapshot.plan == sub.plan && sub.snapshot.status == sub.status
            && sub.plan in c.catalog && sub.snapshot.entitlements == c.catalog[sub.plan]
            && (sub.canceledAt.Some? <==> sub.status.Canceled?)
            && (sub.status.GracePeriod? ==> sub.graceEndsAt.Some?)
            && (sub.status.Paid? ==> sub.graceEndsAt.None?)
  {
    RunKeepsInv(c, start, steps);
  }

  /** The worker never fails a reconcile job, so none is ever retried or dead-lettered. */
  lemma ReconcileJobsNeverFail(c: Settings, start: Time, steps: seq<Step>, id: nat)
    requires Sane(c) && Run(c, start, steps)
    requires id in Exec(c, steps).queue.jobs && Exec(c, steps).queue.jobs[id].jobType == RECONCILE
    ensures var j := Exec(c, steps).queue.jobs[id];
            && (j.status.Queued? || j.status.Succeeded?)
            && j.key.at == Some(j.nextAttemptAt)
            && (j.status.Succeeded? ==> j.nextAttemptAt <= Clock(start, steps))
  {
    RunKeepsInv(c, start, steps);
  }

  /* ---------- reconciling alone ---------- */

  function Reconciles(c: Settings, db: DB, org: int, rs: seq<Reads>): DB
    requires FREE in c.catalog
  {
    if rs == [] then db else Reconcile(Reconciles(c, db, org, Front(rs)), c, org, Last(rs))
  }

  function Changes(c: Settings, db: DB, org: int, rs: seq<Reads>): nat
    requires FREE in c.catalog
  {
    if rs == [] then 0
    else
      var before, after := Reconciles(c, db, org, Front(rs)), Reconciles(c, db, org, rs);
      Changes(c, db, org, Front(rs))
      + if org in before.subs && org in after.subs && before.subs[org].status != after.subs[org].status then 1 else 0
  }

  function ChangesLeft(s: SubStatus): nat {
    if s.Trial? || s.GracePeriod? then 2 else if s.PastDue? then 1 else 0
  }

  /** The earliest time a timed subscription may be suspended by the clock alone. */
  function SuspensionFloor(c: Settings, sub: Sub): Time
    requires Timed(sub.status) && Deadline(c, sub).Some?
  {
    Deadline(c, sub).value + if sub.status.PastDue? then 0 else c.pastDue
  }

  // What reconciling makes of a subscription: where it may be, and not before when.
  predicate Advanced(c: Settings, before: Sub, after: Sub)
    requires Coherent(c, before) && Coherent(c, after)
  {
    && (!Timed(before.status) ==> after == before)
    && (Timed(before.status) ==>
          if Timed(after.status) then SuspensionFloor(c, after) >= SuspensionFloor(c, before)
          else after.status.Suspended? && after.updatedAt >= SuspensionFloor(c, before))
  }

  lemma ReconcileAdvances(c: Settings, db: DB, org: int, r: Reads)
    requires FREE in c.catalog && org in db.subs && Coherent(c, db.subs[org]) && Ordered(r)
    ensures var db' := Reconcile(db, c, org, r);
            && org in db'.subs && Coherent(c, db'.subs[org]) && Advanced(c, db.subs[org], db'.subs[org])
            && ChangesLeft(db'.subs[org].status) + (if db.subs[org].status != db'.subs[org].status then 1 else 0)
               == ChangesLeft(db.subs[org].status)
  {
  }

  /** By reconcile steps alone a subscription changes at most twice, trial or grace to past_due to
      suspended, and it is suspended no earlier than its deadline plus the past-due period. */
  lemma {:induction false} ReconcileAlone(c: Settings, db: DB, org: int, rs: seq<Reads>)
    requires FREE in c.catalog && org in db.subs && Coherent(c, db.subs[org])
    requires forall r | r in rs :: Ordered(r)
    ensures var after := Reconciles(c, db, org, rs);
            && org in after.subs && Coherent(c, after.subs[org]) && Advanced(c, db.subs[org], after.subs[org])
            && Changes(c, db, org, rs) + ChangesLeft(after.subs[org].status) == ChangesLeft(db.subs[org].status)
  {
    if rs != [] {
      ReconcileAlone(c, db, org, Front(rs));
      assert Last(rs) in rs;
      ReconcileAdvances(c, Reconciles(c, db, org, Front(rs)), org, Last(rs));
    }
  }

  /* ---------- webhooks ---------- */

  predicate Delivers(c: Settings, db: DB, s: Step, provider: string, eventId: string)
    requires FREE in c.catalog
  {
    && s.DoWebhook? && s.provider == provider && s.eventId == eventId
    && WebhookResult(db, c, s.org, provider, eventId, s.eventType, s.r).Processed?
  }

  /** How often the event was processed, rather than refused or recognised as a duplicate. */
  function Deliveries(c: Settings, steps: seq<Step>, provider: string, eventId: string): nat
    requires FREE in c.catalog
  {
    if steps == [] then 0
    else Deliveries(c, Front(steps), provider, eventId)
         + if Delivers(c, Exec(c, Front(steps)), Last(steps), provider, eventId) then 1 else 0
  }

  lemma ReconcileAllKeepsEvents(db: DB, c: Settings, visits: seq<Visit>)
    requires FREE in c.catalog
    ensures ReconcileAll(db, c, visits).0.events == db.events
    decreases |visits|
  {
  }

  /** Any sequence of deliveries processes an event at most once, and it is on record exactly
      if it was processed. */
  lemma {:induction false} ProcessedAtMostOnce(c: Settings, steps: seq<Step>, provider: string, eventId: string)
    requires FREE in c.catalog
    ensures Deliveries(c, steps, provider, eventId) ==
            if (provider, eventId) in Exec(c, steps).events then 1 else 0
  {
    if steps != [] {
      ProcessedAtMostOnce(c, Front(steps), provider, eventId);
      DeliveryStep(c, Exec(c, Front(steps)), Last(steps), provider, eventId);
    }
  }

  /** A step puts the event on record by delivering it, and only if it was not there. */
  lemma DeliveryStep(c: Settings, db: DB, s: Step, provider: string, eventId: string)
    requires FREE in c.catalog
    ensures (provider, eventId) in Apply(c, db, s).events
            <==> (provider, eventId) in db.events || Delivers(c, db, s, provider, eventId)
    ensures Delivers(c, db, s, provider, eventId) ==> (provider, eventId) !in db.events
  {
    if s.DoWork? && Candidate(db.queue, RECONCILE, s.claimed).Some? {
      var claimed := db.(queue := Claim(db.queue, DEFAULT_QUEUE, RECONCILE, s.owner, s.claimed));
      ReconcileAllKeepsEvents(claimed, c, s.visits);
    }
  }

  /** A replay of an event that was processed earlier changes nothing. */
  lemma ReplayIsNoOp(c: Settings, steps: seq<Step>, replay: Step)
    requires FREE in c.catalog && replay.DoWebhook?
    requires Deliveries(c, steps, replay.provider, replay.eventId) > 0
    ensures Apply(c, Exec(c, steps), replay) == Exec(c, steps)
    ensures WebhookResult(Exec(c, steps), c, replay.org, replay.provider, replay.eventId, replay.eventType, replay.r)
            == Duplicate
  {
    ProcessedAtMostOnce(c, steps, replay.provider, replay.eventId);
  }
}
