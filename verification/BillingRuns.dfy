/** Every run of the billing service and its worker: no timed subscription is forgotten. */
module BillingRuns {
  import opened Common
  import opened QueueTable
  import opened BillingState
  import QueueRuns

  datatype Step =
    | DoEnsure(org: int, r: Reads)
    | DoTransition(org: int, new_: SubStatus, r: Reads)
    | DoWebhook(org: int, provider: string, eventId: string, eventType: string, r: Reads)
    | DoChangePlan(org: int, plan: string, r: Reads)
    | DoReconcile(org: int, r: Reads)
    | DoWork(owner: string, claimed: Time, visits: seq<Visit>, done: Time)
    | DoOther(other: QueueRuns.Step)  // other users of the shared queue, and the reapers

  function Apply(c: Settings, db: DB, s: Step): DB
    requires FREE in c.catalog
  {
    match s
    case DoEnsure(org, r) => Ensure(db, c, org, r)
    case DoTransition(org, new_, r) =>
      var db' := Ensure(db, c, org, r);
      if TransitionError(c, db'.subs[org], new_).Some? then db else Transition(db', c, org, new_, r)
    case DoWebhook(org, provider, eventId, eventType, r) => Webhook(db, c, org, provider, eventId, eventType, r)
    case DoChangePlan(org, plan, r) =>
      if PlanError(c, plan).Some? then db else ChangePlan(Ensure(db, c, org, r), c, org, plan, r)
    case DoReconcile(org, r) => Reconcile(db, c, org, r)
    case DoWork(owner, claimed, visits, done) => Work(db, c, owner, claimed, visits, done)
    case DoOther(other) => db.(queue := QueueRuns.Apply(DEFAULT_QUEUE, db.queue, other))
  }

  function Begin(s: Step): Time {
    if s.DoWork? then s.claimed else if s.DoOther? then s.other.now else s.r.create
  }

  function End(s: Step): Time {
    if s.DoWork? then s.done else if s.DoOther? then s.other.now else s.r.again
  }

  predicate Within(r: Reads, begin: Time, end: Time) {
    begin <= r.create && Ordered(r) && r.again <= end
  }

  // Shorter than the periods that may begin in it.
  predicate Short(c: Settings, begin: Time, end: Time) {
    end < begin + c.trial && end < begin + c.grace
  }

  // The step reads the clock in order and is short.
  predicate Prompt(c: Settings, s: Step) {
    && Begin(s) <= End(s) && Short(c, Begin(s), End(s))
    && (s.DoWork? ==> forall v | v in s.visits :: Within(v.times, s.claimed, s.done))
    && (!s.DoWork? && !s.DoOther? ==> Ordered(s.r))
  }

  predicate Foreign(t: Table, s: QueueRuns.Step) {
    QueueRuns.Legal(t, s) && ((s.DoEnqueue? || s.DoClaim?) ==> s.jobType != RECONCILE)
  }

  ghost predicate Legal(db: DB, s: Step) {
    match s
    case DoWork(owner, claimed, visits, done) =>
      var job := Candidate(db.queue, RECONCILE, claimed);
      job.Some? ==> Visits(db, db.queue.jobs[job.value].payload, visits)
    case DoOther(other) => Foreign(db.queue, other)
    case _ => s.org >= 1
  }

  const Empty := DB(map[], map[], QueueRuns.Empty)

  function Exec(c: Settings, steps: seq<Step>): DB
    requires FREE in c.catalog
  {
    if steps == [] then Empty else Apply(c, Exec(c, Front(steps)), Last(steps))
  }

  function Clock(start: Time, steps: seq<Step>): Time {
    if steps == [] then start else End(Last(steps))
  }

  // A change to past_due that does not come from a reconcile.
  predicate ForcesPastDue(s: Step) {
    (s.DoTransition? && s.new_.PastDue?) || (s.DoWebhook? && WebhookStatus(s.eventType) == Some(PastDue))
  }

  // A step begins when the previous one has ended; a forced change to past_due, strictly later.
  predicate Follows(s: Step, clock: Time) {
    if ForcesPastDue(s) then clock < Begin(s) else clock <= Begin(s)
  }

  ghost predicate Run(c: Settings, start: Time, steps: seq<Step>)
    requires FREE in c.catalog
  {
    steps == [] ||
    (var before, s := Front(steps), Last(steps);
     && Run(c, start, before)
     && Follows(s, Clock(start, before)) && Prompt(c, s)
     && Legal(Exec(c, before), s))
  }

  ghost predicate Sane(c: Settings) {
    FREE in c.catalog && c.pastDue > 0 && c.trial > 0 && c.grace > 0
  }

  /* ---------- the invariant ---------- */

  predicate BillingJob(j: Job) {
    && j.key == BillingKey(j.key.subject, j.nextAttemptAt)
    && j.key.subject >= 1
    && j.payload == OrgPayload(j.key.subject)
    && !j.status.Dead?
  }

  // Reconcile jobs are well formed, and those already claimed were due by `bound`.
  ghost predicate JobInv(q: Table, bound: Time) {
    && QueueRuns.Inv(q)
    && forall id | id in q.jobs && q.jobs[id].jobType == RECONCILE ::
         BillingJob(q.jobs[id]) && (q.jobs[id].status.Queued? || q.jobs[id].nextAttemptAt <= bound)
  }

  ghost predicate NoneRunning(q: Table) {
    forall id | id in q.jobs && q.jobs[id].jobType == RECONCILE :: !q.jobs[id].status.Running?
  }

  predicate IsPending(j: Job, org: int, at: Time) {
    j.jobType == RECONCILE && j.status.Queued? && j.payload == OrgPayload(org) && j.nextAttemptAt == at
  }

  ghost predicate Pending(q: Table, org: int, at: Time) {
    exists id | id in q.jobs :: IsPending(q.jobs[id], org, at)
  }

  /** A reconcile job is queued for the deadline of a timed subscription; for past_due it
      is due by the deadline, or by now if that is later. */
  ghost predicate Covered(c: Settings, q: Table, org: int, sub: Sub, now: Time) {
    match sub.status
    case Trial => sub.trialEndsAt.Some? && Pending(q, org, sub.trialEndsAt.value)
    case GracePeriod => sub.graceEndsAt.Some? && Pending(q, org, sub.graceEndsAt.value)
    case PastDue => exists at :: at <= Max(sub.updatedAt + c.pastDue, now) && Pending(q, org, at)
    case _ => true
  }

  /** The lifecycle columns agree with the status. */
  predicate Coherent(c: Settings, sub: Sub) {
    && sub.plan in c.catalog
    && sub.snapshot == Snapshot(sub.plan, sub.status, c.catalog[sub.plan])
    && (sub.canceledAt.Some? <==> sub.status.Canceled?)
    && (sub.status.GracePeriod? ==> sub.graceEndsAt.Some?)
    && (sub.status.Paid? ==> sub.graceEndsAt.None?)
    && (sub.status.Trial? ==> sub.trialEndsAt.Some?)
  }

  predicate SubInv(c: Settings, sub: Sub, bound: Time) {
    Coherent(c, sub) && sub.updatedAt <= bound
  }

  ghost predicate Inv(c: Settings, db: DB, bound: Time) {
    && JobInv(db.queue, bound)
    && NoneRunning(db.queue)
    && forall org | org in db.subs ::
         org >= 1 && SubInv(c, db.subs[org], bound) && Covered(c, db.queue, org, db.subs[org], bound)
  }

  /* ---------- enqueuing a reconcile job ---------- */

  // Queued reconcile jobs survive.
  ghost predicate Kept(q: Table, q': Table) {
    forall id | id in q.jobs && q.jobs[id].jobType == RECONCILE && q.jobs[id].status.Queued? ::
      id in q'.jobs && q'.jobs[id] == q.jobs[id]
  }

  lemma KeptCovers(c: Settings, q: Table, q': Table, org: int, sub: Sub, now: Time, later: Time)
    requires Kept(q, q') && Covered(c, q, org, sub, now) && now <= later
    ensures Covered(c, q', org, sub, later)
  {
    forall at | Pending(q, org, at)
      ensures Pending(q', org, at)
    {
      var id :| id in q.jobs && IsPending(q.jobs[id], org, at);
      assert IsPending(q'.jobs[id], org, at);
    }
  }

  // Existing rows stay as they are, and the new ones are queued at the end.
  ghost predicate Extends(q: Table, q': Table) {
    && q.nextId <= q'.nextId
    && (forall id | id in q.jobs :: id in q'.jobs && q'.jobs[id] == q.jobs[id])
    && (forall id | id in q'.jobs && id !in q.jobs :: q'.jobs[id].status.Queued? && id >= q.nextId)
  }

  lemma ExtendsTransitive(q: Table, q1: Table, q2: Table)
    requires Extends(q, q1) && Extends(q1, q2)
    ensures Extends(q, q2)
  {
  }

  lemma EnqueueReconcileKeeps(q: Table, org: int, at: Time, now: Time, bound: Time)
    requires JobInv(q, bound) && org >= 1
    ensures var q' := EnqueueReconcile(q, org, at, now);
            JobInv(q', bound) && Extends(q, q')
  {
    QueueRuns.EnqueueKeepsInv(q, DEFAULT_QUEUE, RECONCILE, OrgPayload(org), 1, BillingKey(org, at), Some(at), now);
  }

  // The key of the job is held by one that has already been claimed.
  ghost predicate Spent(q: Table, org: int, at: Time) {
    exists id | id in q.jobs :: Occupies(q.jobs[id], RECONCILE, BillingKey(org, at)) && !q.jobs[id].status.Queued?
  }

  /** Scheduling a deadline leaves a queued job for it exactly when its key was not spent. */
  lemma EnqueueReconcileCoversIff(q: Table, org: int, at: Time, now: Time, bound: Time)
    requires JobInv(q, bound) && org >= 1
    ensures Pending(EnqueueReconcile(q, org, at, now), org, at) <==> !Spent(q, org, at)
  {
    var q' := EnqueueReconcile(q, org, at, now);
    var key := BillingKey(org, at);
    if Taken(q, RECONCILE, key) {
      var id :| id in q.jobs && Occupies(q.jobs[id], RECONCILE, key);
      assert q.jobs[id].payload == OrgPayload(org) && q.jobs[id].nextAttemptAt == at;
      if q.jobs[id].status.Queued? {
        assert IsPending(q'.jobs[id], org, at);
      } else {
        forall other | other in q'.jobs
          ensures !IsPending(q'.jobs[other], org, at)
        {
          OnePayloadPerOrg(q.jobs[other].key.subject, org);
        }
      }
    } else {
      assert IsPending(q'.jobs[q.nextId], org, at);
    }
  }

  lemma OnePayloadPerOrg(org: int, other: int)
    ensures OrgPayload(org) == OrgPayload(other) ==> org == other
  {
    assert OrgPayload(org)["organizationId"] == org && OrgPayload(other)["organizationId"] == other;
  }

  /** A deadline later than every claimed job's cannot be spent. */
  lemma EnqueueReconcileCovers(q: Table, org: int, at: Time, now: Time, bound: Time)
    requires JobInv(q, bound) && org >= 1 && at > bound
    ensures Pending(EnqueueReconcile(q, org, at, now), org, at)
  {
    EnqueueReconcileCoversIff(q, org, at, now, bound);
    forall id | id in q.jobs && q.jobs[id].jobType == RECONCILE && q.jobs[id].key == BillingKey(org, at)
      ensures q.jobs[id].status.Queued?
    {
      assert q.jobs[id].nextAttemptAt == at;
    }
  }

  lemma ScheduleKeeps(q: Table, c: Settings, org: int, sub: Sub, now: Time, bound: Time)
    requires JobInv(q, bound) && org >= 1
    ensures var q' := Schedule(q, c, org, sub, now);
            JobInv(q', bound) && Extends(q, q')
  {
    var at := NextPending(c, sub, now);
    if at.Some? {
      EnqueueReconcileKeeps(q, org, at.value, now, bound);
    }
  }

  lemma ScheduleCovers(q: Table, c: Settings, org: int, sub: Sub, now: Time, bound: Time)
    requires JobInv(q, bound) && org >= 1
    requires NextPending(c, sub, now).Some? && NextPending(c, sub, now).value > bound
    ensures Pending(Schedule(q, c, org, sub, now), org, NextPending(c, sub, now).value)
  {
    EnqueueReconcileCovers(q, org, NextPending(c, sub, now).value, now, bound);
  }

  /* ---------- the operations ---------- */

  // What an operation on `org` leaves alone.
  ghost predicate OthersKept(db: DB, db': DB, org: int) {
    && Extends(db.queue, db'.queue)
    && db'.subs.Keys == db.subs.Keys + {org}
    && forall o | o in db.subs && o != org :: db'.subs[o] == db.subs[o]
  }

  lemma EnsureKeeps(db: DB, c: Settings, org: int, r: Reads, bound: Time)
    requires Sane(c) && Ordered(r) && Short(c, r.create, r.again) && bound <= r.create
    requires JobInv(db.queue, bound) && org >= 1
    ensures var db' := Ensure(db, c, org, r);
            && JobInv(db'.queue, bound) && OthersKept(db, db', org)
            && (org !in db.subs ==> db'.subs[org] == NewSub(c, r) && SubInv(c, db'.subs[org], r.createFlush)
                                    && Pending(db'.queue, org, r.create + c.trial))
  {
    if org !in db.subs {
      ScheduleKeeps(db.queue, c, org, NewSub(c, r), r.createSched, bound);
      ScheduleCovers(db.queue, c, org, NewSub(c, r), r.createSched, bound);
    }
  }

  lemma TransitionKeeps(db: DB, c: Settings, org: int, new_: SubStatus, r: Reads, bound: Time)
    requires Sane(c) && Ordered(r) && Short(c, r.create, r.again)
    requires JobInv(db.queue, bound) && org in db.subs && org >= 1
    requires SubInv(c, db.subs[org], r.now) && bound <= r.create
    ensures var db' := Transition(db, c, org, new_, r);
            && JobInv(db'.queue, bound) && OthersKept(db, db', org)
            && SubInv(c, db'.subs[org], r.flush)
            && (db'.subs[org] == db.subs[org] || db'.subs[org].updatedAt == r.flush)
  {
    if new_ != db.subs[org].status && TransitionError(c, db.subs[org], new_).None? && Timed(new_) {
      ScheduleKeeps(db.queue, c, org, Changed(c, db.subs[org], new_, r.change), r.sched, bound);
    }
  }

  /** A transition outside the worker; to past_due, strictly after everything claimed so far. */
  lemma TransitionCovers(db: DB, c: Settings, org: int, new_: SubStatus, r: Reads, bound: Time)
    requires Sane(c) && Ordered(r) && Short(c, r.create, r.again)
    requires JobInv(db.queue, bound) && org in db.subs && org >= 1
    requires SubInv(c, db.subs[org], r.now) && bound <= r.create && (new_.PastDue? ==> bound < r.create)
    requires Covered(c, db.queue, org, db.subs[org], r.flush)
    ensures var db' := Transition(db, c, org, new_, r); Covered(c, db'.queue, org, db'.subs[org], r.flush)
  {
    var sub := db.subs[org];
    if new_ != sub.status && TransitionError(c, sub, new_).None? && Timed(new_) {
      var changed := Changed(c, sub, new_, r.change);
      assert !new_.Trial?;
      ScheduleCovers(db.queue, c, org, changed, r.sched, bound);
      var at := NextPending(c, changed, r.sched).value;
      var db' := Transition(db, c, org, new_, r);
      assert Pending(db'.queue, org, at);
      if new_.PastDue? {
        assert at <= db'.subs[org].updatedAt + c.pastDue;
      }
    }
  }

  lemma ChangePlanCovers(db: DB, c: Settings, org: int, plan: string, r: Reads, bound: Time)
    requires Sane(c) && org in db.subs && SubInv(c, db.subs[org], bound) && bound <= r.flush
    requires Covered(c, db.queue, org, db.subs[org], bound)
    ensures var db' := ChangePlan(db, c, org, plan, r);
            SubInv(c, db'.subs[org], r.flush) && Covered(c, db'.queue, org, db'.subs[org], r.flush)
  {
    var sub := db.subs[org];
    if sub.status.PastDue? && PlanError(c, plan).None? {
      var at :| at <= Max(sub.updatedAt + c.pastDue, bound) && Pending(db.queue, org, at);
      assert at <= Max(ChangePlan(db, c, org, plan, r).subs[org].updatedAt + c.pastDue, r.flush);
    }
  }

  /** Reconcile never asks for a transition ALLOWED_TRANSITIONS refuses. */
  lemma ReconcileNeverRefused(db: DB, c: Settings, org: int, r: Reads)
    requires FREE in c.catalog
    requires org in db.subs ==> db.subs[org].plan in c.catalog
    ensures ReconcileError(db, c, org, r).None?
  {
  }

  // The deadline job of a trial or grace period that had not expired by `bound` is queued.
  ghost predicate DeadlineQueued(q: Table, org: int, sub: Sub, bound: Time) {
    && (sub.status.Trial? && sub.trialEndsAt.Some? && sub.trialEndsAt.value > bound ==>
          Pending(q, org, sub.trialEndsAt.value))
    && (sub.status.GracePeriod? && sub.graceEndsAt.Some? && sub.graceEndsAt.value > bound ==>
          Pending(q, org, sub.graceEndsAt.value))
  }

  /** The scheduling at the end of a reconcile. */
  lemma AgainCovers(q: Table, c: Settings, org: int, sub: Sub, again: Time, bound: Time)
    requires JobInv(q, bound) && org >= 1
    requires sub.status.Trial? ==> sub.trialEndsAt.Some? && Pending(q, org, sub.trialEndsAt.value)
    requires sub.status.GracePeriod? ==> sub.graceEndsAt.Some? && Pending(q, org, sub.graceEndsAt.value)
    requires sub.status.PastDue? ==> bound < sub.updatedAt + c.pastDue
    ensures Covered(c, Schedule(q, c, org, sub, again), org, sub, again)
  {
    var q' := Schedule(q, c, org, sub, again);
    if sub.status.PastDue? {
      ScheduleCovers(q, c, org, sub, again, bound);
      assert Pending(q', org, NextPending(c, sub, again).value);
    } else {
      ScheduleKeeps(q, c, org, sub, again, bound);
      KeptCovers(c, q, q', org, sub, again, again);
    }
  }

  /** Whatever job led to it, a reconcile leaves its own organization covered. */
  lemma ReconcileCovers(db: DB, c: Settings, org: int, r: Reads, bound: Time)
    requires Sane(c) && Ordered(r) && Short(c, r.create, r.again) && bound <= r.create
    requires JobInv(db.queue, bound) && org >= 1
    requires org in db.subs ==> SubInv(c, db.subs[org], bound) && DeadlineQueued(db.queue, org, db.subs[org], bound)
    ensures var db' := Reconcile(db, c, org, r);
            && JobInv(db'.queue, bound) && OthersKept(db, db', org)
            && SubInv(c, db'.subs[org], r.again)
            && Covered(c, db'.queue, org, db'.subs[org], r.again)
  {
    ReconcileNeverRefused(db, c, org, r);
    EnsureKeeps(db, c, org, r, bound);
    ReconcileExisting(Ensure(db, c, org, r), c, org, r, bound);
    ExtendsTransitive(db.queue, Ensure(db, c, org, r).queue, Reconcile(db, c, org, r).queue);
  }

  lemma ReconcileExisting(db: DB, c: Settings, org: int, r: Reads, bound: Time)
    requires Sane(c) && Ordered(r) && Short(c, r.create, r.again) && bound <= r.create
    requires JobInv(db.queue, bound) && org >= 1 && org in db.subs
    requires SubInv(c, db.subs[org], r.now) && DeadlineQueued(db.queue, org, db.subs[org], r.now)
    ensures var db' := Reconcile(db, c, org, r);
            && JobInv(db'.queue, bound) && OthersKept(db, db', org)
            && SubInv(c, db'.subs[org], r.again)
            && Covered(c, db'.queue, org, db'.subs[org], r.again)
  {
    var target := Expiry(c, db.subs[org], r.now);
    if target.Some? {
      TransitionKeeps(db, c, org, target.value, r, bound);
      AgainKeeps(db, Transition(db, c, org, target.value, r), c, org, r, bound);
    } else {
      AgainKeeps(db, db, c, org, r, bound);
    }
    ReconcileNeverRefused(db, c, org, r);
  }

  // From the row after the transition, if there was one.
  lemma AgainKeeps(db: DB, db1: DB, c: Settings, org: int, r: Reads, bound: Time)
    requires Sane(c) && JobInv(db1.queue, bound) && org >= 1 && org in db1.subs && OthersKept(db, db1, org)
    requires SubInv(c, db1.subs[org], r.again) && DeadlineQueued(db1.queue, org, db1.subs[org], r.now)
    requires Expiry(c, db1.subs[org], r.now).None? && bound <= r.now
    ensures var q' := Schedule(db1.queue, c, org, db1.subs[org], r.again);
            var db' := if Timed(db1.subs[org].status) then db1.(queue := q') else db1;
            && JobInv(db'.queue, bound) && OthersKept(db, db', org) && SubInv(c, db'.subs[org], r.again)
            && Covered(c, db'.queue, org, db'.subs[org], r.again)
  {
    var sub1 := db1.subs[org];
    if Timed(sub1.status) {
      ScheduleKeeps(db1.queue, c, org, sub1, r.again, bound);
      AgainCovers(db1.queue, c, org, sub1, r.again, bound);
      ExtendsTransitive(db.queue, db1.queue, Schedule(db1.queue, c, org, sub1, r.again));
    }
  }

  /* ---------- the steps of a run ---------- */

  lemma OthersStayCovered(db: DB, db': DB, c: Settings, org: int, bound: Time, bound': Time)
    requires bound <= bound' && OthersKept(db, db', org)
    requires forall o | o in db.subs && o != org ::
               o >= 1 && SubInv(c, db.subs[o], bound) && Covered(c, db.queue, o, db.subs[o], bound)
    ensures forall o | o in db'.subs && o != org ::
              o >= 1 && SubInv(c, db'.subs[o], bound') && Covered(c, db'.queue, o, db'.subs[o], bound')
  {
    forall o | o in db'.subs && o != org
      ensures o >= 1 && SubInv(c, db'.subs[o], bound') && Covered(c, db'.queue, o, db'.subs[o], bound')
    {
      assert o in db.subs;
      assert Kept(db.queue, db'.queue);
      KeptCovers(c, db.queue, db'.queue, o, db.subs[o], bound, bound');
    }
  }

  lemma EnsureStep(c: Settings, db: DB, org: int, r: Reads, bound: Time)
    requires Sane(c) && Inv(c, db, bound) && org >= 1
    requires Ordered(r) && Short(c, r.create, r.again) && bound <= r.create
    ensures var db' := Ensure(db, c, org, r);
            Inv(c, db', r.createFlush) && JobInv(db'.queue, bound)
  {
    EnsureKeeps(db, c, org, r, bound);
    OthersStayCovered(db, Ensure(db, c, org, r), c, org, bound, r.createFlush);
  }

  lemma TransitionStep(c: Settings, db: DB, org: int, new_: SubStatus, r: Reads, bound: Time)
    requires Sane(c) && Inv(c, db, bound) && org >= 1
    requires Ordered(r) && Short(c, r.create, r.again) && bound <= r.create && (new_.PastDue? ==> bound < r.create)
    ensures Inv(c, Transition(Ensure(db, c, org, r), c, org, new_, r), r.again)
  {
    EnsureStep(c, db, org, r, bound);
    ExistingTransitionStep(c, Ensure(db, c, org, r), org, new_, r, bound);
  }

  lemma ExistingTransitionStep(c: Settings, db: DB, org: int, new_: SubStatus, r: Reads, bound: Time)
    requires Sane(c) && Inv(c, db, r.createFlush) && JobInv(db.queue, bound) && org in db.subs
    requires Ordered(r) && Short(c, r.create, r.again) && bound <= r.create && (new_.PastDue? ==> bound < r.create)
    ensures Inv(c, Transition(db, c, org, new_, r), r.again)
  {
    var db' := Transition(db, c, org, new_, r);
    KeptCovers(c, db.queue, db.queue, org, db.subs[org], r.createFlush, r.flush);
    TransitionKeeps(db, c, org, new_, r, bound);
    TransitionCovers(db, c, org, new_, r, bound);
    KeptCovers(c, db'.queue, db'.queue, org, db'.subs[org], r.flush, r.again);
    OthersStayCovered(db, db', c, org, r.createFlush, r.again);
  }

  lemma ReconcileStep(c: Settings, db: DB, org: int, r: Reads, bound: Time)
    requires Sane(c) && Inv(c, db, bound) && org >= 1
    requires Ordered(r) && Short(c, r.create, r.again) && bound <= r.create
    ensures Inv(c, Reconcile(db, c, org, r), r.again)
  {
    ReconcileCovers(db, c, org, r, bound);
    OthersStayCovered(db, Reconcile(db, c, org, r), c, org, bound, r.again);
  }

  // The one reconcile job being worked on.
  ghost predicate RunsOnly(q: Table, id: nat) {
    && id in q.jobs && q.jobs[id].status.Running?
    && forall other | other in q.jobs && other != id && q.jobs[other].jobType == RECONCILE ::
         !q.jobs[other].status.Running?
  }

  ghost predicate AllCovered(c: Settings, db: DB, now: Time) {
    forall o | o in db.subs :: o >= 1 && SubInv(c, db.subs[o], now) && Covered(c, db.queue, o, db.subs[o], now)
  }

  /** The claimed job is no longer queued, but then the deadline it stood for has come. */
  lemma ClaimLeavesDeadlines(c: Settings, db: DB, owner: string, claimed: Time, bound: Time)
    requires Inv(c, db, bound) && bound <= claimed && Candidate(db.queue, RECONCILE, claimed).Some?
    ensures var id := Candidate(db.queue, RECONCILE, claimed).value;
            var q' := Claim(db.queue, DEFAULT_QUEUE, RECONCILE, owner, claimed);
            var org := db.queue.jobs[id].key.subject;
            && JobInv(q', claimed) && RunsOnly(q', id)
            && (org in db.subs ==> DeadlineQueued(q', org, db.subs[org], claimed))
            && (forall o | o in db.subs && o != org :: Covered(c, q', o, db.subs[o], bound))
  {
    var id := Candidate(db.queue, RECONCILE, claimed).value;
    var q' := Claim(db.queue, DEFAULT_QUEUE, RECONCILE, owner, claimed);
    var org := db.queue.jobs[id].key.subject;
    QueueRuns.StepKeepsInv(DEFAULT_QUEUE, db.queue, QueueRuns.DoClaim(RECONCILE, owner, claimed));
    forall o, at | Pending(db.queue, o, at) && (o != org || at > claimed)
      ensures Pending(q', o, at)
    {
      var other :| other in db.queue.jobs && IsPending(db.queue.jobs[other], o, at);
      assert OrgPayload(org)["organizationId"] == org && OrgPayload(o)["organizationId"] == o;
      assert other != id;
      assert IsPending(q'.jobs[other], o, at);
    }
  }

  lemma CompleteKeeps(q: Table, id: nat, now: Time, bound: Time)
    requires JobInv(q, bound) && bound <= now && RunsOnly(q, id)
    ensures var q' := Complete(q, id, now); JobInv(q', now) && NoneRunning(q') && Kept(q, q')
  {
    QueueRuns.StepKeepsInv(DEFAULT_QUEUE, q, QueueRuns.DoComplete(id, now));
  }

  /** The worker's job names one organization and its handler succeeds. */
  lemma WorkIsOneReconcile(c: Settings, db: DB, owner: string, claimed: Time, visits: seq<Visit>, done: Time,
                           bound: Time)
    requires Sane(c) && Inv(c, db, bound)
    requires Legal(db, DoWork(owner, claimed, visits, done))
    requires Candidate(db.queue, RECONCILE, claimed).Some?
    ensures var id := Candidate(db.queue, RECONCILE, claimed).value;
            var db1 := db.(queue := Claim(db.queue, DEFAULT_QUEUE, RECONCILE, owner, claimed));
            && |visits| == 1 && visits[0].org == db.queue.jobs[id].key.subject >= 1
            && var db2 := Reconcile(db1, c, visits[0].org, visits[0].times);
               Work(db, c, owner, claimed, visits, done) == db2.(queue := Complete(db2.queue, id, done))
  {
    var id := Candidate(db.queue, RECONCILE, claimed).value;
    var db1 := db.(queue := Claim(db.queue, DEFAULT_QUEUE, RECONCILE, owner, claimed));
    assert BillingJob(db.queue.jobs[id]);
    ReconcileNeverRefused(db1, c, visits[0].org, visits[0].times);
    var db2 := Reconcile(db1, c, visits[0].org, visits[0].times);
    assert visits[1..] == [];
    assert ReconcileAll(db1, c, visits) == (db2, None);
  }

  /** Settling the job at the end. */
  lemma SettleKeepsInv(c: Settings, db: DB, id: nat, claimed: Time, done: Time)
    requires JobInv(db.queue, claimed) && claimed <= done && RunsOnly(db.queue, id) && AllCovered(c, db, done)
    ensures Inv(c, db.(queue := Complete(db.queue, id, done)), done)
  {
    CompleteKeeps(db.queue, id, done, claimed);
    forall o | o in db.subs
      ensures Covered(c, Complete(db.queue, id, done), o, db.subs[o], done)
    {
      KeptCovers(c, db.queue, Complete(db.queue, id, done), o, db.subs[o], done, done);
    }
  }

  /** The handler's reconcile, while the job runs. */
  lemma HandlerCovers(c: Settings, db: DB, id: nat, org: int, r: Reads, claimed: Time, done: Time)
    requires Sane(c) && Within(r, claimed, done) && Short(c, claimed, done)
    requires JobInv(db.queue, claimed) && RunsOnly(db.queue, id) && org >= 1
    requires org in db.subs ==>
               SubInv(c, db.subs[org], claimed) && DeadlineQueued(db.queue, org, db.subs[org], claimed)
    requires forall o | o in db.subs && o != org ::
               o >= 1 && SubInv(c, db.subs[o], claimed) && Covered(c, db.queue, o, db.subs[o], claimed)
    ensures var db' := Reconcile(db, c, org, r);
            JobInv(db'.queue, claimed) && RunsOnly(db'.queue, id) && AllCovered(c, db', done)
  {
    var db' := Reconcile(db, c, org, r);
    ReconcileCovers(db, c, org, r, claimed);
    OthersStayCovered(db, db', c, org, claimed, done);
    KeptCovers(c, db'.queue, db'.queue, org, db'.subs[org], r.again, done);
  }

  lemma WorkStep(c: Settings, db: DB, owner: string, claimed: Time, visits: seq<Visit>, done: Time, bound: Time)
    requires Sane(c) && Inv(c, db, bound) && bound <= claimed
    requires Prompt(c, DoWork(owner, claimed, visits, done))
    requires Legal(db, DoWork(owner, claimed, visits, done))
    ensures Inv(c, Work(db, c, owner, claimed, visits, done), done)
  {
    var job := Candidate(db.queue, RECONCILE, claimed);
    if job.Some? {
      WorkIsOneReconcile(c, db, owner, claimed, visits, done, bound);
      assert visits[0] in visits;
      var org, r := visits[0].org, visits[0].times;
      var db1 := db.(queue := Claim(db.queue, DEFAULT_QUEUE, RECONCILE, owner, claimed));
      ClaimLeavesDeadlines(c, db, owner, claimed, bound);
      OthersLater(c, db, db1.queue, org, bound, claimed);
      HandlerCovers(c, db1, job.value, org, r, claimed, done);
      SettleKeepsInv(c, Reconcile(db1, c, org, r), job.value, claimed, done);
    } else {
      LaterInv(c, db, bound, done);
    }
  }

  lemma OthersLater(c: Settings, db: DB, q: Table, org: int, bound: Time, later: Time)
    requires bound <= later && forall o | o in db.subs && o != org :: Covered(c, q, o, db.subs[o], bound)
    ensures forall o | o in db.subs && o != org :: Covered(c, q, o, db.subs[o], later)
  {
    forall o | o in db.subs && o != org
      ensures Covered(c, q, o, db.subs[o], later)
    {
      KeptCovers(c, q, q, o, db.subs[o], bound, later);
    }
  }

  lemma OtherKeeps(q: Table, s: QueueRuns.Step, bound: Time)
    requires JobInv(q, bound) && NoneRunning(q) && Foreign(q, s) && bound <= s.now
    ensures var q' := QueueRuns.Apply(DEFAULT_QUEUE, q, s);
            JobInv(q', s.now) && NoneRunning(q') && Kept(q, q')
  {
    QueueRuns.StepKeepsInv(DEFAULT_QUEUE, q, s);
    OtherJobsOnly(q, s);
  }

  lemma OtherJobsOnly(q: Table, s: QueueRuns.Step)
    requires QueueRuns.Inv(q) && NoneRunning(q) && Foreign(q, s)
    ensures var q' := QueueRuns.Apply(DEFAULT_QUEUE, q, s);
            && Kept(q, q')
            && forall id | id in q'.jobs && q'.jobs[id].jobType == RECONCILE ::
                 id in q.jobs && q'.jobs[id] == q.jobs[id]
  {
  }

  lemma OtherStep(c: Settings, db: DB, s: QueueRuns.Step, bound: Time)
    requires Inv(c, db, bound) && Foreign(db.queue, s) && bound <= s.now
    ensures Inv(c, db.(queue := QueueRuns.Apply(DEFAULT_QUEUE, db.queue, s)), s.now)
  {
    var q' := QueueRuns.Apply(DEFAULT_QUEUE, db.queue, s);
    OtherKeeps(db.queue, s, bound);
    forall o | o in db.subs
      ensures Covered(c, q', o, db.subs[o], s.now)
    {
      KeptCovers(c, db.queue, q', o, db.subs[o], bound, s.now);
    }
  }

  lemma LaterInv(c: Settings, db: DB, bound: Time, later: Time)
    requires Inv(c, db, bound) && bound <= later
    ensures Inv(c, db, later)
  {
    forall o | o in db.subs
      ensures Covered(c, db.queue, o, db.subs[o], later)
    {
      KeptCovers(c, db.queue, db.queue, o, db.subs[o], bound, later);
    }
  }

  lemma WebhookStep(c: Settings, db: DB, org: int, provider: string, eventId: string, eventType: string, r: Reads,
                    bound: Time)
    requires Sane(c) && Inv(c, db, bound) && org >= 1
    requires Ordered(r) && Short(c, r.create, r.again) && bound <= r.create
    requires WebhookStatus(eventType) == Some(PastDue) ==> bound < r.create
    ensures Inv(c, Webhook(db, c, org, provider, eventId, eventType, r), r.again)
  {
    var outcome := WebhookResult(db, c, org, provider, eventId, eventType, r);
    if outcome.Processed? {
      TransitionStep(c, db, org, outcome.status, r, bound);
    } else {
      LaterInv(c, db, bound, r.again);
    }
  }

  lemma ChangePlanStep(c: Settings, db: DB, org: int, plan: string, r: Reads, bound: Time)
    requires Sane(c) && Inv(c, db, bound) && org >= 1
    requires Ordered(r) && Short(c, r.create, r.again) && bound <= r.create
    ensures PlanError(c, plan).None? ==> Inv(c, ChangePlan(Ensure(db, c, org, r), c, org, plan, r), r.again)
    ensures Inv(c, db, r.again)
  {
    LaterInv(c, db, bound, r.again);
    if PlanError(c, plan).None? {
      EnsureStep(c, db, org, r, bound);
      var db0 := Ensure(db, c, org, r);
      ChangePlanCovers(db0, c, org, plan, r, r.createFlush);
      OthersStayCovered(db0, ChangePlan(db0, c, org, plan, r), c, org, r.createFlush, r.again);
      var db' := ChangePlan(db0, c, org, plan, r);
      KeptCovers(c, db'.queue, db'.queue, org, db'.subs[org], r.flush, r.again);
    }
  }

  lemma NewRowStep(c: Settings, db: DB, org: int, r: Reads, bound: Time)
    requires Sane(c) && Inv(c, db, bound) && org >= 1
    requires Ordered(r) && Short(c, r.create, r.again) && bound <= r.create
    ensures Inv(c, Ensure(db, c, org, r), r.again)
  {
    EnsureStep(c, db, org, r, bound);
    LaterInv(c, Ensure(db, c, org, r), r.createFlush, r.again);
  }

  lemma OperatorStep(c: Settings, db: DB, org: int, new_: SubStatus, r: Reads, bound: Time)
    requires Sane(c) && Inv(c, db, bound) && org >= 1
    requires Ordered(r) && Short(c, r.create, r.again) && bound <= r.create && (new_.PastDue? ==> bound < r.create)
    ensures Inv(c, Apply(c, db, DoTransition(org, new_, r)), r.again)
  {
    TransitionStep(c, db, org, new_, r, bound);
    LaterInv(c, db, bound, r.again);
  }

  lemma StepKeepsInv(c: Settings, db: DB, s: Step, bound: Time)
    requires Sane(c) && Inv(c, db, bound)
    requires Follows(s, bound) && Prompt(c, s) && Legal(db, s)
    ensures Inv(c, Apply(c, db, s), End(s))
  {
    match s
    case DoEnsure(org, r) => NewRowStep(c, db, org, r, bound);
    case DoTransition(org, new_, r) => OperatorStep(c, db, org, new_, r, bound);
    case DoWebhook(org, provider, eventId, eventType, r) =>
      WebhookStep(c, db, org, provider, eventId, eventType, r, bound);
    case DoChangePlan(org, plan, r) => ChangePlanStep(c, db, org, plan, r, bound);
    case DoReconcile(org, r) => ReconcileStep(c, db, org, r, bound);
    case DoWork(owner, claimed, visits, done) => WorkStep(c, db, owner, claimed, visits, done, bound);
    case DoOther(other) => OtherStep(c, db, other, bound);
  }

  lemma {:induction false} RunKeepsInv(c: Settings, start: Time, steps: seq<Step>)
    requires Sane(c) && Run(c, start, steps)
    ensures Inv(c, Exec(c, steps), Clock(start, steps))
  {
    if steps != [] {
      var before, s := Front(steps), Last(steps);
      RunKeepsInv(c, start, before);
      StepKeepsInv(c, Exec(c, before), s, Clock(start, before));
    }
  }
}
