/** What the billing operations do to the columns of a subscription. */
module BillingLaws {
  import opened Common
  import opened QueueTable
  import opened BillingState
  import opened BillingRuns
  import opened BillingTheorems
  import QueueRuns
  import QueueLaws

  function StatusBefore(db: DB, org: int): SubStatus {
    if org in db.subs then db.subs[org].status else Trial
  }

  /* ---------- provider events ---------- */

  predicate Activates(eventType: string) {
    eventType == "subscription.activated" || eventType == "invoice.payment_succeeded"
    || eventType == "subscription.reactivated"
  }

  predicate GivesGrace(eventType: string) {
    eventType == "subscription.grace_period" || eventType == "invoice.payment_failed"
  }

  // Which new events take effect, by the status they find.
  predicate TakesEffect(eventType: string, before: SubStatus) {
    || Activates(eventType) || eventType == "subscription.canceled"
    || (GivesGrace(eventType) && (before == Trial || before == Paid || before == GracePeriod))
    || (eventType == "subscription.past_due" && (before == Trial || before == GracePeriod || before == PastDue))
    || (eventType == "subscription.suspended" && (before == PastDue || before == Suspended))
    || (eventType == "subscription.created" && before == Trial)
  }

  /** A new event is processed exactly when it takes effect on the status it finds, and then the row has
      the status the event names; any other event leaves no trace. */
  lemma WebhookSetsStatus(db: DB, c: Settings, org: int, provider: string, eventId: string, eventType: string, r: Reads)
    requires FREE in c.catalog && (org in db.subs ==> db.subs[org].plan in c.catalog)
    requires (provider, eventId) !in db.events
    ensures var db' := Webhook(db, c, org, provider, eventId, eventType, r);
            && ((provider, eventId) in db'.events <==> TakesEffect(eventType, StatusBefore(db, org)))
            && ((provider, eventId) !in db'.events ==> db' == db)
            && ((provider, eventId) in db'.events ==>
                  && org in db'.subs
                  && var status := db'.subs[org].status;
                     && (status == Paid <==> Activates(eventType))
                     && (status == GracePeriod <==> GivesGrace(eventType))
                     && (status == PastDue <==> eventType == "subscription.past_due")
                     && (status == Suspended <==> eventType == "subscription.suspended")
                     && (status == Canceled <==> eventType == "subscription.canceled")
                     && (status == Trial <==> eventType == "subscription.created"))
  {
    KnownEvents(eventType);
    if TakesEffect(eventType, StatusBefore(db, org)) {
      EventAllowed(db, c, org, eventType, r);
    } else {
      EventRefused(db, c, org, eventType, r);
    }
  }

  lemma KnownEvents(eventType: string)
    ensures WebhookStatus(eventType) == Some(Paid) <==> Activates(eventType)
    ensures WebhookStatus(eventType) == Some(GracePeriod) <==> GivesGrace(eventType)
    ensures WebhookStatus(eventType) == Some(PastDue) <==> eventType == "subscription.past_due"
    ensures WebhookStatus(eventType) == Some(Suspended) <==> eventType == "subscription.suspended"
    ensures WebhookStatus(eventType) == Some(Canceled) <==> eventType == "subscription.canceled"
    ensures WebhookStatus(eventType) == Some(Trial) <==> eventType == "subscription.created"
  {
  }

  // The pairs of statuses a transition may connect.
  predicate MayFollow(from: SubStatus, to: SubStatus) {
    || to == from
    || (to == Paid && from != Paid)
    || to == Canceled
    || (to == GracePeriod && (from == Trial || from == Paid))
    || (to == PastDue && (from == Trial || from == GracePeriod))
    || (to == Suspended && from == PastDue)
  }

  /** The lifecycle: payment revives from everywhere, cancellation ends from everywhere; suspension comes
      after past_due only, past_due after trial or grace, grace after trial or active, trial never. */
  lemma TransitionAcceptedIff(c: Settings, sub: Sub, new_: SubStatus)
    requires sub.plan in c.catalog
    ensures TransitionError(c, sub, new_).None? <==> MayFollow(sub.status, new_)
    ensures TransitionError(c, sub, new_).Some? ==>
              TransitionError(c, sub, new_) == Some(InvalidTransition(sub.status, new_))
  {
  }

  lemma EventAllowed(db: DB, c: Settings, org: int, eventType: string, r: Reads)
    requires FREE in c.catalog && (org in db.subs ==> db.subs[org].plan in c.catalog)
    requires TakesEffect(eventType, StatusBefore(db, org))
    ensures WebhookStatus(eventType).Some?
    ensures TransitionError(c, Ensure(db, c, org, r).subs[org], WebhookStatus(eventType).value).None?
  {
    KnownEvents(eventType);
    TransitionAcceptedIff(c, Ensure(db, c, org, r).subs[org], WebhookStatus(eventType).value);
  }

  lemma EventRefused(db: DB, c: Settings, org: int, eventType: string, r: Reads)
    requires FREE in c.catalog && (org in db.subs ==> db.subs[org].plan in c.catalog)
    requires !TakesEffect(eventType, StatusBefore(db, org))
    ensures WebhookStatus(eventType).None?
            || TransitionError(c, Ensure(db, c, org, r).subs[org], WebhookStatus(eventType).value).Some?
  {
    KnownEvents(eventType);
    if WebhookStatus(eventType).Some? {
      TransitionAcceptedIff(c, Ensure(db, c, org, r).subs[org], WebhookStatus(eventType).value);
    }
  }

  /** From every reachable state a new payment event brings the subscription back: active, with neither a
      grace deadline nor a cancellation date, and its plan unchanged. */
  lemma PaymentRevives(c: Settings, start: Time, steps: seq<Step>, org: int, provider: string, eventId: string,
                       eventType: string, r: Reads)
    requires Sane(c) && Run(c, start, steps) && org >= 1 && Activates(eventType)
    requires (provider, eventId) !in Exec(c, steps).events
    ensures var db := Exec(c, steps);
            var db' := Apply(c, db, DoWebhook(org, provider, eventId, eventType, r));
            && org in db'.subs && (provider, eventId) in db'.events
            && var sub := db'.subs[org];
               && sub.status == Paid && sub.graceEndsAt == None && sub.canceledAt == None
               && sub.plan == (if org in db.subs then db.subs[org].plan else "free")
               && sub.snapshot.status == Paid && sub.snapshot.plan == sub.plan
  {
    RunKeepsInv(c, start, steps);
    RowRevives(Exec(c, steps), c, org, provider, eventId, eventType, r);
  }

  lemma RowRevives(db: DB, c: Settings, org: int, provider: string, eventId: string, eventType: string, r: Reads)
    requires FREE in c.catalog && (org in db.subs ==> Coherent(c, db.subs[org]))
    requires Activates(eventType) && (provider, eventId) !in db.events
    ensures var db' := Webhook(db, c, org, provider, eventId, eventType, r);
            && org in db'.subs && (provider, eventId) in db'.events
            && var sub := db'.subs[org];
               && sub.status == Paid && sub.graceEndsAt == None && sub.canceledAt == None
               && sub.plan == (if org in db.subs then db.subs[org].plan else "free")
               && sub.snapshot.status == Paid && sub.snapshot.plan == sub.plan
  {
    WebhookSetsStatus(db, c, org, provider, eventId, eventType, r);
  }

  /* ---------- rows ---------- */

  /** The row made on first use: a trial of the free plan, for the length of a trial. */
  lemma FirstUse(db: DB, c: Settings, org: int, r: Reads)
    requires FREE in c.catalog
    ensures var sub' := Ensure(db, c, org, r).subs;
            && sub'.Keys == db.subs.Keys + {org}
            && (forall o | o in db.subs :: sub'[o] == db.subs[o])
            && (org !in db.subs ==>
                  && sub'[org].plan == "free" && sub'[org].status == Trial
                  && sub'[org].trialEndsAt == Some(r.create + c.trial)
                  && sub'[org].graceEndsAt == None && sub'[org].canceledAt == None)
  {
  }

  /** A transition to another status: its dates are taken from the clock, plan and trial end stay. */
  lemma TransitionSetsDates(db: DB, c: Settings, org: int, new_: SubStatus, r: Reads)
    requires org in db.subs && new_ != db.subs[org].status && TransitionError(c, db.subs[org], new_).None?
    ensures var sub, sub' := db.subs[org], Transition(db, c, org, new_, r).subs[org];
            && sub'.status == new_ && sub'.plan == sub.plan && sub'.trialEndsAt == sub.trialEndsAt
            && sub'.updatedAt == r.flush
            && sub'.graceEndsAt == (if new_ == GracePeriod then Some(r.change + c.grace)
                                    else if new_ == Paid then None else sub.graceEndsAt)
            && sub'.canceledAt == (if new_ == Canceled then Some(r.change)
                                   else if new_ == Paid then None else sub.canceledAt)
  {
  }

  /** A change of plan needs a plan of the catalogue that may be launched; it touches plan, snapshot and
      the time of the last change, and that only if something did change. */
  lemma PlanChanges(db: DB, c: Settings, org: int, plan: string, r: Reads)
    requires org in db.subs
    ensures PlanError(c, plan) == None <==> plan in c.catalog && plan in c.launchable
    ensures plan !in c.catalog ==> PlanError(c, plan) == Some(UnknownPlan(plan))
    ensures plan in c.catalog && plan !in c.launchable ==> PlanError(c, plan) == Some(NotLaunchable(plan))
    ensures var sub, db' := db.subs[org], ChangePlan(db, c, org, plan, r);
            var sub' := db'.subs[org];
            && db'.queue == db.queue && db'.subs.Keys == db.subs.Keys
            && sub'.status == sub.status && sub'.trialEndsAt == sub.trialEndsAt
            && sub'.graceEndsAt == sub.graceEndsAt && sub'.canceledAt == sub.canceledAt
            && (if plan in c.catalog && plan in c.launchable
                then && sub'.plan == plan && sub'.snapshot.plan == plan && sub'.snapshot.status == sub.status
                     && sub'.snapshot.entitlements == c.catalog[plan]
                     && sub'.updatedAt == (if sub.plan == plan && sub.snapshot == sub'.snapshot then sub.updatedAt
                                           else r.flush)
                else db' == db)
  {
  }

  /* ---------- reconcile ---------- */

  // The deadline of the status has come.
  predicate Overdue(c: Settings, sub: Sub, now: Time) {
    || (sub.status == Trial && sub.trialEndsAt != None && sub.trialEndsAt.value <= now)
    || (sub.status == GracePeriod && sub.graceEndsAt != None && sub.graceEndsAt.value <= now)
    || (sub.status == PastDue && sub.updatedAt + c.pastDue <= now)
  }

  /** A reconcile moves a subscription exactly if its deadline has come: a trial or grace period to
      past_due, past_due to suspended. Otherwise the row stays as it is. */
  lemma ReconcileMovesIff(db: DB, c: Settings, org: int, r: Reads)
    requires FREE in c.catalog && org in db.subs && db.subs[org].plan in c.catalog
    ensures var sub, db' := db.subs[org], Reconcile(db, c, org, r);
            && org in db'.subs
            && (if Overdue(c, sub, r.now)
                then && db'.subs[org].status == (if sub.status == PastDue then Suspended else PastDue)
                     && db'.subs[org].updatedAt == r.flush && db'.subs[org].plan == sub.plan
                else db'.subs == db.subs)
  {
  }

  /** The time a reconcile job is scheduled for is the deadline of the status; for trial and grace only
      while it lies ahead, for past_due not before now. */
  lemma ScheduledForDeadline(c: Settings, sub: Sub, now: Time)
    ensures var at, deadline := NextPending(c, sub, now), Deadline(c, sub);
            && (sub.status == Trial || sub.status == GracePeriod ==>
                  at == if deadline != None && deadline.value > now then deadline else None)
            && (sub.status == PastDue ==> at == Some(Max(deadline.value, now)))
            && (sub.status == Paid || sub.status == Suspended || sub.status == Canceled ==> at == None)
  {
  }

  /** The job that is enqueued if none holds its key: for this organization and time, with five attempts. */
  lemma ReconcileJob(q: Table, org: int, at: Time, now: Time)
    requires QueueRuns.Inv(q)
    ensures var q', id := EnqueueReconcile(q, org, at, now), q.nextId;
            q' != q ==>
              && id in q'.jobs && q'.jobs[id].jobType == "billing.reconcile"
              && q'.jobs[id].payload == map["organizationId" := org] && q'.jobs[id].nextAttemptAt == at
              && q'.jobs[id].status == Queued && q'.jobs[id].attempts == 0 && q'.jobs[id].maxAttempts == 5
  {
  }

  /* ---------- the sweep ---------- */

  // What one reconcile makes of the row.
  predicate Moved(c: Settings, sub: Sub, sub': Sub, r: Reads) {
    if Overdue(c, sub, r.now)
    then sub'.status == (if sub.status == PastDue then Suspended else PastDue) && sub'.plan == sub.plan
         && sub'.updatedAt == r.flush
    else sub' == sub
  }

  ghost predicate MovedByVisit(c: Settings, sub: Sub, sub': Sub, visits: seq<Visit>, org: int) {
    exists i :: 0 <= i < |visits| && visits[i].org == org && Moved(c, sub, sub', visits[i].times)
  }

  ghost predicate Visited(visits: seq<Visit>, org: int) {
    exists i :: 0 <= i < |visits| && visits[i].org == org
  }

  lemma {:induction false} SweepMoves(db: DB, c: Settings, visits: seq<Visit>, org: int)
    requires FREE in c.catalog && forall o | o in db.subs :: db.subs[o].plan in c.catalog
    requires forall i | 0 <= i < |visits| :: visits[i].org in db.subs
    requires forall i, j | 0 <= i < j < |visits| :: visits[i].org != visits[j].org
    requires org in db.subs
    ensures var (db', error) := ReconcileAll(db, c, visits);
            && error == None && db'.subs.Keys == db.subs.Keys
            && if Visited(visits, org) then MovedByVisit(c, db.subs[org], db'.subs[org], visits, org)
               else db'.subs[org] == db.subs[org]
    decreases |visits|
  {
    if visits != [] {
      var v, rest := visits[0], visits[1..];
      var db1 := Reconcile(db, c, v.org, v.times);
      VisitMoves(db, c, v);
      SweepMoves(db1, c, rest, org);
      if v.org == org {
        assert !Visited(rest, org);
        assert Moved(c, db.subs[org], db1.subs[org], visits[0].times);
      } else if Visited(rest, org) {
        var db' := ReconcileAll(db1, c, rest).0;
        var i :| 0 <= i < |rest| && rest[i].org == org && Moved(c, db1.subs[org], db'.subs[org], rest[i].times);
        assert visits[i + 1] == rest[i];
      } else {
        assert forall i | 0 <= i < |rest| :: rest[i] == visits[i + 1];
        assert forall i | 0 < i < |visits| :: visits[i] == rest[i - 1];
      }
    }
  }

  lemma VisitMoves(db: DB, c: Settings, v: Visit)
    requires FREE in c.catalog && v.org in db.subs && forall o | o in db.subs :: db.subs[o].plan in c.catalog
    ensures ReconcileError(db, c, v.org, v.times) == None
    ensures var db' := Reconcile(db, c, v.org, v.times);
            && db'.subs.Keys == db.subs.Keys && Moved(c, db.subs[v.org], db'.subs[v.org], v.times)
            && (forall o | o in db.subs && o != v.org :: db'.subs[o] == db.subs[o])
            && (forall o | o in db'.subs :: db'.subs[o].plan in c.catalog)
  {
    ReconcileNeverRefused(db, c, v.org, v.times);
    ReconcileMovesIff(db, c, v.org, v.times);
  }

  /** A job that names no organization is a sweep: it reconciles every subscription once, and makes none. */
  lemma SweepReconcilesAll(db: DB, c: Settings, payload: Payload, visits: seq<Visit>, org: int)
    requires FREE in c.catalog && forall o | o in db.subs :: db.subs[o].plan in c.catalog
    requires "organizationId" in payload ==> payload["organizationId"] == 0
    requires Visits(db, payload, visits) && org in db.subs
    ensures var (db', error) := ReconcileAll(db, c, visits);
            && error == None && db'.subs.Keys == db.subs.Keys
            && MovedByVisit(c, db.subs[org], db'.subs[org], visits, org)
  {
    assert Visited(visits, org);
    SweepMoves(db, c, visits, org);
  }

  /** A job that names one reconciles just that one. */
  lemma NamedVisit(db: DB, payload: Payload, visits: seq<Visit>)
    requires "organizationId" in payload && payload["organizationId"] != 0 && Visits(db, payload, visits)
    ensures exists v :: visits == [v] && v.org == payload["organizationId"]
  {
    assert visits == [visits[0]];
  }

  /* ---------- the queue's defaults ---------- */

  /** With the default settings a claim lasts a minute, a job has five attempts, and the waits between
      them are 1, 2, 4 and 8 seconds. */
  lemma DefaultWaits(t: Table, id: nat, error: string, now: Time, owner: string)
    requires id in t.jobs && 1 <= t.jobs[id].attempts < t.jobs[id].maxAttempts
    requires t.jobs[id].maxAttempts == DEFAULT_QUEUE.maxAttempts
    ensures t.jobs[id].maxAttempts == 5
    ensures var j', k := Fail(t, DEFAULT_QUEUE, id, error, now).jobs[id], t.jobs[id].attempts;
            j'.nextAttemptAt == now + (if k == 1 then 1 else if k == 2 then 2 else if k == 3 then 4 else 8) * 1_000_000
    ensures Candidate(t, RECONCILE, now) == Some(id) ==>
              Claim(t, DEFAULT_QUEUE, RECONCILE, owner, now).jobs[id].leasedUntil == Some(now + 60_000_000)
  {
    QueueLaws.RetryDelay(t, DEFAULT_QUEUE, id, error, now);
    var base := 2 * DEFAULT_QUEUE.halfBase;
    assert QueueLaws.Doubled(base, 1) == 2 * QueueLaws.Doubled(base, 0);
    assert QueueLaws.Doubled(base, 2) == 2 * QueueLaws.Doubled(base, 1);
    assert QueueLaws.Doubled(base, 3) == 2 * QueueLaws.Doubled(base, 2);
  }
}
