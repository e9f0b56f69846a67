/** The billing tables as a value, and what each billing operation does to them
    (registry/app/billing/application.py). An operation reads the clock several times;
    `Reads` names the readings in the order the code takes them. */
module BillingState {
  import opened Common
  import opened QueueTable

  datatype SubStatus = Trial | Paid | GracePeriod | PastDue | Suspended | Canceled

  type Entitlements = map<string, int>

  datatype Snapshot = Snapshot(plan: string, status: SubStatus, entitlements: Entitlements)

  datatype Sub = Sub(
    plan: string,
    status: SubStatus,
    snapshot: Snapshot,
    trialEndsAt: Option<Time>,
    graceEndsAt: Option<Time>,
    canceledAt: Option<Time>,
    updatedAt: Time)

  datatype Settings = Settings(
    trial: Time,
    grace: Time,
    pastDue: Time,
    catalog: map<string, Entitlements>,
    launchable: set<string>)

  datatype WebhookEvent = WebhookEvent(organizationId: int, eventType: string)

  datatype DB = DB(subs: map<int, Sub>, events: map<(string, string), WebhookEvent>, queue: Table)

  datatype BillingError =
    | InvalidTransition(from: SubStatus, to: SubStatus)
    | UnhandledEvent(eventType: string)
    | UnknownPlan(plan: string)
    | NotLaunchable(plan: string)

  datatype Reads = Reads(
    create: Time,       // ensure_subscription: trial end
    createFlush: Time,  // ensure_subscription: updated_at of the new row
    createSched: Time,  // ensure_subscription: scheduling
    now: Time,          // reconcile_subscription
    change: Time,       // transition_status
    sched: Time,        // transition_status: scheduling
    flush: Time,        // updated_at of the changed row
    again: Time)        // reconcile_subscription: scheduling

  predicate Ordered(r: Reads) {
    r.create <= r.createFlush <= r.createSched <= r.now <= r.change <= r.sched <= r.flush <= r.again
  }

  const FREE: string := "free"
  const RECONCILE: string := "billing.reconcile"

  // DurableQueue() with its default arguments.
  const DEFAULT_QUEUE := Config(60 * SECOND, 5, SECOND / 2)

  function Allowed(s: SubStatus): set<SubStatus> {
    match s
    case Trial => {Paid, GracePeriod, PastDue, Canceled}
    case Paid => {GracePeriod, Canceled}
    case GracePeriod => {Paid, PastDue, Canceled}
    case PastDue => {Paid, Suspended, Canceled}
    case Suspended => {Paid, Canceled}
    case Canceled => {Paid}
  }

  predicate Timed(s: SubStatus) {
    s.Trial? || s.GracePeriod? || s.PastDue?
  }

  function WebhookStatus(eventType: string): Option<SubStatus> {
    if eventType == "subscription.created" then Some(Trial)
    else if eventType == "subscription.activated" then Some(Paid)
    else if eventType == "invoice.payment_succeeded" then Some(Paid)
    else if eventType == "subscription.reactivated" then Some(Paid)
    else if eventType == "subscription.grace_period" then Some(GracePeriod)
    else if eventType == "invoice.payment_failed" then Some(GracePeriod)
    else if eventType == "subscription.past_due" then Some(PastDue)
    else if eventType == "subscription.suspended" then Some(Suspended)
    else if eventType == "subscription.canceled" then Some(Canceled)
    else None
  }

  function OrgPayload(org: int): Payload {
    map["organizationId" := org]
  }

  function BillingKey(org: int, at: Time): DedupeKey {
    DedupeKey("billing", org, Some(at))
  }

  function EnqueueReconcile(q: Table, org: int, at: Time, now: Time): Table {
    Enqueue(q, DEFAULT_QUEUE, RECONCILE, OrgPayload(org), 1, BillingKey(org, at), Some(at), now)
  }

  /** When _schedule_next_pending enqueues a reconcile job, for what time. */
  function NextPending(c: Settings, sub: Sub, now: Time): Option<Time> {
    if sub.status.Trial? && sub.trialEndsAt.Some? && sub.trialEndsAt.value > now then sub.trialEndsAt
    else if sub.status.GracePeriod? && sub.graceEndsAt.Some? && sub.graceEndsAt.value > now then sub.graceEndsAt
    else if sub.status.PastDue? then Some(Max(sub.updatedAt + c.pastDue, now))
    else None
  }

  function Schedule(q: Table, c: Settings, org: int, sub: Sub, now: Time): Table {
    var at := NextPending(c, sub, now);
    if at.Some? then EnqueueReconcile(q, org, at.value, now) else q
  }

  function NewSub(c: Settings, r: Reads): Sub
    requires FREE in c.catalog
  {
    Sub(FREE, Trial, Snapshot(FREE, Trial, c.catalog[FREE]), Some(r.create + c.trial), None, None, r.createFlush)
  }

  function Ensure(db: DB, c: Settings, org: int, r: Reads): DB
    requires FREE in c.catalog
  {
    if org in db.subs then db
    else
      db.(subs := db.subs[org := NewSub(c, r)],
          queue := Schedule(db.queue, c, org, NewSub(c, r), r.createSched))
  }

  /** The row after a status change, before it is flushed: updated_at is still the old one. */
  function Changed(c: Settings, sub: Sub, new_: SubStatus, change: Time): Sub
    requires sub.plan in c.catalog
  {
    sub.(
    status := new_,
    graceEndsAt := if new_.GracePeriod? then Some(change + c.grace) else if new_.Paid? then None else sub.graceEndsAt,
    canceledAt := if new_.Canceled? then Some(change) else if new_.Paid? then None else sub.canceledAt,
    snapshot := Snapshot(sub.plan, new_, c.catalog[sub.plan]))
  }

  function TransitionError(c: Settings, sub: Sub, new_: SubStatus): Option<BillingError> {
    if new_ == sub.status then None
    else if new_ !in Allowed(sub.status) then Some(InvalidTransition(sub.status, new_))
    else if sub.plan !in c.catalog then Some(UnknownPlan(sub.plan))
    else None
  }

  /** An existing row moved to `new_`; the scheduling sees the row with its stale updated_at. */
  function Transition(db: DB, c: Settings, org: int, new_: SubStatus, r: Reads): DB
    requires org in db.subs
  {
    var sub := db.subs[org];
    if new_ == sub.status || TransitionError(c, sub, new_).Some? then db
    else
      var changed := Changed(c, sub, new_, r.change);
      db.(queue := if Timed(new_) then Schedule(db.queue, c, org, changed, r.sched) else db.queue,
          subs := db.subs[org := changed.(updatedAt := r.flush)])
  }

  datatype WebhookOutcome = Duplicate | Processed(status: SubStatus) | Refused(error: BillingError)

  function WebhookResult(db: DB, c: Settings, org: int, provider: string, eventId: string, eventType: string, r: Reads)
    : WebhookOutcome
    requires FREE in c.catalog
  {
    var target := WebhookStatus(eventType);
    if (provider, eventId) in db.events then Duplicate
    else if target.None? then Refused(UnhandledEvent(eventType))
    else
      var error := TransitionError(c, Ensure(db, c, org, r).subs[org], target.value);
      if error.Some? then Refused(error.value) else Processed(target.value)
  }

  /** A refused event is rolled back as a whole. */
  function Webhook(db: DB, c: Settings, org: int, provider: string, eventId: string, eventType: string, r: Reads): DB
    requires FREE in c.catalog
  {
    var outcome := WebhookResult(db, c, org, provider, eventId, eventType, r);
    if !outcome.Processed? then db
    else
      var db' := Transition(Ensure(db, c, org, r), c, org, outcome.status, r);
      db'.(events := db.events[(provider, eventId) := WebhookEvent(org, eventType)])
  }

  function PlanError(c: Settings, plan: string): Option<BillingError> {
    if plan !in c.catalog then Some(UnknownPlan(plan))
    else if plan !in c.launchable then Some(NotLaunchable(plan))
    else None
  }

  /** The flush touches updated_at only when a column really changed. */
  function ChangePlan(db: DB, c: Settings, org: int, plan: string, r: Reads): DB
    requires org in db.subs
  {
    if PlanError(c, plan).Some? then db
    else
      var sub := db.subs[org];
      var sub' := sub.(plan := plan, snapshot := Snapshot(plan, sub.status, c.catalog[plan]));
      db.(subs := db.subs[org := if sub' == sub then sub else sub'.(updatedAt := r.flush)])
  }

  /** The status change the clock asks for, if any. */
  function Expiry(c: Settings, sub: Sub, now: Time): Option<SubStatus> {
    if sub.status.Trial? && sub.trialEndsAt.Some? && sub.trialEndsAt.value <= now then Some(PastDue)
    else if sub.status.GracePeriod? && sub.graceEndsAt.Some? && sub.graceEndsAt.value <= now then Some(PastDue)
    else if sub.status.PastDue? && sub.updatedAt <= now - c.pastDue then Some(Suspended)
    else None
  }

  /** The exception a reconcile would raise, if the change it asks for were refused. */
  function ReconcileError(db: DB, c: Settings, org: int, r: Reads): Option<BillingError>
    requires FREE in c.catalog
  {
    var sub := Ensure(db, c, org, r).subs[org];
    var target := Expiry(c, sub, r.now);
    if target.Some? then TransitionError(c, sub, target.value) else None
  }

  function Reconcile(db: DB, c: Settings, org: int, r: Reads): DB
    requires FREE in c.catalog
  {
    var db0 := Ensure(db, c, org, r);
    var target := Expiry(c, db0.subs[org], r.now);
    var db1 := if target.Some? then Transition(db0, c, org, target.value, r) else db0;
    if Timed(db1.subs[org].status) && ReconcileError(db, c, org, r).None?
    then db1.(queue := Schedule(db1.queue, c, org, db1.subs[org], r.again))
    else db1
  }

  /* ---------- the worker ---------- */

  // One reconciliation the handler performs: which organization, and its clock readings.
  datatype Visit = Visit(org: int, times: Reads)

  function ReconcileAll(db: DB, c: Settings, visits: seq<Visit>): (DB, Option<BillingError>)
    requires FREE in c.catalog
    decreases |visits|
  {
    if visits == [] then (db, None)
    else
      var v := visits[0];
      var error := ReconcileError(db, c, v.org, v.times);
      var db' := Reconcile(db, c, v.org, v.times);
      if error.Some? then (db', error) else ReconcileAll(db', c, visits[1..])
  }

  // BillingWorker.handle: the organization named by the payload, or else every one.
  ghost predicate Visits(db: DB, payload: Payload, visits: seq<Visit>) {
    if "organizationId" in payload && payload["organizationId"] != 0
    then |visits| == 1 && visits[0].org == payload["organizationId"]
    else
      && (forall i | 0 <= i < |visits| :: visits[i].org in db.subs)
      && (forall org | org in db.subs :: exists i | 0 <= i < |visits| :: visits[i].org == org)
      && (forall i, j | 0 <= i < j < |visits| :: visits[i].org != visits[j].org)
  }

  function Work(db: DB, c: Settings, owner: string, claimed: Time, visits: seq<Visit>, done: Time): DB
    requires FREE in c.catalog
  {
    match Candidate(db.queue, RECONCILE, claimed)
    case None => db
    case Some(id) =>
      var db0 := db.(queue := Claim(db.queue, DEFAULT_QUEUE, RECONCILE, owner, claimed));
      var (db', error) := ReconcileAll(db0, c, visits);
      db'.(queue := if error.Some? then Fail(db'.queue, DEFAULT_QUEUE, id, "BillingError", done)
                    else Complete(db'.queue, id, done))
  }
}
