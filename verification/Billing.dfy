/** The billing operations on live rows (registry/app/billing/application.py) and the
    worker that reconciles (registry/app/workers/billing.py, registry/app/outbox/worker.py). */
module Billing {
  import opened Common
  import opened QueueTable
  import opened Queue
  import opened BillingState
  import Spec = BillingState

  class BillingService {
    const settings: Settings
    const queue: DurableQueue
    var subs: map<int, Sub>
    var events: map<(string, string), WebhookEvent>

    constructor (settings: Settings, queue: DurableQueue)
      requires FREE in settings.catalog && queue.config == DEFAULT_QUEUE
      ensures this.settings == settings && this.queue == queue && Valid()
      ensures State() == DB(map[], map[], queue.Rows())
    {
      this.settings := settings;
      this.queue := queue;
      subs, events := map[], map[];
    }

    ghost predicate Valid() {
      FREE in settings.catalog && queue.config == DEFAULT_QUEUE
    }

    ghost function State(): DB
      reads this, queue
    {
      DB(subs, events, queue.Rows())
    }

    method ScheduleNextPending(org: int, sub: Sub, now: Time)
      requires Valid()
      modifies queue
      ensures queue.Rows() == Spec.Schedule(old(queue.Rows()), settings, org, sub, now)
    {
      if sub.status.Trial? && sub.trialEndsAt.Some? && sub.trialEndsAt.value > now {
        EnqueueReconcile(org, sub.trialEndsAt.value, now);
        return;
      }
      if sub.status.GracePeriod? && sub.graceEndsAt.Some? && sub.graceEndsAt.value > now {
        EnqueueReconcile(org, sub.graceEndsAt.value, now);
        return;
      }
      if sub.status.PastDue? {
        EnqueueReconcile(org, Max(sub.updatedAt + settings.pastDue, now), now);
      }
    }

    method EnqueueReconcile(org: int, at: Time, now: Time)
      requires Valid()
      modifies queue
      ensures queue.Rows() == Spec.EnqueueReconcile(old(queue.Rows()), org, at, now)
    {
      var _ := queue.Enqueue(RECONCILE, OrgPayload(org), 1, BillingKey(org, at), Some(at), now);
    }

    /** Create the organization's row on first use. */
    method EnsureSubscription(org: int, r: Reads)
      requires Valid()
      modifies this, queue
      ensures State() == Spec.Ensure(old(State()), settings, org, r)
      ensures org in subs
    {
      if org !in subs {
        var sub := Sub(FREE, Trial, Snapshot(FREE, Trial, settings.catalog[FREE]),
        Some(r.create + settings.trial), None, None, r.createFlush);
        subs := subs[org := sub];
        ScheduleNextPending(org, sub, r.createSched);
      }
    }

    /** Move the subscription through the lifecycle; refuses what ALLOWED_TRANSITIONS does not list. */
    method TransitionStatus(org: int, new_: SubStatus, r: Reads) returns (error: Option<BillingError>)
      requires Valid() && org in subs
      modifies this, queue
      ensures State() == Spec.Transition(old(State()), settings, org, new_, r)
      ensures error == TransitionError(settings, old(subs)[org], new_)
      ensures error.Some? ==> State() == old(State())
      ensures error.None? ==> org in subs && subs[org].status == new_
    {
      var sub := subs[org];
      if new_ == sub.status {
        return None;
      }
      if new_ !in Allowed(sub.status) {
        return Some(InvalidTransition(sub.status, new_));
      }
      if sub.plan !in settings.catalog {
        return Some(UnknownPlan(sub.plan));
      }
      sub := sub.(status := new_);
      if new_.GracePeriod? {
        sub := sub.(graceEndsAt := Some(r.change + settings.grace));
      }
      if new_.Canceled? {
        sub := sub.(canceledAt := Some(r.change));
      }
      if new_.Paid? {
        sub := sub.(graceEndsAt := None, canceledAt := None);
      }
      sub := sub.(snapshot := Snapshot(sub.plan, new_, settings.catalog[sub.plan]));
      if Timed(new_) {
        ScheduleNextPending(org, sub, r.sched);
      }
      subs := subs[org := sub.(updatedAt := r.flush)];
      error := None;
    }

    /** Apply a provider event once; a refused event leaves no trace. */
    method ProcessWebhook(org: int, provider: string, eventId: string, eventType: string, r: Reads)
      returns (outcome: WebhookOutcome)
      requires Valid()
      modifies this, queue
      ensures outcome == WebhookResult(old(State()), settings, org, provider, eventId, eventType, r)
      ensures State() == Spec.Webhook(old(State()), settings, org, provider, eventId, eventType, r)
      ensures outcome.Processed? <==> (provider, eventId) in events && (provider, eventId) !in old(events)
      ensures !outcome.Processed? ==> State() == old(State())
    {
      if (provider, eventId) in events {
        return Duplicate;
      }
      var savedSubs, savedJobs, savedNext := subs, queue.jobs, queue.nextId;
      EnsureSubscription(org, r);
      var target := WebhookStatus(eventType);
      var error := Some(UnhandledEvent(eventType));
      if target.Some? {
        error := TransitionStatus(org, target.value, r);
      }
      if error.Some? {
        subs, queue.jobs, queue.nextId := savedSubs, savedJobs, savedNext;
        return Refused(error.value);
      }
      events := events[(provider, eventId) := WebhookEvent(org, eventType)];
      outcome := Processed(target.value);
    }

    method ChangePlan(org: int, plan: string, r: Reads) returns (error: Option<BillingError>)
      requires Valid() && org in subs
      modifies this
      ensures State() == Spec.ChangePlan(old(State()), settings, org, plan, r)
      ensures error == PlanError(settings, plan)
      ensures error.None? ==> org in subs && subs[org].plan == plan
    {
      if plan !in settings.catalog {
        return Some(UnknownPlan(plan));
      }
      if plan !in settings.launchable {
        return Some(NotLaunchable(plan));
      }
      var sub := subs[org].(plan := plan);
      sub := sub.(snapshot := Snapshot(plan, sub.status, settings.catalog[plan]));
      if sub != subs[org] {
        subs := subs[org := sub.(updatedAt := r.flush)];
      }
      error := None;
    }

    /** Advance the time-based transitions of one organization and schedule the next look. */
    method ReconcileSubscription(org: int, r: Reads) returns (error: Option<BillingError>)
      requires Valid()
      modifies this, queue
      ensures error == ReconcileError(old(State()), settings, org, r)
      ensures State() == Spec.Reconcile(old(State()), settings, org, r)
    {
      EnsureSubscription(org, r);
      var sub := subs[org];
      if sub.status.Trial? && sub.trialEndsAt.Some? && sub.trialEndsAt.value <= r.now {
        error := TransitionStatus(org, PastDue, r);
      } else if sub.status.GracePeriod? && sub.graceEndsAt.Some? && sub.graceEndsAt.value <= r.now {
        error := TransitionStatus(org, PastDue, r);
      } else if sub.status.PastDue? && sub.updatedAt <= r.now - settings.pastDue {
        error := TransitionStatus(org, Suspended, r);
      } else {
        error := None;
      }
      if error.Some? {
        return;
      }
      if Timed(subs[org].status) {
        ScheduleNextPending(org, subs[org], r.again);
      }
    }

    /** BillingWorker.handle: reconcile the listed organizations, stopping at an exception. */
    method Handle(visits: seq<Visit>) returns (error: Option<BillingError>)
      requires Valid()
      modifies this, queue
      ensures (State(), error) == ReconcileAll(old(State()), settings, visits)
    {
      error := None;
      var i := 0;
      while i < |visits|
        invariant 0 <= i <= |visits| && error.None?
        invariant ReconcileAll(old(State()), settings, visits) == ReconcileAll(State(), settings, visits[i..])
      {
        assert visits[i..][0] == visits[i] && visits[i..][1..] == visits[i + 1..];
        error := ReconcileSubscription(visits[i].org, visits[i].times);
        if error.Some? {
          return;
        }
        i := i + 1;
      }
    }

    /** JobWorker.run_once for billing.reconcile: claim, handle and settle one job. */
    method RunOnce(owner: string, claimed: Time, visits: seq<Visit>, done: Time) returns (handled: nat)
      requires Valid()
      requires var id := Candidate(queue.Rows(), RECONCILE, claimed);
               id.Some? ==> Visits(State(), queue.jobs[id.value].payload, visits)
      modifies this, queue
      ensures State() == Work(old(State()), settings, owner, claimed, visits, done)
      ensures handled == if Candidate(old(queue.Rows()), RECONCILE, claimed).None? then 0 else 1
    {
      var job := queue.Claim(RECONCILE, owner, claimed);
      if job.None? {
        return 0;
      }
      var error := Handle(visits);
      if error.None? {
        queue.Complete(job.value, done);
      } else {
        queue.Fail(job.value, "BillingError", done);
      }
      handled := 1;
    }
  }
}
