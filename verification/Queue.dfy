/** The durable job queue (registry/app/outbox/queue.py), updating its rows in place. */
module Queue {
  import opened Common
  import opened QueueTable
  import Spec = QueueTable

  class DurableQueue {
    const config: Config
    var jobs: map<nat, Job>
    var nextId: nat

    constructor (config: Config)
      ensures this.config == config && Rows() == Table(map[], 0)
    {
      this.config := config;
      jobs := map[];
      nextId := 0;
    }

    function Rows(): Table
      reads this
    {
      Table(jobs, nextId)
    }

    /** Insert a queued job unless an active one holds the key; says whether it did. */
    method Enqueue(jobType: string, payload: Payload, schemaVersion: int, key: DedupeKey,
                   runAt: Option<Time>, now: Time) returns (created: bool)
      modifies this
      ensures Rows() == Spec.Enqueue(old(Rows()), config, jobType, payload, schemaVersion, key, runAt, now)
      ensures created == !old(Taken(Rows(), jobType, key))
      ensures Taken(Rows(), jobType, key)
      ensures created ==> Rows().jobs.Keys == old(Rows().jobs.Keys) + {old(nextId)}
      ensures !created ==> Rows() == old(Rows())
    {
      if exists id | id in jobs :: Occupies(jobs[id], jobType, key) {
        created := false;
      } else {
        jobs := jobs[nextId := NewJob(config, jobType, payload, schemaVersion, key, runAt, now)];
        nextId := nextId + 1;
        assert Occupies(jobs[nextId - 1], jobType, key);
        created := true;
      }
    }

    /** Lease the first due job of the type to `owner`. */
    method Claim(jobType: string, owner: string, now: Time) returns (claimed: Option<nat>)
      modifies this
      ensures Rows() == Spec.Claim(old(Rows()), config, jobType, owner, now)
      ensures claimed == Candidate(old(Rows()), jobType, now)
      ensures claimed.Some? ==> claimed.value in jobs && jobs[claimed.value].status.Running?
                                && jobs[claimed.value].leaseOwner == Some(owner)
                                && jobs[claimed.value].leasedUntil == Some(now + config.lease)
    {
      claimed := Candidate(Table(jobs, nextId), jobType, now);
      if claimed.Some? {
        var j := jobs[claimed.value];
        jobs := jobs[claimed.value := j.(status := Running, attempts := j.attempts + 1,
        leasedUntil := Some(now + config.lease), leaseOwner := Some(owner), updatedAt := now)];
      }
    }

    method Complete(id: nat, now: Time)
      modifies this
      ensures Rows() == Spec.Complete(old(Rows()), id, now)
      ensures id in jobs ==> jobs[id].status.Succeeded? && jobs[id].leasedUntil.None?
      ensures jobs.Keys == old(jobs.Keys)
      ensures forall other | other in jobs && other != id :: jobs[other] == old(jobs)[other]
    {
      if id in jobs {
        jobs := jobs[id := jobs[id].(status := Succeeded, leasedUntil := None, leaseOwner := None,
        lastError := None, updatedAt := now)];
      }
    }

    /** Retry later, or dead-letter a job that has used up its attempts. */
    method Fail(id: nat, error: string, now: Time)
      modifies this
      ensures Rows() == Spec.Fail(old(Rows()), config, id, error, now)
      ensures id in jobs ==> (jobs[id].status.Dead? <==> jobs[id].attempts >= jobs[id].maxAttempts)
      ensures id in jobs && !jobs[id].status.Dead? ==>
                jobs[id].status.Queued? && now <= jobs[id].nextAttemptAt <= now + MAX_BACKOFF
      ensures jobs.Keys == old(jobs.Keys)
      ensures forall other | other in jobs && other != id :: jobs[other] == old(jobs)[other]
    {
      if id in jobs {
        var j := jobs[id].(leasedUntil := None, leaseOwner := None, lastError := Some(error), updatedAt := now);
        if j.attempts >= j.maxAttempts {
          jobs := jobs[id := j.(status := Dead)];
        } else {
          jobs := jobs[id := j.(status := Queued, nextAttemptAt := now + Backoff(config, j.attempts))];
        }
      }
    }

    /** Requeue every job whose lease expired; counts them. */
    method ReapStaleLeases(now: Time) returns (count: nat)
      modifies this
      ensures Rows() == Spec.ReapStaleLeases(old(Rows()), now)
      ensures count == |set id | id in old(jobs) && Stale(old(jobs)[id], now)|
      ensures forall id | id in jobs :: !Stale(jobs[id], now)
    {
      count := |set id | id in jobs && Stale(jobs[id], now)|;
      jobs := map id | id in jobs :: Requeue(jobs[id], now);
    }

    /** Delete finished jobs older than the retention period; counts them. */
    method ReapOldJobs(retention: Time, now: Time) returns (count: nat)
      modifies this
      ensures Rows() == Spec.ReapOldJobs(old(Rows()), retention, now)
      ensures count == |old(jobs)| - |jobs|
    {
      ghost var before := jobs;
      var gone := set id | id in jobs && Expired(jobs[id], retention, now);
      count := |gone|;
      jobs := map id | id in jobs && !Expired(jobs[id], retention, now) :: jobs[id];
      assert jobs.Keys == before.Keys - gone;
    }
  }
}
