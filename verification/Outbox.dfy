/** The transactional outbox and its dispatcher (registry/app/outbox/dispatcher.py,
    registry/app/outbox/repositories.py). */
module Outbox {
  import opened Common
  import opened QueueTable
  import opened Queue
  import QueueRuns

  const SCAN_REQUESTED: string := "scan.requested"
  const SCAN_RUN: string := "scan.run"
  const BATCH: nat := 50

  datatype Event = Event(id: nat, eventType: string, payload: Payload, schemaVersion: int, publishedAt: Option<Time>)

  // Rows are listed by id, so row order is id order.
  ghost predicate Ascending(events: seq<Event>) {
    forall i, j | 0 <= i < j < |events| :: events[i].id < events[j].id
  }

  function ScanKey(e: Event): DedupeKey {
    DedupeKey("scan", if "version_id" in e.payload then e.payload["version_id"] else e.id, None)
  }

  /** Number of unpublished rows among the first n. */
  function Backlog(events: seq<Event>, n: nat): (b: nat)
    requires n <= |events|
    ensures b <= n
  {
    if n == 0 then 0 else Backlog(events, n - 1) + if events[n - 1].publishedAt.None? then 1 else 0
  }

  /** The unpublished rows in id order, limited: row i is fetched if it is unpublished and fewer
      than BATCH unpublished rows come before it. */
  predicate Fetched(events: seq<Event>, i: nat)
    requires i < |events|
  {
    events[i].publishedAt.None? && Backlog(events, i) < BATCH
  }

  /** What publishing one event does to the queue; an unmapped event type enqueues nothing. */
  function Deliver(q: Table, c: Config, e: Event, now: Time): Table {
    if e.eventType == SCAN_REQUESTED
    then Enqueue(q, c, SCAN_RUN, e.payload, e.schemaVersion, ScanKey(e), None, now)
    else q
  }

  /** Delivering the fetched rows among the first n, in order. */
  function DeliverAll(q: Table, c: Config, events: seq<Event>, n: nat, now: Time): Table
    requires n <= |events|
  {
    if n == 0 then q
    else
      var before := DeliverAll(q, c, events, n - 1, now);
      if Fetched(events, n - 1) then Deliver(before, c, events[n - 1], now) else before
  }

  /** Marking the fetched rows among the first n published. */
  function Mark(events: seq<Event>, n: nat, now: Time): (r: seq<Event>)
    requires n <= |events|
    ensures |r| == |events|
    ensures forall i | 0 <= i < |events| ::
              r[i] == if i < n && Fetched(events, i) then events[i].(publishedAt := Some(now)) else events[i]
  {
    if n == 0 then events
    else
      var before := Mark(events, n - 1, now);
      if Fetched(events, n - 1) then before[n - 1 := events[n - 1].(publishedAt := Some(now))] else before
  }

  class Dispatcher {
    const queue: DurableQueue
    var events: seq<Event>
    var nextId: nat

    // Ids are handed out in increasing order.
    ghost predicate Valid()
      reads this
    {
      Ascending(events) && forall i | 0 <= i < |events| :: events[i].id < nextId
    }

    constructor (queue: DurableQueue)
      ensures this.queue == queue && events == [] && Valid()
    {
      this.queue := queue;
      events, nextId := [], 0;
    }

    method AddEvent(eventType: string, payload: Payload, schemaVersion: int)
      modifies this
      ensures events == old(events) + [Event(old(nextId), eventType, payload, schemaVersion, None)]
      ensures nextId == old(nextId) + 1
      ensures old(Valid()) ==> Valid()
    {
      events := events + [Event(nextId, eventType, payload, schemaVersion, None)];
      nextId := nextId + 1;
    }

    /** Publish the oldest unpublished events, enqueueing the jobs they map to. */
    method DispatchOnce(now: Time) returns (count: nat)
      modifies this, queue
      ensures count == Min(BATCH, Backlog(old(events), |old(events)|))
      ensures events == Mark(old(events), |old(events)|, now) && nextId == old(nextId)
      ensures queue.Rows() == DeliverAll(old(queue.Rows()), queue.config, old(events), |old(events)|, now)
      ensures old(Valid()) ==> Valid()
    {
      count := 0;
      ghost var was := events;
      for i := 0 to |events|
        invariant count == Min(BATCH, Backlog(was, i))
        invariant |events| == |was| && events == Mark(was, i, now) && nextId == old(nextId)
        invariant queue.Rows() == DeliverAll(old(queue.Rows()), queue.config, was, i, now)
      {
        var e := events[i];
        assert e == was[i];
        if e.publishedAt.None? && count < BATCH {
          if e.eventType == SCAN_REQUESTED {
            var _ := queue.Enqueue(SCAN_RUN, e.payload, e.schemaVersion, ScanKey(e), None, now);
          }
          events := events[i := e.(publishedAt := Some(now))];
          count := count + 1;
        }
        assert events == Mark(was, i + 1, now);
      }
    }
  }

  /* ---------- rounds of dispatching ---------- */

  function Rounds(events: seq<Event>, clock: seq<Time>): (r: seq<Event>)
    ensures |r| == |events|
  {
    if clock == [] then events
    else Mark(Rounds(events, Front(clock)), |events|, Last(clock))
  }

  lemma {:induction false} MarkedBacklog(events: seq<Event>, marked: seq<Event>, n: nat)
    requires n <= |events| == |marked|
    requires forall i | 0 <= i < |events| ::
               marked[i].publishedAt.None? <==> events[i].publishedAt.None? && !Fetched(events, i)
    ensures Backlog(marked, n) == Max(0, Backlog(events, n) - BATCH)
  {
    if n > 0 {
      MarkedBacklog(events, marked, n - 1);
    }
  }

  lemma RoundBacklog(events: seq<Event>, now: Time)
    ensures Backlog(Mark(events, |events|, now), |events|) == Max(0, Backlog(events, |events|) - BATCH)
  {
    var marked := Mark(events, |events|, now);
    forall i | 0 <= i < |events|
      ensures marked[i].publishedAt.None? <==> events[i].publishedAt.None? && !Fetched(events, i)
    {
      if Fetched(events, i) {
        assert marked[i] == events[i].(publishedAt := Some(now));
      } else {
        assert marked[i] == events[i];
      }
    }
    MarkedBacklog(events, marked, |events|);
  }

  /** k rounds with no new events leave max(0, b - 50 k) of b unpublished events, so all are
      published after ceil(b / 50) rounds and not before. */
  lemma {:induction false} RoundsDrain(events: seq<Event>, clock: seq<Time>)
    ensures Backlog(Rounds(events, clock), |events|) == Max(0, Backlog(events, |events|) - 50 * |clock|)
  {
    if clock != [] {
      RoundsDrain(events, Front(clock));
      RoundBacklog(Rounds(events, Front(clock)), Last(clock));
    }
  }

  lemma {:induction false} BacklogGrows(events: seq<Event>, i: nat, j: nat)
    requires i <= j <= |events|
    ensures Backlog(events, i) <= Backlog(events, j)
    decreases j
  {
    if i < j {
      BacklogGrows(events, i, j - 1);
    }
  }

  /** Whatever a run of rounds has published comes before anything it has not, and nothing else in a
      row changes. */
  lemma {:induction false} PublishedInRowOrder(events: seq<Event>, clock: seq<Time>, i: nat, j: nat)
    requires i < |events| && j < |events| && events[i].publishedAt.None?
    ensures Rounds(events, clock)[i].(publishedAt := None) == events[i]
    ensures Rounds(events, clock)[i].publishedAt.Some? && Rounds(events, clock)[j].publishedAt.None? ==> i < j
  {
    if clock != [] {
      PublishedInRowOrder(events, Front(clock), i, j);
      var before := Rounds(events, Front(clock));
      if j <= i {
        BacklogGrows(before, j, i);
      }
    }
  }

  /** So events are published in id order: any that the rounds have published has a smaller id than any
      they have not. */
  lemma PublishedInIdOrder(events: seq<Event>, clock: seq<Time>, i: nat, j: nat)
    requires Ascending(events) && i < |events| && j < |events| && events[i].publishedAt.None?
    ensures Ascending(Rounds(events, clock))
    ensures Rounds(events, clock)[i].publishedAt.Some? && Rounds(events, clock)[j].publishedAt.None? ==>
              events[i].id < events[j].id
  {
    RoundsKeepIds(events, clock);
    PublishedInRowOrder(events, clock, i, j);
  }

  lemma {:induction false} RoundsKeepIds(events: seq<Event>, clock: seq<Time>)
    ensures forall i | 0 <= i < |events| :: Rounds(events, clock)[i].id == events[i].id
  {
    if clock != [] {
      RoundsKeepIds(events, Front(clock));
    }
  }

  /** Dispatching keeps the queue invariant: never two active jobs for one version. */
  lemma {:induction false} DispatchKeepsQueueInv(q: Table, c: Config, events: seq<Event>, n: nat, now: Time)
    requires n <= |events| && QueueRuns.Inv(q)
    ensures QueueRuns.Inv(DeliverAll(q, c, events, n, now))
  {
    if n > 0 {
      DispatchKeepsQueueInv(q, c, events, n - 1, now);
      var e := events[n - 1];
      QueueRuns.EnqueueKeepsInv(DeliverAll(q, c, events, n - 1, now), c, SCAN_RUN, e.payload, e.schemaVersion,
                                ScanKey(e), None, now);
    }
  }

  lemma DeliverKeepsTaken(q: Table, c: Config, e: Event, now: Time, jobType: string, key: DedupeKey)
    requires QueueRuns.Inv(q) && Taken(q, jobType, key)
    ensures Taken(Deliver(q, c, e, now), jobType, key)
  {
    var id :| id in q.jobs && Occupies(q.jobs[id], jobType, key);
    assert Occupies(Deliver(q, c, e, now).jobs[id], jobType, key);
  }

  lemma DeliverTakes(q: Table, c: Config, e: Event, now: Time)
    requires e.eventType == SCAN_REQUESTED
    ensures Taken(Deliver(q, c, e, now), SCAN_RUN, ScanKey(e))
  {
    if !Taken(q, SCAN_RUN, ScanKey(e)) {
      assert Occupies(Deliver(q, c, e, now).jobs[q.nextId], SCAN_RUN, ScanKey(e));
    }
  }

  /** When the scan request in row i, once fetched, is marked published, and until the transaction ends, an active
      scan job exists for its version. */
  lemma {:induction false} ScanJobsExist(q: Table, c: Config, events: seq<Event>, n: nat, now: Time, i: nat)
    requires i < n <= |events| && QueueRuns.Inv(q)
    requires Fetched(events, i) && events[i].eventType == SCAN_REQUESTED
    ensures Taken(DeliverAll(q, c, events, n, now), SCAN_RUN, ScanKey(events[i]))
  {
    var q0 := DeliverAll(q, c, events, n - 1, now);
    DispatchKeepsQueueInv(q, c, events, n - 1, now);
    if i < n - 1 {
      ScanJobsExist(q, c, events, n - 1, now, i);
      DeliverKeepsTaken(q0, c, events[n - 1], now, SCAN_RUN, ScanKey(events[i]));
    } else {
      DeliverTakes(q0, c, events[i], now);
    }
  }

  /* ---------- what a delivery enqueues ---------- */

  // The version a scan request names, or else the event's own id.
  function ScannedVersion(e: Event): int {
    if "version_id" in e.payload then e.payload["version_id"] else e.id
  }

  // A queued, running or succeeded scan job for the version.
  ghost predicate ScanJobFor(q: Table, version: int) {
    exists id :: id in q.jobs && q.jobs[id].jobType == "scan.run" && q.jobs[id].status != Dead
                 && q.jobs[id].key == DedupeKey("scan", version, None)
  }

  /** Delivering a scan request makes a scan job for its version with its payload, unless there is an
      active one; any other event enqueues nothing. */
  lemma DeliveryEnqueues(q: Table, c: Config, e: Event, now: Time)
    requires QueueRuns.Inv(q)
    ensures var q' := Deliver(q, c, e, now);
            && (e.eventType != "scan.requested" ==> q' == q)
            && (e.eventType == "scan.requested" && ScanJobFor(q, ScannedVersion(e)) ==> q' == q)
            && (e.eventType == "scan.requested" && !ScanJobFor(q, ScannedVersion(e)) ==>
                  && q'.jobs.Keys == q.jobs.Keys + {q.nextId} && q.nextId !in q.jobs
                  && var j := q'.jobs[q.nextId];
                     && j.jobType == "scan.run" && j.payload == e.payload && j.schemaVersion == e.schemaVersion
                     && j.key == DedupeKey("scan", ScannedVersion(e), None)
                     && j.status == Queued && j.nextAttemptAt == now)
  {
    var key := DedupeKey("scan", ScannedVersion(e), None);
    if ScanJobFor(q, ScannedVersion(e)) {
      var id :| id in q.jobs && q.jobs[id].jobType == "scan.run" && q.jobs[id].status != Dead && q.jobs[id].key == key;
      assert Occupies(q.jobs[id], "scan.run", key);
    }
    if Taken(q, "scan.run", key) {
      var id :| id in q.jobs && Occupies(q.jobs[id], "scan.run", key);
      assert q.jobs[id].status != Dead;
    }
  }

  /** When the scan request in row i is marked published, and until the transaction ends, an active scan
      job exists for the version it names. */
  lemma RequestedVersionScanned(q: Table, c: Config, events: seq<Event>, n: nat, now: Time, i: nat)
    requires i < n <= |events| && QueueRuns.Inv(q)
    requires Fetched(events, i) && events[i].eventType == "scan.requested"
    ensures ScanJobFor(DeliverAll(q, c, events, n, now), ScannedVersion(events[i]))
  {
    ScanJobsExist(q, c, events, n, now, i);
    var q' := DeliverAll(q, c, events, n, now);
    var id :| id in q'.jobs && Occupies(q'.jobs[id], SCAN_RUN, ScanKey(events[i]));
    assert q'.jobs[id].status != Dead;
  }
}
