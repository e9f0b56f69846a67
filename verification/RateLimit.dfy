/** The in-memory sliding-window limiter (registry/app/ratelimit.py). Clock readings are
    parameters: each method names the readings it takes. */
module RateLimit {
  import opened Common

  // The limiter's key together with its window, which the source joins with a colon.
  type Key = (string, int)

  type Events = map<Key, seq<real>>

  function QueueOf(events: Events, key: Key): seq<real> {
    if key in events then events[key] else []
  }

  /** Drop the leading events at or before `cutoff`. */
  function Prune(queue: seq<real>, cutoff: real): seq<real> {
    if queue != [] && queue[0] <= cutoff then Prune(queue[1..], cutoff) else queue
  }

  function Cutoff(key: Key, now: real): real {
    now - key.1 as real
  }

  /** int(x): truncation toward zero. */
  function Trunc(x: real): int {
    if x >= 0.0 then x.Floor else -((-x).Floor)
  }

  /** What retry_after answers for a pruned queue. */
  function Hint(queue: seq<real>, window: int, now: real): int {
    if queue == [] then 0 else Max(1, Trunc(window as real - (now - queue[0])) + 1)
  }

  // One call of check and its clock readings: pruning, then recording or pruning again, then the hint.
  datatype Call = Call(key: Key, limit: int, prune: real, record: real, hint: real)

  datatype Answer = Admitted | Refused(retryAfter: int)

  function Check(events: Events, c: Call): (Events, Answer) {
    var queue := Prune(QueueOf(events, c.key), Cutoff(c.key, c.prune));
    if |queue| >= c.limit then
      var again := Prune(queue, Cutoff(c.key, c.record));
      (events[c.key := again], Refused(Max(1, Hint(again, c.key.1, c.hint))))
    else
      (events[c.key := queue + [c.record]], Admitted)
  }

  class MemoryRateLimitBackend {
    var events: Events

    constructor ()
      ensures events == map[]
    {
      events := map[];
    }

    method PruneKey(key: Key, now: real)
      modifies this
      ensures events == old(events)[key := Prune(QueueOf(old(events), key), Cutoff(key, now))]
    {
      var queue := QueueOf(events, key);
      while queue != [] && queue[0] <= Cutoff(key, now)
        invariant Prune(queue, Cutoff(key, now)) == Prune(QueueOf(old(events), key), Cutoff(key, now))
        decreases |queue|
      {
        queue := queue[1..];
      }
      events := events[key := queue];
    }

    method EventsInWindow(key: Key, now: real) returns (n: nat)
      modifies this
      ensures events == old(events)[key := Prune(QueueOf(old(events), key), Cutoff(key, now))]
      ensures n == |events[key]|
    {
      PruneKey(key, now);
      n := |events[key]|;
    }

    method Record(key: Key, now: real)
      modifies this
      ensures events == old(events)[key := QueueOf(old(events), key) + [now]]
    {
      events := events[key := QueueOf(events, key) + [now]];
    }

    method RetryAfter(key: Key, pruneNow: real, now: real) returns (seconds: int)
      modifies this
      ensures events == old(events)[key := Prune(QueueOf(old(events), key), Cutoff(key, pruneNow))]
      ensures seconds == Hint(events[key], key.1, now)
    {
      PruneKey(key, pruneNow);
      var queue := events[key];
      if queue == [] {
        return 0;
      }
      seconds := Max(1, Trunc(key.1 as real - (now - queue[0])) + 1);
    }
  }

  class SlidingWindowRateLimiter {
    const backend: MemoryRateLimitBackend

    constructor (backend: MemoryRateLimitBackend)
      ensures this.backend == backend
    {
      this.backend := backend;
    }

    /** Record one event for the key, or refuse with the seconds to wait. */
    method CheckKey(c: Call) returns (answer: Answer)
      modifies backend
      ensures (backend.events, answer) == Check(old(backend.events), c)
    {
      var n := backend.EventsInWindow(c.key, c.prune);
      ghost var was, queue := old(backend.events), backend.events[c.key];
      if n >= c.limit {
        var seconds := backend.RetryAfter(c.key, c.record, c.hint);
        assert backend.events == was[c.key := Prune(queue, Cutoff(c.key, c.record))];
        return Refused(Max(1, seconds));
      }
      backend.Record(c.key, c.record);
      assert backend.events == was[c.key := queue + [c.record]];
      answer := Admitted;
    }
  }

  /* ---------- runs ---------- */

  function Exec(calls: seq<Call>): Events {
    if calls == [] then map[] else Check(Exec(Front(calls)), Last(calls)).0
  }

  function AnswerAfter(calls: seq<Call>, c: Call): Answer {
    Check(Exec(calls), c).1
  }

  /** The times at which calls for the key were admitted. */
  function History(calls: seq<Call>, key: Key): seq<real> {
    if calls == [] then []
    else
      var before, c := Front(calls), Last(calls);
      History(before, key) + if c.key == key && AnswerAfter(before, c).Admitted? then [c.record] else []
  }

  // The clock never goes back, and every call for the key uses the same limit.
  ghost predicate Run(calls: seq<Call>, key: Key, limit: int) {
    && (forall i | 0 <= i < |calls| :: calls[i].prune <= calls[i].record <= calls[i].hint)
    && (forall i, j | 0 <= i < j < |calls| :: calls[i].hint <= calls[j].prune)
    && (forall i | 0 <= i < |calls| && calls[i].key == key :: calls[i].limit == limit)
  }

  lemma RunFront(calls: seq<Call>, key: Key, limit: int)
    requires calls != [] && Run(calls, key, limit)
    ensures Run(Front(calls), key, limit)
  {
  }

  ghost predicate Sorted(h: seq<real>) {
    forall i, j | 0 <= i < j < |h| :: h[i] <= h[j]
  }

  predicate Apart(h: seq<real>, i: nat, limit: nat, window: int)
    requires i + limit < |h|
  {
    h[i] <= h[i + limit] - window as real
  }

  // Admissions `limit` apart lie at least a window apart.
  ghost predicate Spaced(h: seq<real>, limit: int, window: int) {
    limit >= 1 ==> forall i | 0 <= i < |h| - limit :: Apart(h, i, limit, window)
  }

  ghost predicate IsSuffix(q: seq<real>, h: seq<real>) {
    |q| <= |h| && q == h[|h| - |q|..]
  }

  lemma {:induction false} PruneIsSuffix(q: seq<real>, cutoff: real)
    ensures var p := Prune(q, cutoff);
            && IsSuffix(p, q)
            && (forall i | 0 <= i < |q| - |p| :: q[i] <= cutoff)
            && (p != [] ==> p[0] > cutoff)
  {
    if q != [] && q[0] <= cutoff {
      PruneIsSuffix(q[1..], cutoff);
    }
  }

  // What the state knows at time `now`: the queue is the end of the history, the rest has expired.
  ghost predicate Knows(q: seq<real>, h: seq<real>, limit: int, window: int, now: real) {
    && Sorted(h) && Spaced(h, limit, window)
    && (forall i | 0 <= i < |h| :: h[i] <= now)
    && IsSuffix(q, h)
    && (forall i | 0 <= i < |h| - |q| :: h[i] <= now - window as real)
    && |q| <= Max(limit, 0)
  }

  lemma PruneKnows(q: seq<real>, h: seq<real>, limit: int, window: int, was: real, now: real)
    requires Knows(q, h, limit, window, was) && was <= now
    ensures Knows(Prune(q, now - window as real), h, limit, window, now)
  {
    PruneIsSuffix(q, now - window as real);
    var p := Prune(q, now - window as real);
    forall i | 0 <= i < |h| - |p|
      ensures h[i] <= now - window as real
    {
      if i >= |h| - |q| {
        assert h[i] == q[i - (|h| - |q|)];
      }
    }
  }

  lemma RecordKnows(q: seq<real>, h: seq<real>, limit: int, window: int, was: real, now: real)
    requires Knows(q, h, limit, window, was) && was <= now && |q| < limit
    ensures Knows(q + [now], h + [now], limit, window, now)
  {
    var h' := h + [now];
    forall i | 0 <= i < |h'| - limit
      ensures Apart(h', i, limit, window)
    {
      if i + limit == |h| {
        assert i < |h| - |q|;
      } else {
        assert Apart(h, i, limit, window);
      }
    }
  }

  lemma KnowsLater(q: seq<real>, h: seq<real>, limit: int, window: int, was: real, now: real)
    requires Knows(q, h, limit, window, was) && was <= now
    ensures Knows(q, h, limit, window, now)
  {
  }

  lemma CheckKnows(events: Events, c: Call, h: seq<real>)
    requires c.prune <= c.record
    requires Knows(QueueOf(events, c.key), h, c.limit, c.key.1, c.prune)
    ensures var (events', answer) := Check(events, c);
            Knows(QueueOf(events', c.key), h + if answer.Admitted? then [c.record] else [], c.limit, c.key.1, c.record)
  {
    var queue := QueueOf(events, c.key);
    PruneKnows(queue, h, c.limit, c.key.1, c.prune, c.prune);
    var q1 := Prune(queue, Cutoff(c.key, c.prune));
    if |q1| >= c.limit {
      PruneKnows(q1, h, c.limit, c.key.1, c.prune, c.record);
      assert h + [] == h;
    } else {
      RecordKnows(q1, h, c.limit, c.key.1, c.prune, c.record);
    }
  }

  lemma {:induction false} RunKnows(calls: seq<Call>, key: Key, limit: int, now: real)
    requires Run(calls, key, limit)
    requires calls != [] ==> Last(calls).hint <= now
    ensures Knows(QueueOf(Exec(calls), key), History(calls, key), limit, key.1, now)
  {
    if calls != [] {
      var before, c := Front(calls), Last(calls);
      RunFront(calls, key, limit);
      assert before != [] ==> Last(before).hint <= c.prune;
      RunKnows(before, key, limit, c.prune);
      if c.key == key {
        CheckKnows(Exec(before), c, History(before, key));
        KnowsLater(QueueOf(Exec(calls), key), History(calls, key), limit, key.1, c.record, now);
      } else {
        assert QueueOf(Exec(calls), key) == QueueOf(Exec(before), key);
        assert History(calls, key) == History(before, key);
        KnowsLater(QueueOf(Exec(calls), key), History(calls, key), limit, key.1, c.prune, now);
      }
    }
  }

  /* ---------- the window bound ---------- */

  // A window-long interval, open on one side.
  predicate InInterval(x: real, from: real, window: int, leftOpen: bool) {
    if leftOpen then from < x <= from + window as real else from <= x < from + window as real
  }

  function CountIn(h: seq<real>, from: real, window: int, leftOpen: bool): nat {
    if h == [] then 0
    else CountIn(Front(h), from, window, leftOpen) + if InInterval(Last(h), from, window, leftOpen) then 1 else 0
  }

  lemma {:induction false} CountTail(h: seq<real>, k: nat, from: real, window: int, leftOpen: bool)
    requires k <= |h| && forall i | 0 <= i < k :: !InInterval(h[i], from, window, leftOpen)
    ensures CountIn(h, from, window, leftOpen) <= |h| - k
  {
    if h != [] {
      CountTail(Front(h), Min(k, |h| - 1), from, window, leftOpen);
    }
  }

  lemma {:induction false} SpacedBound(h: seq<real>, limit: int, from: real, window: int, leftOpen: bool)
    requires Sorted(h) && Spaced(h, limit, window) && (limit <= 0 ==> h == [])
    ensures CountIn(h, from, window, leftOpen) <= Max(limit, 0)
  {
    if h != [] {
      var n := |h|;
      if InInterval(h[n - 1], from, window, leftOpen) {
        if n > limit {
          assert Apart(h, n - 1 - limit, limit, window);
          CountTail(h, n - limit, from, window, leftOpen);
        } else {
          CountTail(h, 0, from, window, leftOpen);
        }
      } else {
        if limit >= 1 {
          forall i | 0 <= i < n - 1 - limit ensures Apart(Front(h), i, limit, window) {
            assert Apart(h, i, limit, window);
          }
        }
        SpacedBound(Front(h), limit, from, window, leftOpen);
      }
    }
  }

  lemma {:induction false} NothingAdmitted(calls: seq<Call>, key: Key, limit: int)
    requires Run(calls, key, limit) && limit <= 0
    ensures History(calls, key) == []
  {
    if calls != [] {
      RunFront(calls, key, limit);
      NothingAdmitted(Front(calls), key, limit);
    }
  }

  /** Every half-open interval as long as the window contains at most `limit` admitted calls. */
  lemma SlidingWindowBound(calls: seq<Call>, key: Key, limit: int, from: real, leftOpen: bool)
    requires Run(calls, key, limit)
    ensures CountIn(History(calls, key), from, key.1, leftOpen) <= Max(limit, 0)
  {
    if calls != [] {
      RunKnows(calls, key, limit, Last(calls).hint);
      if limit <= 0 {
        NothingAdmitted(calls, key, limit);
      }
      SpacedBound(History(calls, key), limit, from, key.1, leftOpen);
    }
  }

  /* ---------- the retry hint ---------- */

  lemma TruncCovers(x: real)
    ensures (Max(1, Trunc(x) + 1)) as real > x
    ensures x >= 0.0 ==> Trunc(x) as real <= x
  {
  }

  lemma {:induction false} RunPrefix(calls: seq<Call>, n: nat, key: Key, limit: int)
    requires n <= |calls| && Run(calls, key, limit)
    ensures Run(calls[..n], key, limit)
  {
  }

  lemma KnowsBefore(calls: seq<Call>, n: nat, key: Key, limit: int)
    requires n < |calls| && Run(calls, key, limit)
    ensures calls[n].prune <= calls[n].record <= calls[n].hint
    ensures Knows(QueueOf(Exec(calls[..n]), key), History(calls[..n], key), limit, key.1, calls[n].prune)
  {
    RunPrefix(calls, n, key, limit);
    assert n > 0 ==> Last(calls[..n]) == calls[n - 1];
    RunKnows(calls[..n], key, limit, calls[n].prune);
  }

  lemma KnowsAtLast(calls: seq<Call>, key: Key, limit: int)
    requires calls != [] && Run(calls, key, limit)
    ensures Knows(QueueOf(Exec(Front(calls)), key), History(Front(calls), key), limit, key.1, Last(calls).prune)
  {
    RunFront(calls, key, limit);
    RunKnows(Front(calls), key, limit, Last(calls).prune);
  }

  /** A call made at least the hinted seconds after a refusal is admitted, if none was in between. */
  lemma RetryHintSuffices(calls: seq<Call>, n: nat, key: Key, limit: int)
    requires limit >= 1 && Run(calls, key, limit) && n < |calls| - 1
    requires calls[n].key == key && Last(calls).key == key
    requires AnswerAfter(calls[..n], calls[n]).Refused?
    requires History(Front(calls), key) == History(calls[..n], key)
    requires Last(calls).prune >= calls[n].hint + AnswerAfter(calls[..n], calls[n]).retryAfter as real
    ensures AnswerAfter(Front(calls), Last(calls)).Admitted?
  {
    KnowsBefore(calls, n, key, limit);
    KnowsAtLast(calls, key, limit);
    LateCallAdmitted(Exec(calls[..n]), calls[n], Exec(Front(calls)), Last(calls), History(calls[..n], key));
  }

  lemma LateCallAdmitted(events: Events, c: Call, events': Events, d: Call, h: seq<real>)
    requires c.key == d.key && c.limit == d.limit >= 1 && c.prune <= c.record <= c.hint
    requires Knows(QueueOf(events, c.key), h, c.limit, c.key.1, c.prune)
    requires Knows(QueueOf(events', c.key), h, c.limit, c.key.1, d.prune)
    requires Check(events, c).1.Refused?
    requires d.prune >= c.hint + Check(events, c).1.retryAfter as real
    ensures Check(events', d).1.Admitted?
  {
    HintExpires(events, c, h, Cutoff(d.key, d.prune));
    PrunedBelow(QueueOf(events', d.key), h, d.limit, Cutoff(d.key, d.prune));
  }

  /** By the end of the hinted wait the event `limit` places from the end has expired. */
  lemma HintExpires(events: Events, c: Call, h: seq<real>, cutoff: real)
    requires c.limit >= 1 && c.prune <= c.record <= c.hint
    requires Knows(QueueOf(events, c.key), h, c.limit, c.key.1, c.prune)
    requires Check(events, c).1.Refused?
    requires cutoff >= c.hint + Check(events, c).1.retryAfter as real - c.key.1 as real
    ensures |h| >= c.limit ==> h[|h| - c.limit] <= cutoff
  {
    CheckKnows(events, c, h);
    assert h + [] == h;
    var q2 := QueueOf(Check(events, c).0, c.key);
    if q2 != [] {
      TruncCovers(c.key.1 as real - (c.hint - q2[0]));
      assert q2[0] <= cutoff;
      assert q2[0] == h[|h| - |q2|];
    }
  }

  lemma PrunedBelow(q: seq<real>, h: seq<real>, limit: int, cutoff: real)
    requires Sorted(h) && IsSuffix(q, h) && limit >= 1
    requires |h| >= limit ==> h[|h| - limit] <= cutoff
    ensures |Prune(q, cutoff)| < limit
  {
    PruneIsSuffix(q, cutoff);
    var p := Prune(q, cutoff);
    assert p != [] ==> p[0] == h[|h| - |p|];
  }

  lemma {:induction false} PruneTwice(q: seq<real>, a: real, b: real)
    requires a <= b
    ensures Prune(Prune(q, a), b) == Prune(q, b)
  {
    if q != [] && q[0] <= a {
      PruneTwice(q[1..], a, b);
    }
  }

  // The part of the history after the cutoff.
  ghost predicate CutAt(p: seq<real>, h: seq<real>, cutoff: real) {
    IsSuffix(p, h) && (forall i | 0 <= i < |h| - |p| :: h[i] <= cutoff) && (p != [] ==> p[0] > cutoff)
  }

  lemma CutIsUnique(p: seq<real>, q: seq<real>, h: seq<real>, cutoff: real)
    requires CutAt(p, h, cutoff) && CutAt(q, h, cutoff)
    ensures p == q
  {
    assert p != [] ==> p[0] == h[|h| - |p|];
    assert q != [] ==> q[0] == h[|h| - |q|];
  }

  lemma PrunedIsCut(q: seq<real>, h: seq<real>, limit: int, window: int, was: real, now: real)
    requires Knows(q, h, limit, window, was) && was <= now
    ensures CutAt(Prune(q, now - window as real), h, now - window as real)
  {
    PruneKnows(q, h, limit, window, was, now);
    PruneIsSuffix(q, now - window as real);
  }

  /** What the refusal leaves in the queue is still all there shortly before the hinted time. */
  lemma HintCut(events: Events, c: Call, h: seq<real>, later: real)
    requires c.prune <= c.record <= c.hint <= later && c.limit >= 1
    requires Knows(QueueOf(events, c.key), h, c.limit, c.key.1, c.prune)
    requires Check(events, c).1.Refused? && Check(events, c).1.retryAfter >= 2
    requires later < c.hint + (Check(events, c).1.retryAfter - 1) as real
    ensures CutAt(Prune(QueueOf(events, c.key), Cutoff(c.key, c.record)), h, Cutoff(c.key, later))
  {
    var q2 := Prune(QueueOf(events, c.key), Cutoff(c.key, c.record));
    PruneTwice(QueueOf(events, c.key), Cutoff(c.key, c.prune), Cutoff(c.key, c.record));
    PrunedIsCut(QueueOf(events, c.key), h, c.limit, c.key.1, c.prune, c.record);
    TruncCovers(c.key.1 as real - (c.hint - q2[0]));
  }

  /** Two calls, the second on a state with the same history. */
  lemma EarlyCallRefusedIff(events: Events, c: Call, events': Events, d: Call, h: seq<real>)
    requires c.key == d.key && c.limit == d.limit >= 1 && c.prune <= c.record <= c.hint <= d.prune
    requires Knows(QueueOf(events, c.key), h, c.limit, c.key.1, c.prune)
    requires Knows(QueueOf(events', c.key), h, c.limit, c.key.1, d.prune)
    requires Check(events, c).1.Refused? && Check(events, c).1.retryAfter >= 2
    requires d.prune < c.hint + (Check(events, c).1.retryAfter - 1) as real
    ensures Check(events', d).1.Refused? <==> |Prune(QueueOf(events, c.key), Cutoff(c.key, c.record))| >= c.limit
  {
    var early, late := QueueOf(events, c.key), QueueOf(events', c.key);
    HintCut(events, c, h, d.prune);
    PrunedIsCut(late, h, c.limit, c.key.1, d.prune, d.prune);
    CutIsUnique(Prune(late, Cutoff(d.key, d.prune)), Prune(early, Cutoff(c.key, c.record)), h, Cutoff(d.key, d.prune));
  }

  /** And the hint overshoots by less than a second: a call more than a second earlier is refused,
      exactly if no event that the refusal counted had expired by its second pruning. */
  lemma RetryHintTightIff(calls: seq<Call>, n: nat, key: Key, limit: int)
    requires limit >= 1 && Run(calls, key, limit) && n < |calls| - 1
    requires calls[n].key == key && Last(calls).key == key
    requires AnswerAfter(calls[..n], calls[n]).Refused? && AnswerAfter(calls[..n], calls[n]).retryAfter >= 2
    requires History(Front(calls), key) == History(calls[..n], key)
    requires Last(calls).prune < calls[n].hint + (AnswerAfter(calls[..n], calls[n]).retryAfter - 1) as real
    ensures AnswerAfter(Front(calls), Last(calls)).Refused?
            <==> |Prune(QueueOf(Exec(calls[..n]), key), Cutoff(key, calls[n].record))| >= limit
  {
    KnowsBefore(calls, n, key, limit);
    KnowsAtLast(calls, key, limit);
    EarlyCallRefusedIff(Exec(calls[..n]), calls[n], Exec(Front(calls)), Last(calls), History(calls[..n], key));
  }

  /* ---------- the limiter decides as its rule says ---------- */

  lemma {:induction false} CountOfCut(h: seq<real>, p: seq<real>, from: real, window: int)
    requires window >= 0 && CutAt(p, h, from) && Sorted(h) && forall i | 0 <= i < |h| :: h[i] <= from + window as real
    ensures CountIn(h, from, window, true) == |p|
  {
    if h != [] {
      var front := Front(h);
      if p == [] {
        assert CutAt([], front, from);
        CountOfCut(front, [], from, window);
      } else {
        assert Last(p) == Last(h) && Last(p) > from by {
          assert p[0] == h[|h| - |p|];
        }
        assert CutAt(Front(p), front, from);
        CountOfCut(front, Front(p), from, window);
      }
    }
  }

  /** How many calls for the key were admitted in the window that ends at the call; its start is exclusive. */
  function Recent(calls: seq<Call>, c: Call): nat {
    CountIn(History(calls, c.key), c.prune - c.key.1 as real, c.key.1, true)
  }

  /** After any calls, one more is admitted exactly if fewer than `limit` were in the window that ends at
      it. A refusal asks to wait at least a second. */
  lemma {:induction false} AdmittedIff(calls: seq<Call>, c: Call)
    requires Run(calls + [c], c.key, c.limit) && c.key.1 >= 0
    ensures AnswerAfter(calls, c).Admitted? <==> Recent(calls, c) < c.limit
    ensures AnswerAfter(calls, c).Refused? ==> AnswerAfter(calls, c).retryAfter >= 1
  {
    KnownAfter(calls, c);
    DecidesByRule(calls, c);
  }

  lemma {:induction false} DecidesByRule(calls: seq<Call>, c: Call)
    requires Knows(QueueOf(Exec(calls), c.key), History(calls, c.key), c.limit, c.key.1, c.prune) && c.key.1 >= 0
    ensures AnswerAfter(calls, c).Admitted? <==> Recent(calls, c) < c.limit
    ensures AnswerAfter(calls, c).Refused? ==> AnswerAfter(calls, c).retryAfter >= 1
  {
    CallAdmittedIff(Exec(calls), c, History(calls, c.key), AnswerAfter(calls, c), Recent(calls, c));
  }

  lemma {:induction false} KnownAfter(calls: seq<Call>, c: Call)
    requires Run(calls + [c], c.key, c.limit)
    ensures Knows(QueueOf(Exec(calls), c.key), History(calls, c.key), c.limit, c.key.1, c.prune)
  {
    KnowsAtLast(calls + [c], c.key, c.limit);
    assert Front(calls + [c]) == calls && Last(calls + [c]) == c;
  }

  lemma CallAdmittedIff(events: Events, c: Call, h: seq<real>, answer: Answer, recent: nat)
    requires Knows(QueueOf(events, c.key), h, c.limit, c.key.1, c.prune) && c.key.1 >= 0
    requires answer == Check(events, c).1 && recent == CountIn(h, c.prune - c.key.1 as real, c.key.1, true)
    ensures answer.Admitted? <==> recent < c.limit
    ensures answer.Refused? ==> answer.retryAfter >= 1
  {
    var queue, from := QueueOf(events, c.key), c.prune - c.key.1 as real;
    PrunedIsCut(queue, h, c.limit, c.key.1, c.prune, c.prune);
    CountOfCut(h, Prune(queue, from), from, c.key.1);
  }
}
