/** Pruning of finished runs (runtime/src/usage.ts). */
module Retention {
  import opened Common

  datatype Run = Run(agent: string, sandbox: string, state: string, createdAt: int, startedAt: int)

  // A row of token_usage or resource_samples.
  datatype Row<T> = Row(runId: string, data: T)

  datatype Tokens = Tokens(provider: string, model: string, tokensIn: int, tokensOut: int)

  datatype Tables = Tables(runs: map<string, Run>, usage: seq<Row<Tokens>>, samples: seq<Row<int>>)

  datatype Options = Options(olderThanDays: Option<int>, keep: Option<int>)

  const DAY: int := 86_400_000

  predicate Active(state: string) {
    state == "starting" || state == "running" || state == "stopping"
  }

  function Ended(runs: map<string, Run>): set<string> {
    set id | id in runs && !Active(runs[id].state)
  }

  predicate Stale(r: Run, opts: Options, now: int) {
    opts.olderThanDays.Some? && opts.olderThanDays.value >= 0 && r.createdAt < now - opts.olderThanDays.value * DAY
  }

  // How the query lists the ended runs: newest first, ties in any order.
  ghost predicate Listed(runs: map<string, Run>, order: seq<string>) {
    && (forall id :: id in order <==> id in Ended(runs))
    && (forall i, j | 0 <= i < j < |order| :: order[i] != order[j])
    && (forall i, j | 0 <= i < j < |order| :: order[i] in runs && order[j] in runs
                                              && runs[order[i]].createdAt >= runs[order[j]].createdAt)
  }

  function Elements(s: seq<string>): set<string> {
    set x | x in s
  }

  /** The listed runs beyond the `keep` newest. */
  function Surplus(order: seq<string>, opts: Options): seq<string> {
    if opts.keep.Some? && 0 <= opts.keep.value <= |order| then order[opts.keep.value..] else []
  }

  function Candidates(runs: map<string, Run>, order: seq<string>, opts: Options, now: int): set<string> {
    (set id | id in Ended(runs) && Stale(runs[id], opts, now)) + Elements(Surplus(order, opts))
  }

  function Without<T>(rows: seq<Row<T>>, ids: set<string>): seq<Row<T>> {
    if rows == [] then []
    else
      var before := Without(rows[..|rows| - 1], ids);
      if rows[|rows| - 1].runId in ids then before else before + [rows[|rows| - 1]]
  }

  function Deleted(t: Tables, gone: set<string>): Tables {
    Tables(t.runs - gone, Without(t.usage, gone), Without(t.samples, gone))
  }

  /** Only runs that exist are deleted, and rows with them. */
  function Remove(t: Tables, ids: set<string>): Tables {
    Deleted(t, ids * t.runs.Keys)
  }

  function Prune(t: Tables, order: seq<string>, opts: Options, now: int): Tables {
    Remove(t, Candidates(t.runs, order, opts, now))
  }

  /* ---------- rows ---------- */

  /** Just the rows of the removed runs go; the others stay as often as they were there. */
  lemma {:induction false} WithoutExactly<T>(rows: seq<Row<T>>, ids: set<string>, r: Row<T>)
    ensures multiset(Without(rows, ids))[r] == if r.runId in ids then 0 else multiset(rows)[r]
  {
    if rows != [] {
      WithoutExactly(rows[..|rows| - 1], ids, r);
      assert rows == rows[..|rows| - 1] + [rows[|rows| - 1]];
    }
  }

  lemma {:induction false} WithoutTwice<T>(rows: seq<Row<T>>, a: set<string>, b: set<string>)
    ensures Without(Without(rows, a), b) == Without(rows, a + b)
  {
    if rows != [] {
      WithoutTwice(rows[..|rows| - 1], a, b);
      var w := Without(rows[..|rows| - 1], a);
      assert (w + [rows[|rows| - 1]])[..|w|] == w;
    }
  }

  lemma {:induction false} WithoutNone<T>(rows: seq<Row<T>>)
    ensures Without(rows, {}) == rows
  {
    if rows != [] {
      WithoutNone(rows[..|rows| - 1]);
    }
  }

  lemma NoneDeleted(t: Tables)
    ensures forall rows: set<string> :: Deleted(t, rows - rows) == t
  {
    WithoutNone(t.usage);
    WithoutNone(t.samples);
    assert forall rows: set<string> :: rows - rows == {};
    assert t.runs - {} == t.runs;
  }

  lemma DeletedOne(t: Tables, rows: set<string>, todo: set<string>, id: string)
    requires todo <= rows && id in todo
    ensures Deleted(Deleted(t, rows - todo), {id}) == Deleted(t, rows - (todo - {id}))
  {
    WithoutTwice(t.usage, rows - todo, {id});
    WithoutTwice(t.samples, rows - todo, {id});
    assert (rows - todo) + {id} == rows - (todo - {id});
    assert t.runs - (rows - todo) - {id} == t.runs - (rows - (todo - {id}));
  }

  lemma SizeAfterRemove(t: Tables, ids: set<string>)
    ensures |Remove(t, ids).runs| + |ids * t.runs.Keys| == |t.runs|
  {
    var left, gone := Remove(t, ids).runs, ids * t.runs.Keys;
    assert left.Keys + gone == t.runs.Keys && left.Keys !! gone;
    assert |t.runs| == |t.runs.Keys| && |left| == |left.Keys|;
  }

  /* ---------- the tables ---------- */

  class UsageTables {
    var runs: map<string, Run>
    var usage: seq<Row<Tokens>>
    var samples: seq<Row<int>>

    constructor (t: Tables)
      ensures Now() == t
    {
      runs, usage, samples := t.runs, t.usage, t.samples;
    }

    function Now(): Tables
      reads this
    {
      Tables(runs, usage, samples)
    }

    method PruneCandidates(order: seq<string>, opts: Options, now: int) returns (ids: set<string>)
      requires Listed(runs, order)
      ensures ids == Candidates(runs, order, opts, now)
    {
      ids := {};
      if opts.olderThanDays.Some? && opts.olderThanDays.value >= 0 {
        ids := set id | id in runs && !Active(runs[id].state)
                        && runs[id].createdAt < now - opts.olderThanDays.value * DAY;
      }
      ghost var older := ids;
      var rows := Surplus(order, opts);
      for i := 0 to |rows|
        invariant ids == older + Elements(rows[..i])
      {
        assert rows[..i + 1] == rows[..i] + [rows[i]];
        ids := ids + {rows[i]};
      }
      assert rows[..|rows|] == rows;
    }

    /** Delete the runs and what hangs on them, run by run. */
    method RemoveRuns(ids: set<string>) returns (removed: nat)
      modifies this
      ensures Now() == Remove(old(Now()), ids)
      ensures removed == |ids * old(runs).Keys|
    {
      var rows := ids * runs.Keys;
      removed := |rows|;
      var todo := rows;
      NoneDeleted(Now());
      while todo != {}
        invariant todo <= rows
        invariant Now() == Deleted(old(Now()), rows - todo)
        decreases |todo|
      {
        var id :| id in todo;
        DeletedOne(old(Now()), rows, todo, id);
        usage := Without(usage, {id});
        samples := Without(samples, {id});
        runs := runs - {id};
        todo := todo - {id};
      }
      assert rows - todo == rows;
    }

    method PruneNow(order: seq<string>, opts: Options, now: int) returns (removed: nat)
      requires Listed(runs, order)
      modifies this
      ensures Now() == Prune(old(Now()), order, opts, now)
      ensures removed == |old(runs)| - |runs|
    {
      var ids := PruneCandidates(order, opts, now);
      SizeAfterRemove(Now(), ids);
      removed := RemoveRuns(ids);
    }
  }

  /* ---------- what pruning leaves ---------- */

  lemma {:induction false} DistinctSize(s: seq<string>)
    requires forall i, j | 0 <= i < j < |s| :: s[i] != s[j]
    ensures |Elements(s)| == |s|
  {
    if s != [] {
      var front, last := s[..|s| - 1], s[|s| - 1];
      assert Elements(s) == Elements(front) + {last};
      DistinctSize(front);
    }
  }

  /** How many of the listed runs are not too old: they come first. */
  function Fresh(runs: map<string, Run>, order: seq<string>, opts: Options, now: int): (n: nat)
    ensures n <= |order|
    ensures forall i | 0 <= i < n :: order[i] in runs && !Stale(runs[order[i]], opts, now)
    ensures n < |order| ==> order[n] !in runs || Stale(runs[order[n]], opts, now)
  {
    if order != [] && order[0] in runs && !Stale(runs[order[0]], opts, now)
    then 1 + Fresh(runs, order[1..], opts, now)
    else 0
  }

  function Kept(runs: map<string, Run>, order: seq<string>, opts: Options, now: int): (n: nat)
    ensures n <= |order|
  {
    var prefix := Fresh(runs, order, opts, now);
    if opts.keep.Some? && opts.keep.value >= 0 then Min(opts.keep.value, prefix) else prefix
  }

  /** The ended runs that stay are a prefix of the listing. */
  lemma StayingPrefix(t: Tables, order: seq<string>, opts: Options, now: int)
    requires Listed(t.runs, order)
    ensures Ended(Prune(t, order, opts, now).runs) == Elements(order[..Kept(t.runs, order, opts, now)])
  {
    var n, prefix := Kept(t.runs, order, opts, now), Fresh(t.runs, order, opts, now);
    var ids := Candidates(t.runs, order, opts, now);
    forall i | 0 <= i < |order| ensures order[i] in ids <==> i >= n {
      assert order[i] in Ended(t.runs);
      assert i >= prefix ==> Stale(t.runs[order[i]], opts, now);
      var surplus := Surplus(order, opts);
      if surplus != [] && i >= opts.keep.value {
        assert surplus[i - opts.keep.value] == order[i];
      } else {
        assert forall k | 0 <= k < |surplus| :: surplus[k] == order[opts.keep.value + k];
        assert order[i] !in surplus;
      }
    }
    var left := Prune(t, order, opts, now).runs;
    forall id ensures id in Ended(left) <==> id in order[..n] {
      if id in Ended(t.runs) {
        var i :| 0 <= i < |order| && order[i] == id;
        assert i < n ==> order[..n][i] == id;
      }
    }
  }

  // Being started, running, or being stopped.
  predicate InFlight(r: Run) {
    r.state == "starting" || r.state == "running" || r.state == "stopping"
  }

  lemma OnlyEndedGo(t: Tables, order: seq<string>, opts: Options, now: int)
    requires Listed(t.runs, order)
    ensures Candidates(t.runs, order, opts, now) <= Ended(t.runs)
  {
    forall id | id in Candidates(t.runs, order, opts, now) ensures id in Ended(t.runs) {
      assert id in Surplus(order, opts) ==> id in order;
    }
  }

  /** Pruning leaves the active runs alone, and whatever ended run stays is no older than any that went. */
  lemma PruneKeepsNewest(t: Tables, order: seq<string>, opts: Options, now: int)
    requires Listed(t.runs, order)
    ensures var left := Prune(t, order, opts, now).runs;
            && left.Keys <= t.runs.Keys && (forall id | id in left :: left[id] == t.runs[id])
            && (forall id | id in t.runs && InFlight(t.runs[id]) :: id in left)
            && (forall a, b | a in left && !InFlight(left[a]) && b in t.runs && b !in left ::
                  t.runs[a].createdAt >= t.runs[b].createdAt)
  {
    var n, left := Kept(t.runs, order, opts, now), Prune(t, order, opts, now).runs;
    StayingPrefix(t, order, opts, now);
    OnlyEndedGo(t, order, opts, now);
    forall a, b | a in Ended(left) && b in t.runs && b !in left
      ensures t.runs[a].createdAt >= t.runs[b].createdAt
    {
      var i :| 0 <= i < n && order[i] == a;
      assert b in order;
      var j :| 0 <= j < |order| && order[j] == b;
      assert j < n ==> order[..n][j] == b;
    }
  }

  /** Of the ended runs that are not too old, as many stay as `keep` allows. */
  lemma PruneKeepsAsManyAsAllowed(t: Tables, order: seq<string>, opts: Options, now: int)
    requires Listed(t.runs, order)
    ensures var young := set id | id in Ended(t.runs) && !Stale(t.runs[id], opts, now);
            |Ended(Prune(t, order, opts, now).runs)|
            == if opts.keep.Some? && opts.keep.value >= 0 then Min(opts.keep.value, |young|) else |young|
  {
    StayingPrefix(t, order, opts, now);
    FreshExactly(t.runs, order, opts, now);
    DistinctSize(order[..Kept(t.runs, order, opts, now)]);
    DistinctSize(order[..Fresh(t.runs, order, opts, now)]);
    assert (set id | id in Ended(t.runs) && !Stale(t.runs[id], opts, now))
        == Elements(order[..Fresh(t.runs, order, opts, now)]);
  }

  lemma FreshExactly(runs: map<string, Run>, order: seq<string>, opts: Options, now: int)
    requires Listed(runs, order)
    ensures var prefix := Fresh(runs, order, opts, now);
            forall id :: id in order[..prefix] <==> id in Ended(runs) && !Stale(runs[id], opts, now)
  {
    var prefix := Fresh(runs, order, opts, now);
    forall i | prefix <= i < |order| ensures order[i] in runs && Stale(runs[order[i]], opts, now) {
      assert order[i] in Ended(runs) && order[prefix] in Ended(runs);
      assert i == prefix || runs[order[prefix]].createdAt >= runs[order[i]].createdAt;
    }
    forall id | id in Ended(runs) && !Stale(runs[id], opts, now) ensures id in order[..prefix] {
      var i :| 0 <= i < |order| && order[i] == id;
    }
  }

  /** No usage or resource row of a removed run is left, and no other row is touched. */
  lemma PruneLeavesNoOrphans(t: Tables, order: seq<string>, opts: Options, now: int,
                             u: Row<Tokens>, s: Row<int>)
    ensures var t' := Prune(t, order, opts, now);
            && multiset(t'.usage)[u] == (if u.runId in t.runs && u.runId !in t'.runs then 0 else multiset(t.usage)[u])
            && multiset(t'.samples)[s]
               == (if s.runId in t.runs && s.runId !in t'.runs then 0 else multiset(t.samples)[s])
  {
    var gone := Candidates(t.runs, order, opts, now) * t.runs.Keys;
    WithoutExactly(t.usage, gone, u);
    WithoutExactly(t.samples, gone, s);
  }

  lemma ListedSize(runs: map<string, Run>, order: seq<string>)
    requires Listed(runs, order)
    ensures |order| == |Ended(runs)|
  {
    DistinctSize(order);
    assert Elements(order) == Ended(runs);
  }

  lemma NothingLeftToPrune(t: Tables, order: seq<string>, order': seq<string>, opts: Options, now: int)
    requires Listed(t.runs, order) && Listed(Prune(t, order, opts, now).runs, order')
    ensures Candidates(Prune(t, order, opts, now).runs, order', opts, now) == {}
  {
    var left := Prune(t, order, opts, now).runs;
    PruneKeepsAsManyAsAllowed(t, order, opts, now);
    ListedSize(left, order');
    assert Surplus(order', opts) == [];
    forall id | id in Ended(left) ensures !Stale(left[id], opts, now) {
      assert id !in Candidates(t.runs, order, opts, now);
    }
  }

  /** A second pruning at the same moment finds nothing, however it lists ties. */
  lemma PruneIdempotent(t: Tables, order: seq<string>, order': seq<string>, opts: Options, now: int)
    requires Listed(t.runs, order) && Listed(Prune(t, order, opts, now).runs, order')
    ensures var t' := Prune(t, order, opts, now); Prune(t', order', opts, now) == t'
  {
    var t' := Prune(t, order, opts, now);
    NothingLeftToPrune(t, order, order', opts, now);
    WithoutNone(t'.usage);
    WithoutNone(t'.samples);
    assert {} * t'.runs.Keys == {} && t'.runs - {} == t'.runs;
  }

  /* ---------- each option by itself ---------- */

  /** By age alone, exactly the runs go that are not in flight and were created more than that many days
      ago, of 86400 seconds each. */
  lemma PruneByAge(t: Tables, order: seq<string>, days: nat, now: int, id: string)
    requires Listed(t.runs, order) && id in t.runs
    ensures id !in Prune(t, order, Options(Some(days), None), now).runs
            <==> !InFlight(t.runs[id]) && t.runs[id].createdAt < now - days * 86_400_000
  {
  }

  /** By number alone, all runs in flight stay and of the others the `keep` newest, or all if there are
      not that many. */
  lemma PruneByNumber(t: Tables, order: seq<string>, keep: nat, now: int)
    requires Listed(t.runs, order)
    ensures var left := Prune(t, order, Options(None, Some(keep)), now).runs;
            var ended := set id | id in t.runs && !InFlight(t.runs[id]);
            && (forall id | id in t.runs && InFlight(t.runs[id]) :: id in left)
            && |set id | id in left && !InFlight(left[id])| == Min(keep, |ended|)
  {
    var opts := Options(None, Some(keep));
    var left := Prune(t, order, opts, now).runs;
    PruneKeepsNewest(t, order, opts, now);
    PruneKeepsAsManyAsAllowed(t, order, opts, now);
    assert (set id | id in left && !InFlight(left[id])) == Ended(left);
    assert (set id | id in t.runs && !InFlight(t.runs[id]))
        == (set id | id in Ended(t.runs) && !Stale(t.runs[id], opts, now));
  }

  /** Negative numbers, and no options at all, remove nothing. */
  lemma NoOptionNoPruning(t: Tables, order: seq<string>, opts: Options, now: int)
    requires Listed(t.runs, order)
    requires opts.olderThanDays.Some? ==> opts.olderThanDays.value < 0
    requires opts.keep.Some? ==> opts.keep.value < 0
    ensures Prune(t, order, opts, now) == t
  {
    assert Candidates(t.runs, order, opts, now) == {};
    assert {} * t.runs.Keys == {} && t.runs - {} == t.runs;
    WithoutNone(t.usage);
    WithoutNone(t.samples);
  }

  /* ---------- the listing ---------- */

  lemma {:induction false} OldestExists(runs: map<string, Run>, ids: set<string>)
    requires ids != {} && ids <= runs.Keys
    ensures exists x :: x in ids && forall y | y in ids :: runs[y].createdAt >= runs[x].createdAt
  {
    var some :| some in ids;
    var rest := ids - {some};
    if rest != {} {
      OldestExists(runs, rest);
      var x :| x in rest && forall y | y in rest :: runs[y].createdAt >= runs[x].createdAt;
      var oldest := if runs[some].createdAt < runs[x].createdAt then some else x;
      assert forall y | y in ids :: runs[y].createdAt >= runs[oldest].createdAt;
    } else {
      assert ids == {some};
    }
  }

  /** Whatever the table holds, ties included, its ended runs can be listed newest first. */
  lemma {:induction false} ListingExists(runs: map<string, Run>)
    ensures exists order :: Listed(runs, order)
    decreases |Ended(runs)|
  {
    var ended := Ended(runs);
    if ended == {} {
      assert Listed(runs, []);
    } else {
      OldestExists(runs, ended);
      var x :| x in ended && forall y | y in ended :: runs[y].createdAt >= runs[x].createdAt;
      var rest := runs - {x};
      assert Ended(rest) == ended - {x};
      ListingExists(rest);
      var order :| Listed(rest, order);
      ListedSnoc(runs, order, x);
    }
  }

  lemma ListedSnoc(runs: map<string, Run>, order: seq<string>, x: string)
    requires x in Ended(runs) && Listed(runs - {x}, order)
    requires forall y | y in Ended(runs) :: runs[y].createdAt >= runs[x].createdAt
    ensures Listed(runs, order + [x])
  {
    var all := order + [x];
    assert forall id :: id in all <==> id in order || id == x;
    assert forall id :: id in Ended(runs) <==> id in Ended(runs - {x}) || id == x;
    assert forall i | 0 <= i < |order| :: order[i] in Ended(runs - {x});
  }
}
