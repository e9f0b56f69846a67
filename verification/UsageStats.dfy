/** The aggregation loops over the usage tables (runtime/src/observability.ts). */
module UsageStats {
  import opened Common
  import opened Retention

  datatype Agent = Agent(runs: nat, running: nat, lastRunAt: int)

  datatype Model = Model(provider: string, model: string, tokensIn: int, tokensOut: int)

  datatype Stats = Stats(running: nat, stopped: nat, failed: nat, allTime: nat, containers: nat,
                         sandboxes: map<string, nat>, perAgent: map<string, Agent>,
                         tokensIn: int, tokensOut: int, models: map<string, Model>, modelRuns: map<string, nat>)

  // The runs in range, by id, in the order of the query.
  type Listing = seq<(string, Run)>

  /* ---------- counting, entry by entry ---------- */

  function ActiveRuns(runs: Listing): nat {
    if runs == [] then 0
    else ActiveRuns(runs[..|runs| - 1]) + if Active(runs[|runs| - 1].1.state) then 1 else 0
  }

  function FailedRuns(runs: Listing): nat {
    if runs == [] then 0
    else FailedRuns(runs[..|runs| - 1]) + if runs[|runs| - 1].1.state == "failed" then 1 else 0
  }

  function StoppedRuns(runs: Listing): nat {
    if runs == [] then 0
    else
      var state := runs[|runs| - 1].1.state;
      StoppedRuns(runs[..|runs| - 1]) + if !Active(state) && state != "failed" then 1 else 0
  }

  function InSandbox(runs: Listing, sandbox: string): nat {
    if runs == [] then 0
    else InSandbox(runs[..|runs| - 1], sandbox) + if runs[|runs| - 1].1.sandbox == sandbox then 1 else 0
  }

  function Of(runs: Listing, agent: string): Listing {
    if runs == [] then []
    else
      var before := Of(runs[..|runs| - 1], agent);
      if runs[|runs| - 1].1.agent == agent then before + [runs[|runs| - 1]] else before
  }

  function Scope(runs: Listing): set<string> {
    set r | r in runs :: r.0
  }

  function ModelKey(t: Tokens): string {
    t.provider + ":" + t.model
  }

  /** The usage rows of runs in range, and those of one model. */
  function InScope(usage: seq<Row<Tokens>>, scope: set<string>): seq<Row<Tokens>> {
    if usage == [] then []
    else
      var before := InScope(usage[..|usage| - 1], scope);
      if usage[|usage| - 1].runId in scope then before + [usage[|usage| - 1]] else before
  }

  function OfModel(rows: seq<Row<Tokens>>, key: string): seq<Row<Tokens>> {
    if rows == [] then []
    else
      var before := OfModel(rows[..|rows| - 1], key);
      if ModelKey(rows[|rows| - 1].data) == key then before + [rows[|rows| - 1]] else before
  }

  function SumIn(rows: seq<Row<Tokens>>): int {
    if rows == [] then 0 else SumIn(rows[..|rows| - 1]) + rows[|rows| - 1].data.tokensIn
  }

  function SumOut(rows: seq<Row<Tokens>>): int {
    if rows == [] then 0 else SumOut(rows[..|rows| - 1]) + rows[|rows| - 1].data.tokensOut
  }

  function RunIds(rows: seq<Row<Tokens>>): set<string> {
    set u | u in rows :: u.runId
  }

  /* ---------- sums over a table ---------- */

  ghost function Total(m: map<string, int>): int {
    if m == map[] then 0
    else
      var k :| k in m;
      m[k] + Total(m - {k})
  }

  lemma {:induction false} TotalWithout(m: map<string, int>, k: string)
    requires k in m
    ensures Total(m) == m[k] + Total(m - {k})
  {
    var j :| j in m && Total(m) == m[j] + Total(m - {j});
    if j != k {
      TotalWithout(m - {j}, k);
      TotalWithout(m - {k}, j);
      assert m - {j} - {k} == m - {k} - {j};
    }
  }

  lemma TotalUpdate(m: map<string, int>, k: string, v: int)
    ensures Total(m[k := v]) == Total(m) - (if k in m then m[k] else 0) + v
  {
    TotalWithout(m[k := v], k);
    assert m[k := v] - {k} == m - {k};
    if k in m {
      TotalWithout(m, k);
    } else {
      assert m - {k} == m;
    }
  }

  function RunCounts(agents: map<string, Agent>): map<string, int> {
    map a | a in agents :: agents[a].runs
  }

  function RunningCounts(agents: map<string, Agent>): map<string, int> {
    map a | a in agents :: agents[a].running
  }

  function Inputs(models: map<string, Model>): map<string, int> {
    map k | k in models :: models[k].tokensIn
  }

  function Outputs(models: map<string, Model>): map<string, int> {
    map k | k in models :: models[k].tokensOut
  }

  /* ---------- the tables, entry by entry ---------- */

  function Sandboxes(runs: Listing): map<string, nat> {
    if runs == [] then map[]
    else
      var m, key := Sandboxes(runs[..|runs| - 1]), runs[|runs| - 1].1.sandbox;
      m[key := (if key in m then m[key] else 0) + 1]
  }

  function NextAgent(e: Option<Agent>, r: Run): Agent {
    match e
    case None => Agent(1, if Active(r.state) then 1 else 0, r.startedAt)
    case Some(a) => Agent(a.runs + 1, a.running + (if Active(r.state) then 1 else 0), Max(a.lastRunAt, r.startedAt))
  }

  function Agents(runs: Listing): map<string, Agent> {
    if runs == [] then map[]
    else
      var m, r := Agents(runs[..|runs| - 1]), runs[|runs| - 1].1;
      m[r.agent := NextAgent(if r.agent in m then Some(m[r.agent]) else None, r)]
  }

  function NextModel(e: Option<Model>, t: Tokens): Model {
    match e
    case None => Model(t.provider, t.model, t.tokensIn, t.tokensOut)
    case Some(m) => Model(m.provider, m.model, m.tokensIn + t.tokensIn, m.tokensOut + t.tokensOut)
  }

  function Models(rows: seq<Row<Tokens>>): map<string, Model> {
    if rows == [] then map[]
    else
      var m, t := Models(rows[..|rows| - 1]), rows[|rows| - 1].data;
      var key := ModelKey(t);
      m[key := NextModel(if key in m then Some(m[key]) else None, t)]
  }

  function ModelRuns(rows: seq<Row<Tokens>>): map<string, set<string>> {
    if rows == [] then map[]
    else
      var m, u := ModelRuns(rows[..|rows| - 1]), rows[|rows| - 1];
      var key := ModelKey(u.data);
      m[key := (if key in m then m[key] else {}) + {u.runId}]
  }

  method TallyRuns(runs: Listing) returns (sandboxes: map<string, nat>, perAgent: map<string, Agent>)
    ensures sandboxes == Sandboxes(runs) && perAgent == Agents(runs)
  {
    sandboxes, perAgent := map[], map[];
    for i := 0 to |runs|
      invariant sandboxes == Sandboxes(runs[..i])
    {
      assert runs[..i + 1][..i] == runs[..i];
      var key := runs[i].1.sandbox;
      sandboxes := sandboxes[key := (if key in sandboxes then sandboxes[key] else 0) + 1];
    }
    for i := 0 to |runs|
      invariant perAgent == Agents(runs[..i])
    {
      assert runs[..i + 1][..i] == runs[..i];
      var r := runs[i].1;
      perAgent := perAgent[r.agent := NextAgent(if r.agent in perAgent then Some(perAgent[r.agent]) else None, r)];
    }
    assert runs[..|runs|] == runs;
  }

  method TallyUsage(usage: seq<Row<Tokens>>, scope: set<string>)
    returns (tokensIn: int, tokensOut: int, models: map<string, Model>, modelRuns: map<string, set<string>>)
    ensures var rows := InScope(usage, scope);
            && tokensIn == SumIn(rows) && tokensOut == SumOut(rows)
            && models == Models(rows) && modelRuns == ModelRuns(rows)
  {
    tokensIn, tokensOut, models, modelRuns := 0, 0, map[], map[];
    ghost var rows := [];
    for i := 0 to |usage|
      invariant rows == InScope(usage[..i], scope)
      invariant tokensIn == SumIn(rows) && tokensOut == SumOut(rows)
      invariant models == Models(rows) && modelRuns == ModelRuns(rows)
    {
      var u := usage[i];
      assert usage[..i + 1][..i] == usage[..i];
      if u.runId in scope {
        assert (rows + [u])[..|rows|] == rows;
        rows := rows + [u];
        tokensIn, tokensOut := tokensIn + u.data.tokensIn, tokensOut + u.data.tokensOut;
        var key := ModelKey(u.data);
        models := models[key := NextModel(if key in models then Some(models[key]) else None, u.data)];
        modelRuns := modelRuns[key := (if key in modelRuns then modelRuns[key] else {}) + {u.runId}];
      }
    }
    assert usage[..|usage|] == usage;
  }

  /* ---------- what the tables say ---------- */

  /** Every run is active, stopped or failed, and just one of them. */
  lemma {:induction false} StatesPartition(runs: Listing)
    ensures ActiveRuns(runs) + StoppedRuns(runs) + FailedRuns(runs) == |runs|
  {
    if runs != [] {
      StatesPartition(runs[..|runs| - 1]);
    }
  }

  /** Each sandbox's count is its number of runs, and the counts add up to all runs. */
  lemma {:induction false} SandboxesAddUp(runs: Listing)
    ensures Total(Sandboxes(runs)) == |runs|
    ensures forall k :: (if k in Sandboxes(runs) then Sandboxes(runs)[k] else 0) == InSandbox(runs, k)
  {
    if runs != [] {
      var front, key := runs[..|runs| - 1], runs[|runs| - 1].1.sandbox;
      SandboxesAddUp(front);
      TotalUpdate(Sandboxes(front), key, Sandboxes(runs)[key]);
    }
  }

  /** The agents' run counts add up to all runs, and their running counts to the active ones. */
  lemma {:induction false} AgentsAddUp(runs: Listing)
    ensures Total(RunCounts(Agents(runs))) == |runs|
    ensures Total(RunningCounts(Agents(runs))) == ActiveRuns(runs)
  {
    if runs == [] {
      assert RunCounts(map[]) == map[] && RunningCounts(map[]) == map[];
    } else {
      var front, a := runs[..|runs| - 1], runs[|runs| - 1].1.agent;
      AgentsAddUp(front);
      var m, m' := Agents(front), Agents(runs);
      assert RunCounts(m') == RunCounts(m)[a := m'[a].runs];
      TotalUpdate(RunCounts(m), a, m'[a].runs);
      assert RunningCounts(m') == RunningCounts(m)[a := m'[a].running];
      TotalUpdate(RunningCounts(m), a, m'[a].running);
    }
  }

  ghost predicate LastRun(at: int, runs: Listing) {
    (exists r | r in runs :: r.1.startedAt == at) && forall r | r in runs :: r.1.startedAt <= at
  }

  lemma LastRunStep(at: int, runs: Listing, r: (string, Run))
    requires LastRun(at, runs)
    ensures LastRun(Max(at, r.1.startedAt), runs + [r])
  {
    assert r in runs + [r];
    var q :| q in runs && q.1.startedAt == at;
    assert q in runs + [r];
  }

  /** Each agent with a run has an entry: its runs, its active ones, and its latest start. */
  lemma {:induction false} AgentEntry(runs: Listing, a: string)
    ensures a in Agents(runs) <==> Of(runs, a) != []
    ensures a in Agents(runs) ==>
              var e, mine := Agents(runs)[a], Of(runs, a);
              e.runs == |mine| && e.running == ActiveRuns(mine) && LastRun(e.lastRunAt, mine)
  {
    if runs != [] {
      var front, r := runs[..|runs| - 1], runs[|runs| - 1];
      AgentEntry(front, a);
      var mine := Of(front, a);
      if r.1.agent == a {
        assert (mine + [r])[..|mine|] == mine;
        if mine == [] {
          assert Of(runs, a) == [r];
          assert r in Of(runs, a);
        } else {
          LastRunStep(Agents(front)[a].lastRunAt, mine, r);
        }
      }
    }
  }

  /** The models' token counts add up to the totals. */
  lemma {:induction false} ModelsAddUp(rows: seq<Row<Tokens>>)
    ensures Total(Inputs(Models(rows))) == SumIn(rows)
    ensures Total(Outputs(Models(rows))) == SumOut(rows)
  {
    if rows == [] {
      assert Inputs(map[]) == map[] && Outputs(map[]) == map[];
    } else {
      var front, k := rows[..|rows| - 1], ModelKey(rows[|rows| - 1].data);
      ModelsAddUp(front);
      var m, m' := Models(front), Models(rows);
      assert Inputs(m') == Inputs(m)[k := m'[k].tokensIn];
      TotalUpdate(Inputs(m), k, m'[k].tokensIn);
      assert Outputs(m') == Outputs(m)[k := m'[k].tokensOut];
      TotalUpdate(Outputs(m), k, m'[k].tokensOut);
    }
  }

  /** Each model with usage has an entry: the sums over its rows, and the runs they belong to. */
  lemma {:induction false} ModelEntry(rows: seq<Row<Tokens>>, k: string)
    ensures k in Models(rows) <==> OfModel(rows, k) != []
    ensures k in ModelRuns(rows) <==> OfModel(rows, k) != []
    ensures k in Models(rows) ==>
              var e, mine := Models(rows)[k], OfModel(rows, k);
              e.provider + ":" + e.model == k && e.tokensIn == SumIn(mine) && e.tokensOut == SumOut(mine)
    ensures k in ModelRuns(rows) ==> ModelRuns(rows)[k] == RunIds(OfModel(rows, k))
  {
    if rows != [] {
      var front, u := rows[..|rows| - 1], rows[|rows| - 1];
      ModelEntry(front, k);
      var mine := OfModel(front, k);
      if ModelKey(u.data) == k {
        assert (mine + [u])[..|mine|] == mine;
        assert RunIds(mine + [u]) == RunIds(mine) + {u.runId};
      }
    }
  }

  // For each model with usage, how many runs it was used in.
  ghost predicate RunsTally(sizes: map<string, nat>, rows: seq<Row<Tokens>>) {
    && (forall k :: k in sizes <==> OfModel(rows, k) != [])
    && (forall k | k in sizes :: sizes[k] == |RunIds(OfModel(rows, k))|)
  }

  lemma SizesOf(rows: seq<Row<Tokens>>, sizes: map<string, nat>)
    requires sizes == map k | k in ModelRuns(rows) :: |ModelRuns(rows)[k]|
    ensures RunsTally(sizes, rows)
  {
    forall k {
      ModelEntry(rows, k);
    }
  }

  lemma RunsAddUp(runs: Listing)
    ensures ActiveRuns(runs) + StoppedRuns(runs) + FailedRuns(runs) == |runs|
    ensures Total(Sandboxes(runs)) == |runs| == Total(RunCounts(Agents(runs)))
    ensures Total(RunningCounts(Agents(runs))) == ActiveRuns(runs)
    ensures InSandbox(runs, "container") == if "container" in Sandboxes(runs) then Sandboxes(runs)["container"] else 0
  {
    StatesPartition(runs);
    SandboxesAddUp(runs);
    AgentsAddUp(runs);
  }

  method ComputeUsageStats(runs: Listing, usage: seq<Row<Tokens>>) returns (s: Stats)
    ensures s.running + s.stopped + s.failed == s.allTime == |runs|
    ensures Total(s.sandboxes) == s.allTime == Total(RunCounts(s.perAgent))
    ensures Total(RunningCounts(s.perAgent)) == s.running
    ensures s.containers == if "container" in s.sandboxes then s.sandboxes["container"] else 0
    ensures Total(Inputs(s.models)) == s.tokensIn && Total(Outputs(s.models)) == s.tokensOut
    ensures s.running == ActiveRuns(runs) && s.failed == FailedRuns(runs) && s.perAgent == Agents(runs)
    ensures var rows := InScope(usage, Scope(runs));
            && s.tokensIn == SumIn(rows) && s.tokensOut == SumOut(rows) && s.models == Models(rows)
            && RunsTally(s.modelRuns, rows)
  {
    RunsAddUp(runs);
    var tokensIn, tokensOut, models, modelRuns := TallyUsage(usage, Scope(runs));
    var sandboxes, perAgent := TallyRuns(runs);
    ghost var rows := InScope(usage, Scope(runs));
    ModelsAddUp(rows);
    var sizes := map k | k in modelRuns :: |modelRuns[k]|;
    SizesOf(rows, sizes);
    s := Stats(ActiveRuns(runs), StoppedRuns(runs), FailedRuns(runs), |runs|, InSandbox(runs, "container"),
               sandboxes, perAgent, tokensIn, tokensOut, models, sizes);
  }

  /* ---------- what is counted ---------- */

  function InState(runs: Listing, state: string): nat {
    if runs == [] then 0
    else InState(runs[..|runs| - 1], state) + if runs[|runs| - 1].1.state == state then 1 else 0
  }

  /** Running are the runs being started, running or being stopped; failed those in state failed. */
  lemma {:induction false} StatesCounted(runs: Listing)
    ensures ActiveRuns(runs) == InState(runs, "starting") + InState(runs, "running") + InState(runs, "stopping")
    ensures FailedRuns(runs) == InState(runs, "failed")
  {
    if runs != [] {
      StatesCounted(runs[..|runs| - 1]);
    }
  }

  /** Usage counts exactly if its run is listed: row by row, as often as it is there. */
  lemma {:induction false} InScopeExactly(usage: seq<Row<Tokens>>, runs: Listing, u: Row<Tokens>)
    ensures multiset(InScope(usage, Scope(runs)))[u]
            == if exists r :: r in runs && r.0 == u.runId then multiset(usage)[u] else 0
  {
    if usage != [] {
      InScopeExactly(usage[..|usage| - 1], runs, u);
      assert usage == usage[..|usage| - 1] + [usage[|usage| - 1]];
    }
  }

  /** A model's rows are those whose provider and name, joined by a colon, are its key. */
  lemma {:induction false} OfModelExactly(rows: seq<Row<Tokens>>, key: string, u: Row<Tokens>)
    ensures multiset(OfModel(rows, key))[u]
            == if u.data.provider + ":" + u.data.model == key then multiset(rows)[u] else 0
  {
    if rows != [] {
      OfModelExactly(rows[..|rows| - 1], key, u);
      assert rows == rows[..|rows| - 1] + [rows[|rows| - 1]];
    }
  }

  /** And an agent's runs are those listed for it. */
  lemma {:induction false} OfAgentExactly(runs: Listing, agent: string, r: (string, Run))
    ensures multiset(Of(runs, agent))[r] == if r.1.agent == agent then multiset(runs)[r] else 0
  {
    if runs != [] {
      OfAgentExactly(runs[..|runs| - 1], agent, r);
      assert runs == runs[..|runs| - 1] + [runs[|runs| - 1]];
    }
  }
}
