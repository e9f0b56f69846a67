/** Which version of an agent is the latest: the loop in Python against the ranking in SQL
    (registry/app/registry/repositories.py, registry/app/registry/catalog.py). */
module Latest {
  import opened Common
  import opened CatalogQuery
  import opened Lex
  import opened Semver
  import Keys = SortKeyOrder

  /** Comparison of the pairs (semver_key, published_at). */
  function NewerCmp(a: Row, b: Row): Ord {
    KeyCmp(SemverKey(a.version), SemverKey(b.version)).Then(IntCmp(a.publishedAt, b.publishedAt))
  }

  /* ---------- the orders are total ---------- */

  lemma StrTotal()
    ensures IsTotalOrder(StrCmp)
  {
    LexIsTotalOrder(CharCmp);
    assert forall a, b :: StrCmp(a, b) == LexCmp(CharCmp, a, b);
  }

  lemma PartTotal()
    ensures IsTotalOrder(PartCmp)
  {
    StrTotal();
  }

  lemma KeyTotal(a: Key, b: Key, c: Key)
    ensures KeyCmp(a, b) == EQ <==> a == b
    ensures KeyCmp(a, b) == KeyCmp(b, a).Flip()
    ensures KeyCmp(a, b) != GT && KeyCmp(b, c) != GT ==> KeyCmp(a, c) != GT
  {
    PartTotal();
    LexIsTotalOrder(PartCmp);
  }

  lemma NewerTotal(a: Row, b: Row, c: Row)
    ensures NewerCmp(a, b) == EQ <==> SemverKey(a.version) == SemverKey(b.version) && a.publishedAt == b.publishedAt
    ensures NewerCmp(a, b) == NewerCmp(b, a).Flip()
    ensures NewerCmp(a, b) != GT && NewerCmp(b, c) != GT ==> NewerCmp(a, c) != GT
  {
    var x, y, z := SemverKey(a.version), SemverKey(b.version), SemverKey(c.version);
    KeyTotal(x, y, z);
    KeyTotal(y, x, z);
    KeyTotal(y, z, x);
    KeyTotal(x, z, y);
    KeyTotal(z, x, y);
  }

  /* ---------- the loop ---------- */

  /** `r` is the first row of the agent that no other row of the agent is newer than. */
  ghost predicate IsLatest(rows: seq<Row>, agent: int, r: Row) {
    exists i :: 0 <= i < |rows| && IsLatestAt(rows, agent, i) && rows[i] == r
  }

  ghost predicate IsLatestAt(rows: seq<Row>, agent: int, i: nat)
    requires i < |rows|
  {
    && rows[i].agentId == agent
    && (forall j | 0 <= j < |rows| && rows[j].agentId == agent :: NewerCmp(rows[j], rows[i]) != GT)
    && (forall j | 0 <= j < i && rows[j].agentId == agent :: NewerCmp(rows[j], rows[i]) == LT)
  }

  /** Keeping the old row when the next one is not newer, or replacing it when it is. */
  lemma LatestStep(rows: seq<Row>, next: Row, i: nat)
    requires i < |rows| && IsLatestAt(rows, next.agentId, i)
    ensures NewerCmp(next, rows[i]) != GT ==> IsLatestAt(rows + [next], next.agentId, i)
    ensures NewerCmp(next, rows[i]) == GT ==> IsLatestAt(rows + [next], next.agentId, |rows|)
  {
    if NewerCmp(next, rows[i]) == GT {
      NewerTotal(next, rows[i], next);
      NewerTotal(next, next, next);
      forall j | 0 <= j < |rows| && rows[j].agentId == next.agentId
        ensures NewerCmp(rows[j], next) == LT
      {
        NewerTotal(rows[j], rows[i], next);
        NewerTotal(rows[i], rows[j], next);
        NewerTotal(rows[j], next, rows[i]);
        NewerTotal(next, rows[j], rows[i]);
        NewerTotal(rows[i], next, rows[j]);
      }
    }
  }

  /** One round of the loop. */
  function Keep(latest: map<int, Row>, v: Row): map<int, Row> {
    if v.agentId !in latest || NewerCmp(v, latest[v.agentId]) == GT then latest[v.agentId := v] else latest
  }

  // Every agent seen has its latest row in the map.
  ghost predicate Summarizes(latest: map<int, Row>, rows: seq<Row>) {
    && (forall j | 0 <= j < |rows| :: rows[j].agentId in latest)
    && (forall agent | agent in latest :: IsLatest(rows, agent, latest[agent]))
  }

  lemma IsLatestIntro(rows: seq<Row>, agent: int, i: nat)
    requires i < |rows| && IsLatestAt(rows, agent, i)
    ensures IsLatest(rows, agent, rows[i])
  {
  }

  // The agent's first row.
  lemma FirstIsLatest(rows: seq<Row>, next: Row)
    requires forall j | 0 <= j < |rows| :: rows[j].agentId != next.agentId
    ensures IsLatest(rows + [next], next.agentId, next)
  {
    NewerTotal(next, next, next);
    IsLatestIntro(rows + [next], next.agentId, |rows|);
  }

  // A row of another agent.
  lemma OtherIsLatest(rows: seq<Row>, next: Row, agent: int, r: Row)
    requires IsLatest(rows, agent, r) && next.agentId != agent
    ensures IsLatest(rows + [next], agent, r)
  {
    var i :| 0 <= i < |rows| && IsLatestAt(rows, agent, i) && rows[i] == r;
    IsLatestIntro(rows + [next], agent, i);
  }

  // One more row of the agent.
  lemma NextIsLatest(rows: seq<Row>, next: Row, r: Row)
    requires IsLatest(rows, next.agentId, r)
    ensures IsLatest(rows + [next], next.agentId, if NewerCmp(next, r) == GT then next else r)
  {
    var i :| 0 <= i < |rows| && IsLatestAt(rows, next.agentId, i) && rows[i] == r;
    LatestStep(rows, next, i);
    IsLatestIntro(rows + [next], next.agentId, if NewerCmp(next, r) == GT then |rows| else i);
  }

  lemma KeepSummarizes(latest: map<int, Row>, rows: seq<Row>, n: nat)
    requires n < |rows| && Summarizes(latest, rows[..n])
    ensures Summarizes(Keep(latest, rows[n]), rows[..n + 1])
  {
    var before, next, now := rows[..n], rows[n], Keep(latest, rows[n]);
    assert rows[..n + 1] == before + [next];
    forall agent | agent in now
      ensures IsLatest(before + [next], agent, now[agent])
    {
      KeepsLatest(latest, before, next, agent);
    }
  }

  lemma KeepsLatest(latest: map<int, Row>, rows: seq<Row>, next: Row, agent: int)
    requires Summarizes(latest, rows) && agent in Keep(latest, next)
    ensures IsLatest(rows + [next], agent, Keep(latest, next)[agent])
  {
    if agent != next.agentId {
      OtherIsLatest(rows, next, agent, latest[agent]);
    } else if agent in latest {
      NextIsLatest(rows, next, latest[agent]);
    } else {
      FirstIsLatest(rows, next);
    }
  }

  /** latest_versions: for every agent, its newest row by (semver_key, published_at). */
  method LatestVersions(rows: seq<Row>) returns (latest: map<int, Row>)
    ensures Summarizes(latest, rows)
  {
    latest := map[];
    for n := 0 to |rows|
      invariant Summarizes(latest, rows[..n])
    {
      KeepSummarizes(latest, rows, n);
      latest := Keep(latest, rows[n]);
    }
    assert rows[..|rows|] == rows;
  }

  /* ---------- the SQL ranking ---------- */

  // What inserting a version stores: its sort key.
  ghost predicate Stored(table: seq<Row>) {
    forall r | r in table :: r.sortKey == SortKey(r.version) && Keys.Regular(r.version)
  }

  // Shown in the catalogue, as far as the version goes.
  predicate Shown(r: Row) {
    !r.yanked && r.reviewStatus != "rejected" && r.reviewStatus != "revoked"
  }

  // At least as new as `other`: by version, then publication, then id.
  predicate AsNew(r: Row, other: Row) {
    var byVersion := KeyCmp(SemverKey(other.version), SemverKey(r.version));
    || byVersion == LT
    || (byVersion == EQ && other.publishedAt < r.publishedAt)
    || (byVersion == EQ && other.publishedAt == r.publishedAt && other.id <= r.id)
  }

  /** The newest shown version of its agent. */
  ghost predicate Newest(table: seq<Row>, r: Row) {
    Shown(r) && forall other | other in table && Shown(other) && other.agentId == r.agentId :: AsNew(r, other)
  }

  lemma OutranksIff(other: Row, r: Row)
    requires other.sortKey == SortKey(other.version) && Keys.Regular(other.version)
    requires r.sortKey == SortKey(r.version) && Keys.Regular(r.version)
    ensures Outranks(other, r) <==> !AsNew(r, other)
  {
    Keys.SortKeyEmbeds(other.version, r.version);
  }

  /** Where sort_key is faithful, the row the database numbers 1 is the newest shown version. */
  lemma RanksFirstIffNewest(table: seq<Row>, r: Row)
    requires Stored(table) && r in table
    ensures RanksFirst(table, r) <==> Newest(table, r)
  {
    forall other | other in table ensures Outranks(other, r) <==> !AsNew(r, other) {
      OutranksIff(other, r);
    }
    assert forall other | other in table :: Visible(other) <==> Shown(other);
  }

  /** And so the database and the loop agree on the latest version: same semver_key, same publication time. */
  lemma SqlLatestRefinesLoop(table: seq<Row>, rows: seq<Row>, sqlRow: Row, loopRow: Row)
    requires Stored(table) && forall r :: r in rows <==> r in table && Shown(r)
    requires sqlRow in table && RanksFirst(table, sqlRow) && IsLatest(rows, sqlRow.agentId, loopRow)
    ensures SemverKey(sqlRow.version) == SemverKey(loopRow.version)
    ensures sqlRow.publishedAt == loopRow.publishedAt
  {
    var i :| 0 <= i < |rows| && IsLatestAt(rows, sqlRow.agentId, i) && rows[i] == loopRow;
    RanksFirstIffNewest(table, sqlRow);
    assert AsNew(sqlRow, loopRow);
    assert NewerCmp(loopRow, sqlRow) != GT;
    var j :| 0 <= j < |rows| && rows[j] == sqlRow;
    assert NewerCmp(rows[j], rows[i]) != GT;
    NewerTotal(loopRow, sqlRow, loopRow);
  }

  // By version, then publication.
  predicate NotOlder(r: Row, other: Row) {
    var byVersion := KeyCmp(SemverKey(other.version), SemverKey(r.version));
    byVersion == LT || (byVersion == EQ && other.publishedAt <= r.publishedAt)
  }

  /** What the loop keeps for an agent: no other of its rows has a higher version, or the same version and
      a later publication; and among equals it is the first. */
  lemma LoopKeepsNewest(rows: seq<Row>, agent: int, r: Row)
    requires IsLatest(rows, agent, r)
    ensures r in rows && r.agentId == agent
    ensures forall other | other in rows && other.agentId == agent :: NotOlder(r, other)
  {
    var i :| 0 <= i < |rows| && IsLatestAt(rows, agent, i) && rows[i] == r;
    forall other | other in rows && other.agentId == agent ensures NewerCmp(other, r) != GT {
      var j :| 0 <= j < |rows| && rows[j] == other;
    }
  }
}
