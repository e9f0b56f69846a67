/** What the pages of the catalogue hold, in terms of versions and columns. */
module CatalogLatest {
  import opened Common
  import opened CatalogQuery
  import opened CatalogPages
  import opened Latest
  import opened Lex
  import opened Semver
  import Keys = SortKeyOrder

  // No earlier row has a lower version, nor the same version and a smaller id.
  ghost predicate Descending(rows: seq<Row>) {
    forall i, j | 0 <= i < j < |rows| ::
      var byVersion := KeyCmp(SemverKey(rows[j].version), SemverKey(rows[i].version));
      byVersion == LT || (byVersion == EQ && rows[j].id < rows[i].id)
  }

  lemma InOrderDescends(table: seq<Row>, rows: seq<Row>)
    requires Stored(table) && InOrder(rows) && forall r | r in rows :: r in table
    ensures Descending(rows)
  {
    forall i, j | 0 <= i < j < |rows|
      ensures var byVersion := KeyCmp(SemverKey(rows[j].version), SemverKey(rows[i].version));
              byVersion == LT || (byVersion == EQ && rows[j].id < rows[i].id)
    {
      assert rows[i] in rows && rows[j] in rows;
      Keys.SortKeyEmbeds(rows[j].version, rows[i].version);
      assert Precedes(rows[i], rows[j]);
      StrEqual(rows[i].sortKey);
    }
  }

  /** The unfiltered catalogue is, for every agent, the newest version that is not yanked, rejected or
      revoked, if it is public and satisfies the statement: each once, highest version first. */
  lemma CatalogServesNewest(table: seq<Row>, sql: Row -> bool, requested: int)
    requires UniqueIds(table) && Stored(table)
    ensures var all := Follow(table, sql, NoFilter, Clamp(requested), None);
            && (forall r :: r in all <==> r in table && Newest(table, r) && r.isPublic && sql(r))
            && Descending(all)
            && forall i, j | 0 <= i < j < |all| :: all[i] != all[j]
  {
    var all := Follow(table, sql, NoFilter, Clamp(requested), None);
    UnfilteredPaginationExact(table, sql, requested);
    forall r | r in table ensures RanksFirst(table, r) <==> Newest(table, r) {
      RanksFirstIffNewest(table, r);
    }
    InOrderDescends(table, all);
  }

  /** One version per agent. */
  lemma OnePerAgent(table: seq<Row>, a: Row, b: Row)
    requires UniqueIds(table) && a in table && b in table && a.agentId == b.agentId
    requires Newest(table, a) && Newest(table, b)
    ensures a == b
  {
    KeyTotal(SemverKey(a.version), SemverKey(b.version), SemverKey(a.version));
    assert AsNew(a, b) && AsNew(b, a);
    var i :| 0 <= i < |table| && table[i] == a;
    var j :| 0 <= j < |table| && table[j] == b;
  }

  // The conditions a client may add, column by column.
  predicate Passes(f: Filter, r: Row) {
    && (match f.permission
        case None => true
        case Some(p) => if p == "" then true else if p == "none" then r.permissions == [] else p in r.permissions)
    && (match f.runtime case None => true case Some(wanted) => wanted == "" || r.runtime == Some(wanted))
    && (f.publisherStatus == Some("verified") ==> r.signerVerified)
    && (f.publisherStatus == Some("unverified") ==> !r.signerVerified)
  }

  lemma MatchesIffPasses(f: Filter, r: Row)
    ensures Matches(f, r) <==> Passes(f, r)
  {
  }

  /** A filtered catalogue serves nothing but such versions that pass the filter, highest first. */
  lemma FilteredServesNewest(table: seq<Row>, sql: Row -> bool, f: Filter, requested: int)
    requires UniqueIds(table) && Stored(table)
    ensures var all := Follow(table, sql, f, Clamp(requested), None);
            && (forall r | r in all :: r in table && Newest(table, r) && r.isPublic && sql(r) && Passes(f, r))
            && Descending(all)
  {
    var all := Follow(table, sql, f, Clamp(requested), None);
    FilteredPaginationExactIff(table, sql, f, requested);
    forall r | r in all ensures Newest(table, r) && Passes(f, r) {
      RanksFirstIffNewest(table, r);
      MatchesIffPasses(f, r);
    }
    InOrderDescends(table, all);
  }

  /* ---------- the size of a page ---------- */

  lemma {:induction false} ScannedMatches(f: Filter, window: seq<Row>, limit: nat)
    ensures |Matching(f, window[..Scanned(f, window, limit)])| <= limit
    ensures |Matching(f, window[..Scanned(f, window, limit)])| < limit ==> Scanned(f, window, limit) == |window|
  {
    if window != [] && limit > 0 {
      var left := if Matches(f, window[0]) then limit - 1 else limit;
      ScannedMatches(f, window[1..], left);
      assert window[..Scanned(f, window, limit)][1..] == window[1..][..Scanned(f, window[1..], left)];
    }
  }

  /** A page holds at most as many rows as were asked for, at least 1 and at most 100; fewer only if it
      holds every match among the next twenty times as many rows. */
  lemma PageSize(f: Filter, rest: seq<Row>, requested: int)
    ensures var limit := if requested < 1 then 1 else if requested > 100 then 100 else requested;
            var items := PageOf(f, rest, Clamp(requested)).items;
            && |items| <= limit
            && (|items| < limit ==> items == Matching(f, rest[..Min(|rest|, 20 * limit)]))
  {
    var window := Window(rest, Clamp(requested));
    ScannedMatches(f, window, Clamp(requested));
    assert window[..|window|] == window;
  }
}
