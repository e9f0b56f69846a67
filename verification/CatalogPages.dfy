/** One catalogue page, and what following the cursors yields (registry/app/registry/catalog.py). */
module CatalogPages {
  import opened Common
  import opened CatalogQuery
  import opened Lex

  const PAGE_SIZE: int := 100
  const PYTHON_FILTER_PAGE_GUARD: int := 20

  // The conditions applied in Python.
  datatype Filter = Filter(permission: Option<string>, runtime: Option<string>, publisherStatus: Option<string>)

  const NoFilter := Filter(None, None, None)

  predicate Given(o: Option<string>) {
    o.Some? && o.value != ""
  }

  predicate Matches(f: Filter, r: Row) {
    if Given(f.permission) && f.permission.value == "none" && r.permissions != [] then false
    else if Given(f.permission) && f.permission.value != "none" && f.permission.value !in r.permissions then false
    else if Given(f.runtime) && r.runtime != f.runtime then false
    else if f.publisherStatus == Some("verified") && !r.signerVerified then false
    else if f.publisherStatus == Some("unverified") && r.signerVerified then false
    else true
  }

  datatype Page = Page(items: seq<Row>, next: Option<Cursor>)

  datatype CursorArg = Start | Garbled | Resume(cursor: Cursor)

  datatype CatalogError = InvalidCursor

  function Clamp(limit: int): (n: nat)
    ensures 1 <= n <= PAGE_SIZE
  {
    Max(1, Min(limit, PAGE_SIZE))
  }

  function Cap(limit: nat): nat {
    limit * PYTHON_FILTER_PAGE_GUARD
  }

  /** The matching rows, in order. */
  function Matching(f: Filter, rows: seq<Row>): (r: seq<Row>)
    ensures |r| <= |rows|
  {
    if rows == [] then []
    else if Matches(f, rows[0]) then [rows[0]] + Matching(f, rows[1..])
    else Matching(f, rows[1..])
  }

  lemma {:induction false} MatchingConcat(f: Filter, a: seq<Row>, b: seq<Row>)
    ensures Matching(f, a + b) == Matching(f, a) + Matching(f, b)
  {
    if a == [] {
      assert a + b == b;
    } else {
      assert (a + b)[1..] == a[1..] + b;
      MatchingConcat(f, a[1..], b);
    }
  }

  lemma MatchingNext(f: Filter, rows: seq<Row>, n: nat)
    requires n < |rows|
    ensures Matching(f, rows[..n + 1]) == Matching(f, rows[..n]) + if Matches(f, rows[n]) then [rows[n]] else []
  {
    assert rows[..n + 1] == rows[..n] + [rows[n]];
    MatchingConcat(f, rows[..n], [rows[n]]);
  }

  function Window(rest: seq<Row>, limit: nat): seq<Row> {
    rest[..Min(|rest|, Cap(limit))]
  }

  /** How many rows of a window are looked at until `limit` of them match. */
  function Scanned(f: Filter, window: seq<Row>, limit: nat): (n: nat)
    ensures n <= |window|
  {
    if window == [] || limit == 0 then 0
    else 1 + Scanned(f, window[1..], if Matches(f, window[0]) then limit - 1 else limit)
  }

  /** The page served when `rest` is what the query selects. */
  function PageOf(f: Filter, rest: seq<Row>, limit: nat): Page {
    var window := Window(rest, limit);
    var n := Scanned(f, window, limit);
    var items := Matching(f, window[..n]);
    var more := |window| >= Cap(limit) || (|items| >= limit && n < |window|);
    Page(items, if items != [] && more then Some(CursorOf(items[|items| - 1])) else None)
  }

  lemma {:induction false} ScannedStops(f: Filter, window: seq<Row>, limit: nat, k: nat)
    requires k <= |window| && limit >= 1
    requires if |Matching(f, window[..k])| < limit then k == |window|
             else k > 0 && |Matching(f, window[..k - 1])| < limit && |Matching(f, window[..k])| == limit
    ensures Scanned(f, window, limit) == k
  {
    if k > 0 {
      var rest, left := window[1..], if Matches(f, window[0]) then limit - 1 else limit;
      assert window[..k][1..] == rest[..k - 1];
      if k > 1 {
        assert window[..k - 1][1..] == rest[..k - 2];
      }
      if left > 0 {
        ScannedStops(f, rest, left, k - 1);
      }
    }
  }

  // The page, from where the loop stopped.
  lemma PageFromScan(f: Filter, rest: seq<Row>, limit: nat, items: seq<Row>, n: nat)
    requires limit >= 1 && n <= |Window(rest, limit)| && items == Matching(f, Window(rest, limit)[..n])
    requires if |items| < limit then n == |Window(rest, limit)|
             else n > 0 && |Matching(f, Window(rest, limit)[..n - 1])| < limit && |items| == limit
    ensures var more := |Window(rest, limit)| >= Cap(limit) || (|items| >= limit && n < |Window(rest, limit)|);
            PageOf(f, rest, limit) ==
            Page(items, if items != [] && more then Some(CursorOf(items[|items| - 1])) else None)
  {
    ScannedStops(f, Window(rest, limit), limit, n);
  }

  // The page in the terms of the loop's variables.
  lemma LoopResult(f: Filter, selected: seq<Row>, limit: nat, items: seq<Row>, stoppedAt: Option<nat>)
    requires limit >= 1
    requires var rows := Window(selected, limit);
             match stoppedAt
             case None => items == Matching(f, rows) && |items| < limit
             case Some(i) => i < |rows| && items == Matching(f, rows[..i + 1]) && |items| == limit
                             && |Matching(f, rows[..i])| < limit
    ensures var rows := Window(selected, limit);
            var more := |rows| >= Cap(limit) || (stoppedAt.Some? && stoppedAt.value + 1 < |rows|);
            PageOf(f, selected, limit)
            == Page(items, if items != [] && more then Some(CursorOf(items[|items| - 1])) else None)
  {
    var rows := Window(selected, limit);
    assert rows[..|rows|] == rows;
    PageFromScan(f, selected, limit, items, if stoppedAt.Some? then stoppedAt.value + 1 else |rows|);
  }

  /** load_catalog_page, from the fetched rows on: filter them in Python until the page is full. */
  method FillPage(f: Filter, selected: seq<Row>, limit: nat) returns (page: Page)
    requires limit >= 1
    ensures page == PageOf(f, selected, limit)
  {
    var cap := Cap(limit);
    var rows := selected[..Min(|selected|, cap)];
    var items: seq<Row> := [];
    var last: Option<Cursor> := None;
    var stoppedAt: Option<nat> := None;
    var idx := 0;
    while idx < |rows|
      invariant idx <= |rows| && stoppedAt.None?
      invariant items == Matching(f, rows[..idx]) && |items| < limit
      invariant last == if items == [] then None else Some(CursorOf(items[|items| - 1]))
    {
      MatchingNext(f, rows, idx);
      if Matches(f, rows[idx]) {
        items := items + [rows[idx]];
        last := Some(CursorOf(rows[idx]));
        if |items| >= limit {
          stoppedAt := Some(idx);
          break;
        }
      }
      idx := idx + 1;
    }
    assert rows[..|rows|] == rows;
    LoopResult(f, selected, limit, items, stoppedAt);
    var moreBeyondWindow := |rows| >= cap;
    var moreInWindow := stoppedAt.Some? && stoppedAt.value + 1 < |rows|;
    page := Page(items, if last.Some? && (moreBeyondWindow || moreInWindow) then last else None);
  }

  /** load_catalog_page */
  method LoadCatalogPage(table: seq<Row>, sql: Row -> bool, f: Filter, arg: CursorArg, requested: int)
    returns (r: Result<Page, CatalogError>)
    ensures arg.Garbled? <==> r == Err(InvalidCursor)
    ensures !arg.Garbled? ==>
              r == Ok(PageOf(f, Query(table, sql, if arg.Resume? then Some(arg.cursor) else None), Clamp(requested)))
  {
    var limit: nat := Clamp(requested);
    if arg.Garbled? {
      return Err(InvalidCursor);
    }
    var page := FillPage(f, Query(table, sql, if arg.Resume? then Some(arg.cursor) else None), limit);
    r := Ok(page);
  }

  /* ---------- following the cursors ---------- */

  // Row m of the window is the last one the page returns.
  ghost predicate IsLastItem(f: Filter, window: seq<Row>, limit: nat, m: nat) {
    var n := Scanned(f, window, limit);
    var items := Matching(f, window[..n]);
    && m < n && Matches(f, window[m]) && items == Matching(f, window[..m + 1])
    && Matching(f, window[m + 1..n]) == []
    && (if |items| < limit then n == |window| else m + 1 == n)
  }

  lemma {:induction false} LastItem(f: Filter, window: seq<Row>, limit: nat)
    requires limit >= 1 && Matching(f, window[..Scanned(f, window, limit)]) != []
    ensures exists m :: IsLastItem(f, window, limit, m)
  {
    var n := Scanned(f, window, limit);
    var rest, left := window[1..], if Matches(f, window[0]) then limit - 1 else limit;
    assert window[..n][1..] == rest[..n - 1];
    if left >= 1 && Matching(f, rest[..n - 1]) != [] {
      LastItem(f, rest, left);
      var m :| IsLastItem(f, rest, left, m);
      LastItemShift(f, window, limit, m);
    } else {
      LastItemFirst(f, window, limit);
    }
  }

  lemma LastItemShift(f: Filter, window: seq<Row>, limit: nat, m: nat)
    requires limit >= 1 && window != []
    requires var left := if Matches(f, window[0]) then limit - 1 else limit;
             left >= 1 && IsLastItem(f, window[1..], left, m)
    ensures IsLastItem(f, window, limit, m + 1)
  {
    var n := Scanned(f, window, limit);
    var rest := window[1..];
    assert window[..n][1..] == rest[..n - 1];
    assert window[..m + 2][1..] == rest[..m + 1] && window[m + 2..n] == rest[m + 1..n - 1];
  }

  lemma LastItemFirst(f: Filter, window: seq<Row>, limit: nat)
    requires limit >= 1 && window != []
    requires var n, left := Scanned(f, window, limit), if Matches(f, window[0]) then limit - 1 else limit;
             Matching(f, window[..n]) != [] && (left == 0 || Matching(f, window[1..][..n - 1]) == [])
    ensures IsLastItem(f, window, limit, 0)
  {
    var n := Scanned(f, window, limit);
    var rest, left := window[1..], if Matches(f, window[0]) then limit - 1 else limit;
    assert window[..n][1..] == rest[..n - 1];
    assert window[..1][1..] == [] && window[1..n] == rest[..n - 1];
    if left >= 1 {
      ScannedAll(f, rest, left);
    }
  }

  lemma {:induction false} LastMatching(f: Filter, rows: seq<Row>, m: nat)
    requires m < |rows| && Matches(f, rows[m])
    ensures var items := Matching(f, rows[..m + 1]); items != [] && items[|items| - 1] == rows[m]
  {
    assert rows[..m + 1] == rows[..m] + [rows[m]];
    MatchingConcat(f, rows[..m], [rows[m]]);
  }

  lemma {:induction false} ScannedAll(f: Filter, window: seq<Row>, limit: nat)
    requires limit >= 1 && Matching(f, window[..Scanned(f, window, limit)]) == []
    ensures Scanned(f, window, limit) == |window|
  {
    if window != [] {
      var n := Scanned(f, window, limit);
      assert window[..n][1..] == window[1..][..n - 1] && window[..n][0] == window[0];
      ScannedAll(f, window[1..], limit);
    }
  }

  // The position of the row a page's cursor points at.
  ghost predicate ResumesAfter(f: Filter, rest: seq<Row>, limit: nat, m: nat) {
    && m < |rest| && m < Cap(limit) && Matches(f, rest[m])
    && PageOf(f, rest, limit).items == Matching(f, rest[..m + 1])
    && PageOf(f, rest, limit).next == Some(CursorOf(rest[m]))
  }

  /** A page that has a successor resumes right after its last row; one that has none either was
      the end of the matches, or came from a full window without any. */
  lemma PageShape(f: Filter, rest: seq<Row>, limit: nat)
    requires limit >= 1
    ensures var page := PageOf(f, rest, limit);
            if page.next.Some? then exists m :: ResumesAfter(f, rest, limit, m)
            else if page.items == [] then Matching(f, Window(rest, limit)) == []
            else |rest| < Cap(limit) && page.items == Matching(f, rest)
  {
    var window := Window(rest, limit);
    var n := Scanned(f, window, limit);
    var page := PageOf(f, rest, limit);
    assert window[..|window|] == window;
    if page.items == [] {
      ScannedAll(f, window, limit);
    } else {
      LastItem(f, window, limit);
      var m :| IsLastItem(f, window, limit, m);
      LastMatching(f, window, m);
      assert window[..m + 1] == rest[..m + 1];
      if page.next.Some? {
        assert ResumesAfter(f, rest, limit, m);
      } else {
        assert n == |window| && window == rest;
      }
    }
  }

  /** All items a client collects that starts at `cursor` and follows nextCursor. */
  ghost function Follow(table: seq<Row>, sql: Row -> bool, f: Filter, limit: nat, cursor: Option<Cursor>): seq<Row>
    requires limit >= 1 && UniqueIds(table)
    decreases |Query(table, sql, cursor)|
  {
    var rest := Query(table, sql, cursor);
    var page := PageOf(f, rest, limit);
    if page.next.None? then page.items
    else
      PageShape(f, rest, limit);
      var m :| ResumesAfter(f, rest, limit, m);
      ResumeIsSuffix(table, sql, cursor, m);
      page.items + Follow(table, sql, f, limit, page.next)
  }

  // No matching row lies more than `cap` rows behind the previous match, or the start.
  ghost predicate MatchesNear(f: Filter, rows: seq<Row>, cap: nat) {
    forall i | cap <= i < |rows| && Matches(f, rows[i]) :: exists j :: i - cap <= j < i && Matches(f, rows[j])
  }

  lemma NearFromSuffix(f: Filter, rest: seq<Row>, cap: nat, m: nat)
    requires m < |rest| && m < cap && Matches(f, rest[m])
    ensures MatchesNear(f, rest, cap) <==> MatchesNear(f, rest[m + 1..], cap)
  {
    var tail := rest[m + 1..];
    if MatchesNear(f, rest, cap) {
      forall i | cap <= i < |tail| && Matches(f, tail[i])
        ensures exists j :: i - cap <= j < i && Matches(f, tail[j])
      {
        assert rest[i + m + 1] == tail[i];
        var j :| i + m + 1 - cap <= j < i + m + 1 && Matches(f, rest[j]);
        assert tail[j - m - 1] == rest[j];
      }
    }
    if MatchesNear(f, tail, cap) {
      forall i | cap <= i < |rest| && Matches(f, rest[i])
        ensures exists j :: i - cap <= j < i && Matches(f, rest[j])
      {
        assert tail[i - m - 1] == rest[i];
        if i - m - 1 >= cap {
          var j :| i - m - 1 - cap <= j < i - m - 1 && Matches(f, tail[j]);
          assert rest[j + m + 1] == tail[j];
        }
      }
    }
  }

  lemma {:induction false} NoMatching(f: Filter, rows: seq<Row>)
    ensures Matching(f, rows) == [] <==> forall i | 0 <= i < |rows| :: !Matches(f, rows[i])
  {
    if rows != [] {
      NoMatching(f, rows[1..]);
      if Matching(f, rows) == [] {
        forall i | 0 <= i < |rows| ensures !Matches(f, rows[i]) {
          if i > 0 {
            assert rows[1..][i - 1] == rows[i];
          }
        }
      } else if !Matches(f, rows[0]) {
        var i :| 0 <= i < |rows[1..]| && Matches(f, rows[1..][i]);
        assert rows[i + 1] == rows[1..][i];
      }
    }
  }

  /** On an unchanged table the pages collect a prefix of the matching rows, in order and each once,
      and all of them exactly if no match lies more than limit * 20 rows behind the previous one. */
  lemma {:induction false} FollowCollects(table: seq<Row>, sql: Row -> bool, f: Filter, limit: nat,
                                        cursor: Option<Cursor>)
    requires limit >= 1 && UniqueIds(table)
    ensures var rest := Query(table, sql, cursor);
            && Follow(table, sql, f, limit, cursor) <= Matching(f, rest)
            && (Follow(table, sql, f, limit, cursor) == Matching(f, rest) <==> MatchesNear(f, rest, Cap(limit)))
    decreases |Query(table, sql, cursor)|
  {
    var rest := Query(table, sql, cursor);
    var page := PageOf(f, rest, limit);
    PageShape(f, rest, limit);
    if page.next.Some? {
      var m :| ResumesAfter(f, rest, limit, m);
      ResumeIsSuffix(table, sql, cursor, m);
      FollowCollects(table, sql, f, limit, page.next);
      assert rest == rest[..m + 1] + rest[m + 1..];
      MatchingConcat(f, rest[..m + 1], rest[m + 1..]);
      NearFromSuffix(f, rest, Cap(limit), m);
    } else if page.items == [] {
      EmptyPage(f, rest, limit);
    }
  }

  lemma EmptyPage(f: Filter, rest: seq<Row>, limit: nat)
    requires limit >= 1 && Matching(f, Window(rest, limit)) == []
    ensures Matching(f, rest) == [] <==> MatchesNear(f, rest, Cap(limit))
  {
    var cap := Cap(limit);
    EmptyWindow(f, rest, limit);
    NoMatching(f, rest);
    if MatchesNear(f, rest, cap) {
      NoneFar(f, rest, cap, |rest|);
    }
  }

  lemma EmptyWindow(f: Filter, rest: seq<Row>, limit: nat)
    requires Matching(f, Window(rest, limit)) == []
    ensures forall i | 0 <= i < Min(|rest|, Cap(limit)) :: !Matches(f, rest[i])
  {
    var window := Window(rest, limit);
    NoMatching(f, window);
    assert forall i | 0 <= i < |window| :: window[i] == rest[i];
  }

  lemma {:induction false} NoneFar(f: Filter, rest: seq<Row>, cap: nat, n: nat)
    requires n <= |rest| && MatchesNear(f, rest, cap)
    requires forall i | 0 <= i < |rest| && i < cap :: !Matches(f, rest[i])
    ensures forall i | 0 <= i < n :: !Matches(f, rest[i])
  {
    if n > 0 {
      NoneFar(f, rest, cap, n - 1);
    }
  }

  lemma {:induction false} NoFilterMatchesAll(rows: seq<Row>)
    ensures Matching(NoFilter, rows) == rows
  {
    if rows != [] {
      NoFilterMatchesAll(rows[1..]);
    }
  }

  lemma NoFilterNear(rows: seq<Row>, cap: nat)
    requires cap >= 1
    ensures MatchesNear(NoFilter, rows, cap)
  {
    forall i | cap <= i < |rows| && Matches(NoFilter, rows[i])
      ensures exists j :: i - cap <= j < i && Matches(NoFilter, rows[j])
    {
      assert Matches(NoFilter, rows[i - 1]);
    }
  }

  /** Without Python-side conditions the pages are exactly the public rows that rank first for their
      agent and satisfy the statement, each once, in (sort_key desc, id desc) order. */
  lemma UnfilteredPaginationExact(table: seq<Row>, sql: Row -> bool, requested: int)
    requires UniqueIds(table)
    ensures var all := Follow(table, sql, NoFilter, Clamp(requested), None);
            && (forall r :: r in all <==> r in table && RanksFirst(table, r) && r.isPublic && sql(r))
            && InOrder(all)
            && forall i, j | 0 <= i < j < |all| :: all[i] != all[j]
  {
    var limit := Clamp(requested);
    var rows := Query(table, sql, None);
    FollowCollects(table, sql, NoFilter, limit, None);
    NoFilterMatchesAll(rows);
    NoFilterNear(rows, Cap(limit));
    QueryIsExact(table, sql, None);
    OrderedDistinct(rows);
  }

  lemma OrderedDistinct(rows: seq<Row>)
    requires InOrder(rows)
    ensures forall i, j | 0 <= i < j < |rows| :: rows[i] != rows[j]
  {
    forall i, j | 0 <= i < j < |rows| ensures rows[i] != rows[j] {
      PrecedesTotal(rows[i], rows[i]);
    }
  }

  lemma {:induction false} MatchingIsSublist(f: Filter, rows: seq<Row>)
    requires InOrder(rows)
    ensures InOrder(Matching(f, rows))
    ensures forall r :: r in Matching(f, rows) <==> r in rows && Matches(f, r)
  {
    if rows != [] {
      MatchingIsSublist(f, rows[1..]);
      var rest := Matching(f, rows[1..]);
      assert rows == [rows[0]] + rows[1..];
      forall j | 0 <= j < |rest| ensures Precedes(rows[0], rest[j]) {
        assert rest[j] in rows[1..];
        var k :| 0 <= k < |rows[1..]| && rows[1..][k] == rest[j];
        assert Precedes(rows[0], rows[k + 1]);
      }
    }
  }

  /** With Python-side conditions the pages are sound, strictly descending and free of duplicates, and
      they collect every selected matching row exactly if no match lies too far behind the last. */
  lemma FilteredPaginationExactIff(table: seq<Row>, sql: Row -> bool, f: Filter, requested: int)
    requires UniqueIds(table)
    ensures var all := Follow(table, sql, f, Clamp(requested), None);
            && (forall r | r in all :: r in table && RanksFirst(table, r) && r.isPublic && sql(r) && Matches(f, r))
            && InOrder(all)
            && ((forall r | r in table && RanksFirst(table, r) && r.isPublic && sql(r) && Matches(f, r) :: r in all)
                <==> MatchesNear(f, Query(table, sql, None), Cap(Clamp(requested))))
  {
    var rows := Query(table, sql, None);
    var all := Follow(table, sql, f, Clamp(requested), None);
    var wanted := Matching(f, rows);
    FollowCollects(table, sql, f, Clamp(requested), None);
    QueryIsExact(table, sql, None);
    MatchingIsSublist(f, rows);
    assert forall i | 0 <= i < |all| :: all[i] == wanted[i];
    forall r | r in all ensures r in wanted {
      var i :| 0 <= i < |all| && all[i] == r;
      assert wanted[i] == r;
    }
    if forall r | r in table && RanksFirst(table, r) && r.isPublic && sql(r) && Matches(f, r) :: r in all {
      assert forall r | r in wanted :: r in all;
      OrderedUnique(all, wanted);
    }
  }

  /* ---------- a match out of reach ---------- */

  const OnlyVerified := Filter(None, None, Some("verified"))

  // Twenty rows by unverified publishers, then a verified one.
  function ExampleRow(i: nat): Row
    requires i <= 20
  {
    Row(20 - i, i, "1", true, "n1", 0, false, "approved", [], None, i == 20)
  }

  const ExampleTable: seq<Row> := seq(21, i requires 0 <= i < 21 => ExampleRow(i))

  lemma ExampleQuery(sql: Row -> bool)
    requires forall r :: sql(r)
    ensures UniqueIds(ExampleTable) && Query(ExampleTable, sql, None) == ExampleTable
    ensures forall r | r in ExampleTable :: RanksFirst(ExampleTable, r)
  {
    StrEqual("n1");
    assert forall r | r in ExampleTable :: r == ExampleRow(r.agentId);
    forall r | r in ExampleTable ensures RanksFirst(ExampleTable, r) {
      assert forall other | other in ExampleTable && other.agentId == r.agentId :: other == r;
    }
    assert InOrder(ExampleTable);
    QueryIsExact(ExampleTable, sql, None);
    OrderedUnique(Query(ExampleTable, sql, None), ExampleTable);
  }

  /** Pages of one: the first window of twenty rows holds no match, the paging ends there, and the one
      matching row is never served. */
  lemma FilteredPagesCanStopEarly(sql: Row -> bool)
    requires forall r :: sql(r)
    ensures var missed := ExampleTable[20];
            && UniqueIds(ExampleTable) && missed in ExampleTable && RanksFirst(ExampleTable, missed)
            && missed.isPublic && Matches(OnlyVerified, missed)
            && missed !in Follow(ExampleTable, sql, OnlyVerified, Clamp(1), None)
  {
    var missed := ExampleTable[20];
    ExampleQuery(sql);
    FilteredPaginationExactIff(ExampleTable, sql, OnlyVerified, 1);
    assert !MatchesNear(OnlyVerified, ExampleTable, 20) by {
      assert Matches(OnlyVerified, ExampleTable[20]);
      assert forall j | 0 <= j < 20 :: !Matches(OnlyVerified, ExampleTable[j]);
    }
    assert forall r | r in ExampleTable && Matches(OnlyVerified, r) :: r == missed;
  }
}
