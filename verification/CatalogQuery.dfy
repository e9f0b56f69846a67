/** The catalogue query: the public rows that rank first for their agent, in
    (sort_key desc, id desc) order, cut off below a cursor (registry/app/registry/catalog.py). */
module CatalogQuery {
  import opened Common
  import opened Lex

  datatype Row = Row(
    id: nat,
    agentId: int,
    version: string,
    isPublic: bool,
    sortKey: string,
    publishedAt: int,
    yanked: bool,
    reviewStatus: string,
    permissions: seq<string>,
    runtime: Option<string>,
    signerVerified: bool)

  datatype Cursor = Cursor(sortKey: string, id: int)

  function CursorOf(r: Row): Cursor {
    Cursor(r.sortKey, r.id)
  }

  /** The keyset condition. */
  predicate Below(r: Row, c: Cursor) {
    StrCmp(r.sortKey, c.sortKey) == LT || (r.sortKey == c.sortKey && r.id < c.id)
  }

  /** Page order: `b` comes after `a`. */
  predicate Precedes(a: Row, b: Row) {
    Below(b, CursorOf(a))
  }

  predicate Visible(r: Row) {
    IsVisible(r.yanked, r.reviewStatus)
  }

  predicate Outranks(a: Row, b: Row) {
    StrCmp(a.sortKey, b.sortKey).Then(IntCmp(a.publishedAt, b.publishedAt)).Then(IntCmp(a.id, b.id)) == GT
  }

  /** Row number 1 of its agent among the visible rows. */
  predicate RanksFirst(table: seq<Row>, r: Row) {
    Visible(r) && forall other | other in table && Visible(other) && other.agentId == r.agentId :: !Outranks(other, r)
  }

  // The table has a primary key.
  ghost predicate UniqueIds(table: seq<Row>) {
    forall i, j | 0 <= i < j < |table| :: table[i].id != table[j].id
  }

  // `sql` stands for the remaining conditions of the statement (text search, framework, tags, ...).
  predicate Selected(table: seq<Row>, sql: Row -> bool, cursor: Option<Cursor>, r: Row) {
    RanksFirst(table, r) && r.isPublic && sql(r) && (cursor.Some? ==> Below(r, cursor.value))
  }

  /* ---------- ordering rows ---------- */

  lemma PrecedesTransitive(a: Row, b: Row, c: Row)
    requires Precedes(a, b) && Precedes(b, c)
    ensures Precedes(a, c)
  {
    LexIsTotalOrder(CharCmp);
  }

  lemma PrecedesTotal(a: Row, b: Row)
    ensures Precedes(a, b) || Precedes(b, a) || a.id == b.id
    ensures !(Precedes(a, b) && Precedes(b, a)) && !Precedes(a, a)
  {
    LexIsTotalOrder(CharCmp);
  }

  ghost predicate InOrder(rows: seq<Row>) {
    forall i, j | 0 <= i < j < |rows| :: Precedes(rows[i], rows[j])
  }

  function Insert(r: Row, rows: seq<Row>): seq<Row> {
    if rows == [] then [r]
    else if Precedes(r, rows[0]) then [r] + rows
    else [rows[0]] + Insert(r, rows[1..])
  }

  lemma {:induction false} InsertKeepsOrder(r: Row, rows: seq<Row>)
    requires InOrder(rows) && forall x | x in rows :: x.id != r.id
    ensures InOrder(Insert(r, rows)) && forall x :: x in Insert(r, rows) <==> x == r || x in rows
  {
    if rows != [] {
      assert rows[0] in rows && forall x | x in rows[1..] :: x in rows;
      assert rows == [rows[0]] + rows[1..];
      if Precedes(r, rows[0]) {
        forall j | 0 < j < |rows| ensures Precedes(r, rows[j]) { PrecedesTransitive(r, rows[0], rows[j]); }
      } else {
        InsertKeepsOrder(r, rows[1..]);
        PrecedesTotal(r, rows[0]);
        var rest := Insert(r, rows[1..]);
        forall j | 0 <= j < |rest| ensures Precedes(rows[0], rest[j]) {
          assert rest[j] in rest;
          if rest[j] != r {
            var k :| 0 <= k < |rows[1..]| && rows[1..][k] == rest[j];
            assert Precedes(rows[0], rows[k + 1]);
          }
        }
      }
    }
  }

  /** SELECT ... WHERE selected ORDER BY sort_key DESC, id DESC */
  function QueryFrom(table: seq<Row>, sql: Row -> bool, cursor: Option<Cursor>, from: nat): seq<Row>
    requires from <= |table|
    decreases |table| - from
  {
    if from == |table| then []
    else
      var rest := QueryFrom(table, sql, cursor, from + 1);
      if Selected(table, sql, cursor, table[from]) then Insert(table[from], rest) else rest
  }

  function Query(table: seq<Row>, sql: Row -> bool, cursor: Option<Cursor>): seq<Row> {
    QueryFrom(table, sql, cursor, 0)
  }

  lemma {:induction false} QueryFromIsExact(table: seq<Row>, sql: Row -> bool, cursor: Option<Cursor>, from: nat)
    requires from <= |table| && UniqueIds(table)
    ensures var q := QueryFrom(table, sql, cursor, from);
            && InOrder(q)
            && forall r :: r in q <==> r in table[from..] && Selected(table, sql, cursor, r)
    decreases |table| - from
  {
    if from < |table| {
      QueryFromIsExact(table, sql, cursor, from + 1);
      var rest := QueryFrom(table, sql, cursor, from + 1);
      assert table[from..] == [table[from]] + table[from + 1..];
      if Selected(table, sql, cursor, table[from]) {
        forall x | x in rest ensures x.id != table[from].id {
          var k :| 0 <= k < |table[from + 1..]| && table[from + 1..][k] == x;
        }
        InsertKeepsOrder(table[from], rest);
      }
    }
  }

  /** The result holds exactly the selected rows, strictly in page order. */
  lemma QueryIsExact(table: seq<Row>, sql: Row -> bool, cursor: Option<Cursor>)
    requires UniqueIds(table)
    ensures var q := Query(table, sql, cursor);
            InOrder(q) && forall r :: r in q <==> r in table && Selected(table, sql, cursor, r)
  {
    QueryFromIsExact(table, sql, cursor, 0);
    assert table[0..] == table;
  }

  /** Two ordered sequences with the same rows are equal. */
  lemma {:induction false} OrderedUnique(a: seq<Row>, b: seq<Row>)
    requires InOrder(a) && InOrder(b) && forall r :: r in a <==> r in b
    ensures a == b
  {
    assert a != [] ==> a[0] in b;
    assert b != [] ==> b[0] in a;
    if a != [] && b != [] {
      HeadIsFirst(a, b[0]);
      HeadIsFirst(b, a[0]);
      PrecedesTotal(a[0], b[0]);
      forall r ensures r in a[1..] <==> r in b[1..] {
        TailMembers(a, r);
        TailMembers(b, r);
      }
      OrderedUnique(a[1..], b[1..]);
      assert a == [a[0]] + a[1..] && b == [b[0]] + b[1..];
    }
  }

  lemma HeadIsFirst(a: seq<Row>, r: Row)
    requires a != [] && InOrder(a) && (r in a || r == a[0])
    ensures r == a[0] || Precedes(a[0], r)
  {
    if r in a {
      var i :| 0 <= i < |a| && a[i] == r;
    }
  }

  lemma TailMembers(a: seq<Row>, r: Row)
    requires a != [] && InOrder(a)
    ensures r in a[1..] <==> r in a && r != a[0]
  {
    PrecedesTotal(a[0], a[0]);
    if r in a[1..] {
      var i :| 0 <= i < |a[1..]| && a[1..][i] == r;
      assert Precedes(a[0], a[i + 1]);
    }
    if r in a && r != a[0] {
      var i :| 0 <= i < |a| && a[i] == r;
      assert a[1..][i - 1] == r;
    }
  }

  /** Resuming at the cursor of the k-th row yields exactly the rows after it. */
  lemma ResumeIsSuffix(table: seq<Row>, sql: Row -> bool, cursor: Option<Cursor>, k: nat)
    requires UniqueIds(table) && k < |Query(table, sql, cursor)|
    ensures Query(table, sql, Some(CursorOf(Query(table, sql, cursor)[k]))) == Query(table, sql, cursor)[k + 1..]
  {
    var q := Query(table, sql, cursor);
    var next := Some(CursorOf(q[k]));
    var q' := Query(table, sql, next);
    QueryIsExact(table, sql, cursor);
    QueryIsExact(table, sql, next);
    assert q[k] in q;
    forall r ensures r in q' <==> r in q[k + 1..] {
      if r in q[k + 1..] {
        var i :| 0 <= i < |q[k + 1..]| && q[k + 1..][i] == r;
        assert r == q[k + 1 + i] && r in q && Precedes(q[k], r);
      }
      if r in q' {
        if cursor.Some? {
          BelowBelow(r, q[k], cursor.value);
        }
        assert r in q;
        var i :| 0 <= i < |q| && q[i] == r;
        PrecedesTotal(q[k], q[i]);
        assert q[k + 1..][i - k - 1] == r;
      }
    }
    OrderedUnique(q', q[k + 1..]);
  }

  lemma BelowBelow(r: Row, s: Row, c: Cursor)
    requires Below(r, CursorOf(s)) && Below(s, c)
    ensures Below(r, c)
  {
    LexIsTotalOrder(CharCmp);
  }
}
