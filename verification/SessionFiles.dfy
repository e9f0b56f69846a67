/** Reading a growing session file piece by piece, as the codex and the claude adapter do
    (parseSessionFile in runtime/src/usage/codex.ts and runtime/src/usage/claude.ts). */
module SessionFiles {
  import opened Common
  import opened Strings

  datatype Stat = Stat(size: nat, mtime: int)

  datatype Cursor = Cursor(size: nat, mtime: int, offset: nat)

  /** Just past the last newline; 0 if there is none. */
  function CompleteEnd(raw: string): (e: nat)
    ensures e <= |raw|
  {
    if raw == "" then 0
    else if raw[|raw| - 1] == '\n' then |raw|
    else CompleteEnd(raw[..|raw| - 1])
  }

  predicate Boundary(raw: string, offset: nat) {
    offset == 0 || (offset <= |raw| && raw[offset - 1] == '\n')
  }

  predicate Unchanged(cursor: Option<Cursor>, st: Stat) {
    cursor.Some? && cursor.value.size == st.size && cursor.value.mtime == st.mtime
  }

  function StartOffset(cursor: Option<Cursor>, st: Stat, raw: string): (o: nat)
    ensures o <= CompleteEnd(raw)
  {
    var o := if cursor.Some? && cursor.value.offset <= st.size
                && (st.mtime == cursor.value.mtime || Boundary(raw, cursor.value.offset))
             then cursor.value.offset else 0;
    if CompleteEnd(raw) < o then 0 else o
  }

  function NextCursor(st: Stat, raw: string): Cursor {
    Cursor(st.size, st.mtime, CompleteEnd(raw))
  }

  /** The pieces a collection goes through; the last one is empty and skipped as blank. */
  function Pieces(cursor: Option<Cursor>, st: Stat, raw: string): seq<string> {
    Split(raw[StartOffset(cursor, st, raw)..CompleteEnd(raw)], '\n')
  }

  /** The newline-terminated lines of a text that ends with a newline. */
  function Lines(text: string): seq<string> {
    Init(Split(text, '\n'))
  }

  function Init(s: seq<string>): seq<string>
    requires s != []
  {
    s[..|s| - 1]
  }

  /* ---------- a file that only grows ---------- */

  // The file at one moment; its size counts bytes and its text characters.
  datatype Version = Version(raw: string, size: nat, mtime: int)

  function Complete(v: Version): string {
    v.raw[..CompleteEnd(v.raw)]
  }

  ghost predicate Later(v: Version, w: Version) {
    && |v.raw| <= v.size <= w.size
    && (v.size == w.size ==> v.raw == w.raw)
    && Complete(v) <= w.raw
  }

  ghost predicate AppendOnly(file: seq<Version>) {
    forall i, j | 0 <= i <= j < |file| :: Later(file[i], file[j])
  }

  // One collection: which moments of the file its stat and its read see, and after how many lines
  // the deadline passes.
  datatype Visit = Visit(stat: nat, read: nat, cut: nat)

  // The stored cursor, the lines handled so far, and how many were cut off by a deadline.
  datatype Reader = Reader(cursor: Option<Cursor>, handled: seq<string>, dropped: nat)

  function StatOf(v: Version): Stat {
    Stat(v.size, v.mtime)
  }

  function Collect(file: seq<Version>, r: Reader, v: Visit): Reader
    requires v.stat < |file| && v.read < |file|
  {
    var st, raw := StatOf(file[v.stat]), file[v.read].raw;
    if Unchanged(r.cursor, st) then r
    else
      var lines := Init(Pieces(r.cursor, st, raw));
      var k := Min(v.cut, |lines|);
      Reader(Some(NextCursor(st, raw)), r.handled + lines[..k], r.dropped + |lines| - k)
  }

  ghost predicate Visits(file: seq<Version>, visits: seq<Visit>) {
    && (forall k | 0 <= k < |visits| :: visits[k].stat <= visits[k].read < |file|)
    && (forall k, l | 0 <= k < l < |visits| :: visits[k].read <= visits[l].stat)
  }

  function CollectAll(file: seq<Version>, visits: seq<Visit>): Reader
    requires forall k | 0 <= k < |visits| :: visits[k].stat < |file| && visits[k].read < |file|
  {
    if visits == [] then Reader(None, [], 0)
    else
      var n := |visits| - 1;
      Collect(file, CollectAll(file, visits[..n]), visits[n])
  }

  /** The cursor after the visits; no deadline plays a part in it. */
  function CursorAt(file: seq<Version>, visits: seq<Visit>): Option<Cursor>
    requires forall k | 0 <= k < |visits| :: visits[k].stat < |file| && visits[k].read < |file|
  {
    if visits == [] then None
    else
      var c, v := CursorAt(file, visits[..|visits| - 1]), visits[|visits| - 1];
      var st := StatOf(file[v.stat]);
      if Unchanged(c, st) then c else Some(NextCursor(st, file[v.read].raw))
  }

  // The visit has nothing to read or its deadline leaves time for every new complete line.
  predicate HasTime(file: seq<Version>, c: Option<Cursor>, v: Visit)
    requires v.stat < |file| && v.read < |file|
  {
    var st := StatOf(file[v.stat]);
    Unchanged(c, st) || v.cut >= |Init(Pieces(c, st, file[v.read].raw))|
  }

  ghost predicate AllInTime(file: seq<Version>, visits: seq<Visit>)
    requires forall k | 0 <= k < |visits| :: visits[k].stat < |file| && visits[k].read < |file|
  {
    forall k | 0 <= k < |visits| :: InTime(file, visits, k)
  }

  predicate InTime(file: seq<Version>, visits: seq<Visit>, k: nat)
    requires k < |visits|
    requires forall i | 0 <= i <= k :: visits[i].stat < |file| && visits[i].read < |file|
  {
    HasTime(file, CursorAt(file, visits[..k]), visits[k])
  }

  lemma {:induction false} CursorIgnoresCuts(file: seq<Version>, visits: seq<Visit>)
    requires forall k | 0 <= k < |visits| :: visits[k].stat < |file| && visits[k].read < |file|
    ensures CollectAll(file, visits).cursor == CursorAt(file, visits)
  {
    if visits != [] {
      CursorIgnoresCuts(file, visits[..|visits| - 1]);
    }
  }

  /** No line is dropped exactly if every visit has time for the lines that are new to it. */
  lemma {:induction false} NothingDroppedIff(file: seq<Version>, visits: seq<Visit>)
    requires forall k | 0 <= k < |visits| :: visits[k].stat < |file| && visits[k].read < |file|
    ensures CollectAll(file, visits).dropped == 0 <==> AllInTime(file, visits)
  {
    if visits != [] {
      var front := visits[..|visits| - 1];
      NothingDroppedIff(file, front);
      CursorIgnoresCuts(file, front);
      InTimeSnoc(file, visits);
    }
  }

  lemma InTimeSnoc(file: seq<Version>, visits: seq<Visit>)
    requires forall k | 0 <= k < |visits| :: visits[k].stat < |file| && visits[k].read < |file|
    requires visits != []
    ensures var front := visits[..|visits| - 1];
            AllInTime(file, visits)
            <==> AllInTime(file, front) && HasTime(file, CursorAt(file, front), visits[|visits| - 1])
  {
    var n, front := |visits| - 1, visits[..|visits| - 1];
    assert InTime(file, visits, n) <==> HasTime(file, CursorAt(file, front), visits[n]);
    forall k | 0 <= k < n ensures InTime(file, visits, k) <==> InTime(file, front, k) {
      assert front[..k] == visits[..k];
    }
  }

  /* ---------- lines ---------- */

  lemma {:induction false} SplitComplete(a: string, b: string)
    requires a == "" || a[|a| - 1] == '\n'
    ensures Split(a + b, '\n') == Init(Split(a, '\n')) + Split(b, '\n')
  {
    if a == "" {
      assert a + b == b;
    } else {
      assert (a + b)[1..] == a[1..] + b;
      SplitComplete(a[1..], b);
      var rest := Split(a[1..], '\n');
      if a[0] != '\n' {
        assert |a| > 1;
        NonTrivialSplit(a[1..]);
      }
    }
  }

  lemma {:induction false} NonTrivialSplit(a: string)
    requires a != "" && a[|a| - 1] == '\n'
    ensures |Split(a, '\n')| >= 2
  {
    if |a| > 1 {
      NonTrivialSplit(a[1..]);
    }
  }

  /** Lines of consecutive complete texts concatenate. */
  lemma LinesConcat(a: string, b: string)
    requires a == "" || a[|a| - 1] == '\n'
    ensures Lines(a + b) == Lines(a) + Lines(b)
  {
    SplitComplete(a, b);
  }

  lemma {:induction false} CompleteEndIsBoundary(raw: string)
    ensures Boundary(raw, CompleteEnd(raw))
  {
    if raw != "" && raw[|raw| - 1] != '\n' {
      CompleteEndIsBoundary(raw[..|raw| - 1]);
    }
  }

  lemma {:induction false} CompleteEndIsLast(raw: string, offset: nat)
    requires Boundary(raw, offset)
    ensures offset <= CompleteEnd(raw)
  {
    if raw != "" && raw[|raw| - 1] != '\n' && offset > 0 {
      CompleteEndIsLast(raw[..|raw| - 1], offset);
    }
  }

  /* ---------- incremental reading ---------- */

  // The reader has caught up with moment n of the file, which its cursor describes.
  ghost predicate CaughtUp(file: seq<Version>, r: Reader, n: nat) {
    && n < |file|
    && r.cursor.Some?
    && r.cursor.value.offset == CompleteEnd(file[n].raw)
    && (exists s :: 0 <= s <= n && r.cursor.value.size == file[s].size)
    && |r.handled| + r.dropped == |Lines(Complete(file[n]))|
    && (r.dropped == 0 ==> r.handled == Lines(Complete(file[n])))
  }

  lemma SkipCatchesUp(file: seq<Version>, r: Reader, n: nat, v: Visit)
    requires AppendOnly(file) && CaughtUp(file, r, n) && n <= v.stat < |file|
    requires Unchanged(r.cursor, StatOf(file[v.stat]))
    ensures CaughtUp(file, r, v.stat)
  {
    var s :| 0 <= s <= n && r.cursor.value.size == file[s].size;
    assert Later(file[s], file[n]) && Later(file[n], file[v.stat]);
  }

  lemma StartsAtCursor(file: seq<Version>, r: Reader, n: nat, v: Visit)
    requires AppendOnly(file) && CaughtUp(file, r, n) && n <= v.stat <= v.read < |file|
    ensures var end := CompleteEnd(file[n].raw);
            && StartOffset(r.cursor, StatOf(file[v.stat]), file[v.read].raw) == end
            && end <= CompleteEnd(file[v.read].raw)
            && file[v.read].raw[..end] == Complete(file[n])
            && Boundary(file[v.read].raw, end)
  {
    assert Later(file[n], file[v.stat]) && Later(file[n], file[v.read]);
    CompleteEndIsBoundary(file[n].raw);
    CompleteEndIsLast(file[v.read].raw, CompleteEnd(file[n].raw));
  }

  lemma ReadCatchesUp(file: seq<Version>, r: Reader, n: nat, v: Visit)
    requires AppendOnly(file) && CaughtUp(file, r, n) && n <= v.stat <= v.read < |file|
    requires !Unchanged(r.cursor, StatOf(file[v.stat]))
    ensures CaughtUp(file, Collect(file, r, v), v.read)
  {
    NewLines(file, r, n, v);
    var more := Init(Pieces(r.cursor, StatOf(file[v.stat]), file[v.read].raw));
    HandleMore(r.handled, r.dropped, Lines(Complete(file[n])), more, v.cut);
    assert Collect(file, r, v).cursor.value.size == file[v.stat].size;
  }

  lemma NewLines(file: seq<Version>, r: Reader, n: nat, v: Visit)
    requires AppendOnly(file) && CaughtUp(file, r, n) && n <= v.stat <= v.read < |file|
    ensures Lines(Complete(file[v.read]))
            == Lines(Complete(file[n])) + Init(Pieces(r.cursor, StatOf(file[v.stat]), file[v.read].raw))
  {
    StartsAtCursor(file, r, n, v);
    LinesFrom(file[v.read].raw, CompleteEnd(file[n].raw), CompleteEnd(file[v.read].raw));
  }

  lemma LinesFrom(raw: string, from: nat, end: nat)
    requires from <= end <= |raw| && Boundary(raw, from)
    ensures Lines(raw[..end]) == Lines(raw[..from]) + Init(Split(raw[from..end], '\n'))
  {
    assert raw[..end] == raw[..from] + raw[from..end];
    LinesConcat(raw[..from], raw[from..end]);
  }

  lemma HandleMore(handled: seq<string>, dropped: nat, old_: seq<string>, more: seq<string>, cut: nat)
    requires |handled| + dropped == |old_| && (dropped == 0 ==> handled == old_)
    ensures var k := Min(cut, |more|);
            var handled', dropped' := handled + more[..k], dropped + |more| - k;
            |handled'| + dropped' == |old_ + more| && (dropped' == 0 ==> handled' == old_ + more)
  {
    assert more[..|more|] == more;
  }

  // It has caught up with some moment between the visit's stat and its read.
  ghost predicate CaughtUpDuring(file: seq<Version>, r: Reader, v: Visit) {
    exists n: nat :: v.stat <= n <= v.read && CaughtUp(file, r, n)
  }

  lemma VisitCatchesUp(file: seq<Version>, r: Reader, before: Visit, v: Visit)
    requires AppendOnly(file) && CaughtUpDuring(file, r, before) && before.read <= v.stat <= v.read < |file|
    ensures CaughtUpDuring(file, Collect(file, r, v), v)
  {
    var n: nat :| before.stat <= n <= before.read && CaughtUp(file, r, n);
    if Unchanged(r.cursor, StatOf(file[v.stat])) {
      SkipCatchesUp(file, r, n, v);
      assert Collect(file, r, v) == r;
    } else {
      ReadCatchesUp(file, r, n, v);
    }
  }

  lemma {:induction false} CollectAllCatchesUp(file: seq<Version>, visits: seq<Visit>)
    requires AppendOnly(file) && Visits(file, visits) && visits != []
    ensures CaughtUpDuring(file, CollectAll(file, visits), visits[|visits| - 1])
  {
    var k := |visits| - 1;
    if k > 0 {
      CollectAllCatchesUp(file, visits[..k]);
      VisitCatchesUp(file, CollectAll(file, visits[..k]), visits[k - 1], visits[k]);
    } else {
      assert visits[..0] == [];
      assert CollectAll(file, visits) == Collect(file, Reader(None, [], 0), visits[0]);
      FirstRead(file, visits[0]);
    }
  }

  lemma FirstRead(file: seq<Version>, v: Visit)
    requires v.stat <= v.read < |file|
    ensures CaughtUp(file, Collect(file, Reader(None, [], 0), v), v.read)
  {
    var raw := file[v.read].raw;
    var lines := Lines(raw[0..CompleteEnd(raw)]);
    assert raw[0..CompleteEnd(raw)] == Complete(file[v.read]);
    assert lines[..|lines|] == lines;
    assert Collect(file, Reader(None, [], 0), v).cursor.value.size == file[v.stat].size;
  }

  /** Any interleaving of appends with collections handles exactly the newline-terminated lines the
      file had at some moment of the last collection, each once and in order, if and only if every
      collection had time for the lines new to it; and the cursor is 0 or just past a newline. */
  lemma IncrementalEqualsOneShot(file: seq<Version>, visits: seq<Visit>)
    requires AppendOnly(file) && Visits(file, visits) && visits != []
    ensures var last, r := visits[|visits| - 1], CollectAll(file, visits);
            exists n: nat :: last.stat <= n <= last.read && n < |file|
                        && (r.handled == Lines(Complete(file[n])) <==> AllInTime(file, visits))
                        && |r.handled| + r.dropped == |Lines(Complete(file[n]))|
                        && r.cursor.Some? && Boundary(file[n].raw, r.cursor.value.offset)
  {
    CollectAllCatchesUp(file, visits);
    NothingDroppedIff(file, visits);
    var last, r := visits[|visits| - 1], CollectAll(file, visits);
    var n: nat :| last.stat <= n <= last.read && CaughtUp(file, r, n);
    CompleteEndIsBoundary(file[n].raw);
  }

  /** A line cut off once is never handled: the next collection starts behind it. */
  lemma CutLineIsLost()
    ensures var file, visits := [Version("x\n", 2, 0)], [Visit(0, 0, 0), Visit(0, 0, 9)];
            && AppendOnly(file) && Visits(file, visits)
            && CollectAll(file, visits).handled == [] && Lines(Complete(file[0])) == ["x"]
  {
    var file, v, w := [Version("x\n", 2, 0)], Visit(0, 0, 0), Visit(0, 0, 9);
    assert [v, w][..1] == [v] && [v][..0] == [];
    assert CollectAll(file, []) == Reader(None, [], 0);
    assert CompleteEnd("x\n") == 2 && "x\n"[0..2] == "x\n" && "x\n"[..2] == "x\n";
    SplitFirst("x", "", '\n');
    assert "x" + ['\n'] + "" == "x\n" && ["x"] + [""] == ["x", ""];
    assert ["x", ""][..1] == ["x"];
  }

  /* ---------- files that change otherwise ---------- */

  /** Where a scan starts, whatever happened to the file. What the cursor covers is skipped, if the file
      still reaches that far and was not touched or still has a line end there; a truncated file is read
      from the start, and a replaced one never from the middle of a line. */
  lemma WhereAScanStarts(c: Cursor, st: Stat, raw: string)
    ensures StartOffset(Some(c), st, raw) == 0 || StartOffset(Some(c), st, raw) == c.offset
    ensures c.offset > st.size || c.offset > CompleteEnd(raw) ==> StartOffset(Some(c), st, raw) == 0
    ensures st.mtime != c.mtime ==> Boundary(raw, StartOffset(Some(c), st, raw))
    ensures c.offset <= st.size && c.offset <= CompleteEnd(raw) && (st.mtime == c.mtime || Boundary(raw, c.offset)) ==>
              StartOffset(Some(c), st, raw) == c.offset
  {
  }

  // The offset lies just past the last newline, or at 0 if there is none.
  ghost predicate PastLastNewline(raw: string, end: nat) {
    && end <= |raw| && (end > 0 ==> raw[end - 1] == '\n')
    && forall i | end <= i < |raw| :: raw[i] != '\n'
  }

  /** A file is skipped exactly if neither its size nor its modification time changed; otherwise the
      cursor takes both, and the offset just past the last newline. */
  lemma WhenAScanSkips(file: seq<Version>, r: Reader, v: Visit)
    requires v.stat < |file| && v.read < |file|
    ensures var st, known := file[v.stat], r.cursor;
            if known.Some? && known.value.size == st.size && known.value.mtime == st.mtime
            then Collect(file, r, v) == r
            else exists end :: PastLastNewline(file[v.read].raw, end)
                               && Collect(file, r, v).cursor == Some(Cursor(st.size, st.mtime, end))
  {
    EndIsLastNewline(file[v.read].raw);
  }

  lemma {:induction false} EndIsLastNewline(raw: string)
    ensures PastLastNewline(raw, CompleteEnd(raw))
  {
    if raw != "" && raw[|raw| - 1] != '\n' {
      EndIsLastNewline(raw[..|raw| - 1]);
    }
  }
}
