/** Codex collections over several session files: the stored cursors, the lines they hand to the ledger,
    and the ledger after it (collectCodex in runtime/src/usage/codex.ts, collectProvidersSync in
    runtime/src/usage/collect.ts). */
module Collections {
  import opened Common
  import opened UsageState
  import opened CodexLedger
  import Files = SessionFiles

  /* ---------- a collection over several files ---------- */

  /** All files are parsed against the rows on record at the start. */
  function ParseFiles(l: Ledger, files: seq<Batch>): (TotalsTable, seq<Obs>) {
    if files == [] then (l.totals, [])
    else
      var (totals, pending), b := ParseFiles(l, files[..|files| - 1]), files[|files| - 1];
      (ParseTotals(totals, b.source, b.lines), pending + ParseLines(totals, l.external, b.source, b.lines))
  }

  /** Parse every file, then record everything. */
  function CollectFiles(l: Ledger, files: seq<Batch>): Ledger {
    var (totals, pending) := ParseFiles(l, files);
    Ledger(InsertAll(l.external, pending), totals)
  }

  function CollectEach(l: Ledger, files: seq<Batch>): Ledger {
    if files == [] then l else Collect(CollectEach(l, files[..|files| - 1]), files[|files| - 1])
  }

  ghost predicate DistinctSources(files: seq<Batch>) {
    forall i, j | 0 <= i < j < |files| :: files[i].source != files[j].source
  }

  lemma {:induction false} InsertAllConcat(rows: seq<Obs>, a: seq<Obs>, b: seq<Obs>)
    ensures InsertAll(rows, a + b) == InsertAll(InsertAll(rows, a), b)
  {
    if b == [] {
      assert a + b == a;
    } else {
      assert (a + b)[..|a + b| - 1] == a + b[..|b| - 1];
      InsertAllConcat(rows, a, b[..|b| - 1]);
    }
  }

  ghost predicate AllFrom(rows: seq<Obs>, sources: set<string>) {
    forall i | 0 <= i < |rows| :: rows[i].source in sources
  }

  lemma {:induction false} ParsedFrom(totals: TotalsTable, rows: seq<Obs>, source: string, lines: seq<Line>)
    ensures AllFrom(ParseLines(totals, rows, source, lines), {source})
  {
    if lines != [] {
      ParsedFrom(totals, rows, source, lines[..|lines| - 1]);
    }
  }

  // Rows of other sources make no difference to what is on record for this one.
  ghost predicate SameRecord(a: seq<Obs>, b: seq<Obs>, source: string) {
    forall key :: Has(a, source, key) <==> Has(b, source, key)
  }

  lemma {:induction false} InsertOthers(rows: seq<Obs>, pending: seq<Obs>, source: string, sources: set<string>)
    requires AllFrom(pending, sources) && source !in sources
    ensures SameRecord(rows, InsertAll(rows, pending), source)
  {
    if pending != [] {
      InsertOthers(rows, pending[..|pending| - 1], source, sources);
      var mid, last := InsertAll(rows, pending[..|pending| - 1]), pending[|pending| - 1];
      forall key ensures Has(mid, source, key) <==> Has(mid + [last], source, key) {
        HasSnoc(mid, last, source, key);
      }
    }
  }

  lemma {:induction false} ParseSameRecord(totals: TotalsTable, a: seq<Obs>, b: seq<Obs>, source: string,
                                         lines: seq<Line>)
    requires SameRecord(a, b, source)
    ensures ParseLines(totals, a, source, lines) == ParseLines(totals, b, source, lines)
  {
    if lines != [] {
      ParseSameRecord(totals, a, b, source, lines[..|lines| - 1]);
    }
  }

  function Sources(files: seq<Batch>): set<string> {
    set b | b in files :: b.source
  }

  lemma {:induction false} FilesParsedFrom(l: Ledger, files: seq<Batch>)
    ensures AllFrom(ParseFiles(l, files).1, Sources(files))
  {
    if files != [] {
      var front, b := files[..|files| - 1], files[|files| - 1];
      FilesParsedFrom(l, front);
      ParsedFrom(ParseFiles(l, front).0, l.external, b.source, b.lines);
      assert b in files && Sources(front) <= Sources(files);
    }
  }

  /** Parsing all files first and recording afterwards is the same as one file after the other. */
  lemma {:induction false} FilesOneByOne(l: Ledger, files: seq<Batch>)
    requires DistinctSources(files)
    ensures CollectFiles(l, files) == CollectEach(l, files)
  {
    if files != [] {
      var front, b := files[..|files| - 1], files[|files| - 1];
      FilesOneByOne(l, front);
      var (totals, pending) := ParseFiles(l, front);
      FilesParsedFrom(l, front);
      InsertOthers(l.external, pending, b.source, Sources(front));
      ParseSameRecord(totals, l.external, InsertAll(l.external, pending), b.source, b.lines);
      InsertAllConcat(l.external, pending, ParseLines(totals, l.external, b.source, b.lines));
    }
  }

  lemma {:induction false} ExecConcat(batches: seq<Batch>, files: seq<Batch>)
    ensures Exec(batches + files) == CollectEach(Exec(batches), files)
  {
    if files == [] {
      assert batches + files == batches;
    } else {
      assert (batches + files)[..|batches + files| - 1] == batches + files[..|files| - 1];
      ExecConcat(batches, files[..|files| - 1]);
    }
  }

  /** So a collection extends the run of the ledger by its files. */
  lemma CollectionExtendsRun(batches: seq<Batch>, files: seq<Batch>)
    requires DistinctSources(files)
    ensures CollectFiles(Exec(batches), files) == Exec(batches + files)
  {
    FilesOneByOne(Exec(batches), files);
    ExecConcat(batches, files);
  }

  /* ---------- cursors ---------- */

  type Cursors = map<string, Files.Cursor>

  // What a collection sees of one file, and after how many lines the deadline passes.
  datatype Scan = Scan(source: string, st: Files.Stat, raw: string, cut: nat)

  function CursorOf(cursors: Cursors, source: string): Option<Files.Cursor> {
    if source in cursors then Some(cursors[source]) else None
  }

  function CursorsAfter(cursors: Cursors, f: Scan): Cursors {
    if Files.Unchanged(CursorOf(cursors, f.source), f.st) then cursors
    else cursors[f.source := Files.NextCursor(f.st, f.raw)]
  }

  function AllCursors(cursors: Cursors, files: seq<Scan>): Cursors {
    if files == [] then cursors else CursorsAfter(AllCursors(cursors, Front(files)), Last(files))
  }

  function Decoded(decode: string -> Line, pieces: seq<string>): (r: seq<Line>)
    ensures |r| == |pieces|
  {
    if pieces == [] then [] else Decoded(decode, pieces[..|pieces| - 1]) + [decode(pieces[|pieces| - 1])]
  }

  /** What a collection hands to the ledger: the pieces until the deadline, with the empty last one. */
  function HandedOver(cursor: Option<Files.Cursor>, st: Files.Stat, raw: string, cut: nat): seq<string> {
    if Files.Unchanged(cursor, st) then []
    else
      var pieces := Files.Pieces(cursor, st, raw);
      pieces[..Min(cut, |pieces|)]
  }

  lemma DecodedNext(decode: string -> Line, pieces: seq<string>, n: nat)
    requires n < |pieces|
    ensures var before, now := Decoded(decode, pieces[..n]), Decoded(decode, pieces[..n + 1]);
            now == before + [decode(pieces[n])] && now[..|now| - 1] == before
  {
    assert pieces[..n + 1][..n] == pieces[..n];
  }

  /** The lines of the file that are new to its cursor. */
  function BatchOf(decode: string -> Line, cursors: Cursors, f: Scan): Batch {
    Batch(f.source, Decoded(decode, HandedOver(CursorOf(cursors, f.source), f.st, f.raw, f.cut)))
  }

  /** What the files hand over one after the other, each against the cursors as they are by then. */
  function BatchesOf(decode: string -> Line, cursors: Cursors, files: seq<Scan>): seq<Batch> {
    if files == [] then []
    else BatchesOf(decode, cursors, Front(files)) + [BatchOf(decode, AllCursors(cursors, Front(files)), Last(files))]
  }

  /* ---------- runs of collections ---------- */

  datatype Store = Store(cursors: Cursors, ledger: Ledger)

  function CollectScans(decode: string -> Line, s: Store, files: seq<Scan>): Store {
    Store(AllCursors(s.cursors, files), CollectFiles(s.ledger, BatchesOf(decode, s.cursors, files)))
  }

  function RunStore(decode: string -> Line, collections: seq<seq<Scan>>): Store {
    if collections == [] then Store(map[], Ledger([], map[]))
    else CollectScans(decode, RunStore(decode, Front(collections)), Last(collections))
  }

  function Flatten(collections: seq<seq<Scan>>): seq<Scan> {
    if collections == [] then [] else Flatten(Front(collections)) + Last(collections)
  }

  // A directory walk lists each file once.
  ghost predicate DistinctFiles(files: seq<Scan>) {
    forall i, j | 0 <= i < j < |files| :: files[i].source != files[j].source
  }

  ghost predicate SameSources(batches: seq<Batch>, files: seq<Scan>) {
    |batches| == |files| && forall i | 0 <= i < |files| :: batches[i].source == files[i].source
  }

  lemma SourcesSnoc(batches: seq<Batch>, files: seq<Scan>, b: Batch, f: Scan)
    requires SameSources(batches, files) && b.source == f.source
    ensures SameSources(batches + [b], files + [f])
  {
  }

  lemma {:induction false} BatchSources(decode: string -> Line, cursors: Cursors, files: seq<Scan>)
    ensures SameSources(BatchesOf(decode, cursors, files), files)
  {
    if files != [] {
      BatchSources(decode, cursors, Front(files));
      var front := BatchesOf(decode, cursors, Front(files));
      var x := BatchOf(decode, AllCursors(cursors, Front(files)), Last(files));
      SourcesSnoc(front, Front(files), x, Last(files));
      assert BatchesOf(decode, cursors, files) == front + [x];
      assert Front(files) + [Last(files)] == files;
    }
  }

  lemma DistinctBatches(decode: string -> Line, cursors: Cursors, files: seq<Scan>)
    requires DistinctFiles(files)
    ensures DistinctSources(BatchesOf(decode, cursors, files))
  {
    BatchSources(decode, cursors, files);
  }

  lemma {:induction false} CursorsConcat(cursors: Cursors, a: seq<Scan>, b: seq<Scan>)
    ensures AllCursors(cursors, a + b) == AllCursors(AllCursors(cursors, a), b)
  {
    if b == [] {
      assert a + b == a;
    } else {
      assert Front(a + b) == a + Front(b);
      CursorsConcat(cursors, a, Front(b));
    }
  }

  lemma BatchesSnoc(decode: string -> Line, cursors: Cursors, files: seq<Scan>)
    requires files != []
    ensures BatchesOf(decode, cursors, files)
            == BatchesOf(decode, cursors, Front(files))
               + [BatchOf(decode, AllCursors(cursors, Front(files)), Last(files))]
  {
  }

  lemma BatchesMore(decode: string -> Line, cursors: Cursors, files: seq<Scan>, f: Scan)
    ensures BatchesOf(decode, cursors, files + [f])
            == BatchesOf(decode, cursors, files) + [BatchOf(decode, AllCursors(cursors, files), f)]
  {
    assert Front(files + [f]) == files && Last(files + [f]) == f;
  }

  lemma AppendLast(ab: seq<Batch>, abFront: seq<Batch>, a: seq<Batch>, bFront: seq<Batch>, b: seq<Batch>, z: Batch)
    requires ab == abFront + [z] && abFront == a + bFront && b == bFront + [z]
    ensures ab == a + b
  {
  }

  lemma {:induction false} BatchesConcat(decode: string -> Line, cursors: Cursors, a: seq<Scan>, b: seq<Scan>)
    ensures BatchesOf(decode, cursors, a + b)
            == BatchesOf(decode, cursors, a) + BatchesOf(decode, AllCursors(cursors, a), b)
  {
    if b == [] {
      assert a + b == a;
    } else {
      var front, f := Front(b), Last(b);
      assert a + b == (a + front) + [f] && b == front + [f];
      CursorsConcat(cursors, a, front);
      BatchesConcat(decode, cursors, a, front);
      BatchesMore(decode, cursors, a + front, f);
      BatchesMore(decode, AllCursors(cursors, a), front, f);
      AppendLast(BatchesOf(decode, cursors, a + b), BatchesOf(decode, cursors, a + front),
                 BatchesOf(decode, cursors, a), BatchesOf(decode, AllCursors(cursors, a), front),
                 BatchesOf(decode, AllCursors(cursors, a), b), BatchOf(decode, AllCursors(cursors, a + front), f));
    }
  }

  /** A run of collections is one pass over all their files, file by file. */
  lemma {:induction false} RunIsFlat(decode: string -> Line, collections: seq<seq<Scan>>)
    requires forall k | 0 <= k < |collections| :: DistinctFiles(collections[k])
    ensures var files := Flatten(collections);
            RunStore(decode, collections) == Store(AllCursors(map[], files), Exec(BatchesOf(decode, map[], files)))
  {
    if collections != [] {
      RunIsFlat(decode, Front(collections));
      var before, files := Flatten(Front(collections)), Last(collections);
      CursorsConcat(map[], before, files);
      BatchesConcat(decode, map[], before, files);
      DistinctBatches(decode, AllCursors(map[], before), files);
      CollectionExtendsRun(BatchesOf(decode, map[], before), BatchesOf(decode, AllCursors(map[], before), files));
    }
  }
}
