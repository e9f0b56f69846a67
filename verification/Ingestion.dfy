/** Codex ingestion from end to end: growing session files, collections over several files, the ledger
    (runtime/src/usage/codex.ts, runtime/src/usage.ts). */
module Ingestion {
  import opened Common
  import opened Strings
  import opened UsageState
  import opened CodexLedger
  import opened Collections
  import Files = SessionFiles

  /* ---------- the lines of a growing file ---------- */

  function FedBy(file: seq<Files.Version>, visits: seq<Files.Visit>, decode: string -> Line): seq<Line>
    requires forall k | 0 <= k < |visits| :: visits[k].stat < |file| && visits[k].read < |file|
  {
    if visits == [] then []
    else
      var front, v := visits[..|visits| - 1], visits[|visits| - 1];
      var cursor := Files.CollectAll(file, front).cursor;
      FedBy(file, front, decode)
      + Decoded(decode, HandedOver(cursor, Files.StatOf(file[v.stat]), file[v.read].raw, v.cut))
  }

  /** The lines of one source in a run, whatever other sources come between. */
  function Fed(batches: seq<Batch>, source: string): seq<Line> {
    if batches == [] then []
    else
      var b := batches[|batches| - 1];
      Fed(batches[..|batches| - 1], source) + if b.source == source then b.lines else []
  }

  lemma {:induction false} TotalsConcat(a: seq<Line>, b: seq<Line>, model: string)
    ensures TotalsIn(a + b, model) == TotalsIn(a, model) + TotalsIn(b, model)
  {
    if b == [] {
      assert a + b == a;
    } else {
      assert (a + b)[..|a + b| - 1] == a + b[..|b| - 1];
      TotalsConcat(a, b[..|b| - 1], model);
    }
  }

  lemma {:induction false} SeenIsFed(batches: seq<Batch>, source: string, model: string)
    ensures Seen(batches, source, model) == TotalsIn(Fed(batches, source), model)
  {
    if batches != [] {
      var front, b := batches[..|batches| - 1], batches[|batches| - 1];
      SeenIsFed(front, source, model);
      TotalsConcat(Fed(front, source), if b.source == source then b.lines else [], model);
    }
  }

  lemma {:induction false} DecodedConcat(decode: string -> Line, a: seq<string>, b: seq<string>)
    ensures Decoded(decode, a + b) == Decoded(decode, a) + Decoded(decode, b)
  {
    if b == [] {
      assert a + b == a;
    } else {
      assert (a + b)[..|a + b| - 1] == a + b[..|b| - 1];
      DecodedConcat(decode, a, b[..|b| - 1]);
    }
  }

  lemma {:induction false} LastPieceEmpty(text: string)
    requires text == "" || text[|text| - 1] == '\n'
    ensures Split(text, '\n')[|Split(text, '\n')| - 1] == ""
  {
    if text != "" {
      LastPieceEmpty(text[1..]);
      if text[0] != '\n' {
        Files.NonTrivialSplit(text[1..]);
      }
    }
  }

  /** The empty last piece makes no difference. */
  lemma HandedOverTotals(cursor: Option<Files.Cursor>, st: Files.Stat, raw: string, cut: nat, decode: string -> Line,
                         model: string)
    requires decode("") == Blank && !Files.Unchanged(cursor, st)
    ensures var lines := Files.Init(Files.Pieces(cursor, st, raw));
            TotalsIn(Decoded(decode, HandedOver(cursor, st, raw, cut)), model)
            == TotalsIn(Decoded(decode, lines[..Min(cut, |lines|)]), model)
  {
    var pieces := Files.Pieces(cursor, st, raw);
    var lines := Files.Init(pieces);
    Files.CompleteEndIsBoundary(raw);
    LastPieceEmpty(raw[Files.StartOffset(cursor, st, raw)..Files.CompleteEnd(raw)]);
    if cut < |pieces| {
      assert pieces[..cut] == lines[..cut];
    } else {
      assert pieces[..|pieces|] == pieces && lines[..|lines|] == lines;
      BlankAddsNothing(decode, pieces, model);
    }
  }

  lemma BlankAddsNothing(decode: string -> Line, pieces: seq<string>, model: string)
    requires pieces != [] && Last(pieces) == "" && decode("") == Blank
    ensures TotalsIn(Decoded(decode, pieces), model) == TotalsIn(Decoded(decode, Front(pieces)), model)
  {
    var lines := Decoded(decode, Front(pieces));
    assert (lines + [Blank])[..|lines|] == lines;
  }

  lemma {:induction false} FedIsHandled(file: seq<Files.Version>, visits: seq<Files.Visit>, decode: string -> Line,
                                        model: string)
    requires forall k | 0 <= k < |visits| :: visits[k].stat < |file| && visits[k].read < |file|
    requires decode("") == Blank
    ensures TotalsIn(FedBy(file, visits, decode), model)
            == TotalsIn(Decoded(decode, Files.CollectAll(file, visits).handled), model)
  {
    if visits != [] {
      var front, v := visits[..|visits| - 1], visits[|visits| - 1];
      FedIsHandled(file, front, decode, model);
      var r, st, raw := Files.CollectAll(file, front), Files.StatOf(file[v.stat]), file[v.read].raw;
      var handed := HandedOver(r.cursor, st, raw, v.cut);
      TotalsConcat(FedBy(file, front, decode), Decoded(decode, handed), model);
      if !Files.Unchanged(r.cursor, st) {
        var lines := Files.Init(Files.Pieces(r.cursor, st, raw));
        var more := lines[..Min(v.cut, |lines|)];
        HandedOverTotals(r.cursor, st, raw, v.cut, decode, model);
        DecodedConcat(decode, r.handled, more);
        TotalsConcat(Decoded(decode, r.handled), Decoded(decode, more), model);
      }
    }
  }

  /* ---------- what must come out ---------- */

  /** The totals of a model in the complete lines of the file. */
  function FileTotals(v: Files.Version, decode: string -> Line, model: string): seq<Totals> {
    TotalsIn(Decoded(decode, Files.Lines(Files.Complete(v))), model)
  }

  // The counter of one model never goes back.
  ghost predicate Growing(seen: seq<Totals>) {
    && (seen != [] ==> seen[0].tokensIn >= 0 && seen[0].tokensOut >= 0)
    && forall i, j | 0 <= i <= j < |seen| :: Leq(seen[i], seen[j])
  }

  // The recorded deltas add up to the last of the totals.
  ghost predicate AddUpTo(deltas: seq<Obs>, seen: seq<Totals>) {
    && SumIn(deltas) == (if seen == [] then 0 else seen[|seen| - 1].tokensIn)
    && SumOut(deltas) == (if seen == [] then 0 else seen[|seen| - 1].tokensOut)
  }

  lemma GrowingAddsUp(batches: seq<Batch>, source: string, model: string)
    requires Growing(Seen(batches, source, model))
    ensures AddUpTo(Deltas(Exec(batches).external, source, model), Seen(batches, source, model))
  {
    if Seen(batches, source, model) == [] {
      LedgerTelescopes(batches, source, model);
    } else {
      DeltasSumToLastTotal(batches, source, model);
    }
  }

  /* ---------- the scans of one file ---------- */

  function ScansOf(files: seq<Scan>, source: string): seq<Scan> {
    if files == [] then []
    else ScansOf(Front(files), source) + if Last(files).source == source then [Last(files)] else []
  }

  // The scan sees what the visit sees.
  predicate Sees(f: Scan, file: seq<Files.Version>, v: Files.Visit)
    requires v.stat < |file| && v.read < |file|
  {
    f.st == Files.StatOf(file[v.stat]) && f.raw == file[v.read].raw && f.cut == v.cut
  }

  // The visits are those that the scans pay to the file of the source.
  ghost predicate Pays(files: seq<Scan>, source: string, file: seq<Files.Version>, visits: seq<Files.Visit>)
    requires forall k | 0 <= k < |visits| :: visits[k].stat < |file| && visits[k].read < |file|
  {
    var scans := ScansOf(files, source);
    |scans| == |visits| && forall k | 0 <= k < |visits| :: Sees(scans[k], file, visits[k])
  }

  /** Whatever other files are scanned in between, the stored cursor is the reader's, and the ledger is
      fed just what the reader goes through. */
  lemma {:induction false} ScansFollowVisits(decode: string -> Line, files: seq<Scan>, source: string,
                                             file: seq<Files.Version>, visits: seq<Files.Visit>)
    requires forall k | 0 <= k < |visits| :: visits[k].stat < |file| && visits[k].read < |file|
    requires Pays(files, source, file, visits)
    ensures CursorOf(AllCursors(map[], files), source) == Files.CollectAll(file, visits).cursor
    ensures Fed(BatchesOf(decode, map[], files), source) == FedBy(file, visits, decode)
  {
    if files != [] {
      var f := Last(files);
      if f.source == source {
        PaysFront(files, source, file, visits);
        ScansFollowVisits(decode, Front(files), source, file, Front(visits));
        VisitStep(decode, files, source, file, visits);
      } else {
        ScansFollowVisits(decode, Front(files), source, file, visits);
        ElsewhereStep(decode, files, source);
      }
    }
  }

  lemma PaysFront(files: seq<Scan>, source: string, file: seq<Files.Version>, visits: seq<Files.Visit>)
    requires forall k | 0 <= k < |visits| :: visits[k].stat < |file| && visits[k].read < |file|
    requires files != [] && Last(files).source == source && Pays(files, source, file, visits)
    ensures visits != [] && Pays(Front(files), source, file, Front(visits)) && Sees(Last(files), file, Last(visits))
  {
    var scans, k := ScansOf(files, source), |visits| - 1;
    assert scans == ScansOf(Front(files), source) + [Last(files)];
    assert Sees(scans[k], file, visits[k]);
  }

  // A scan of the file itself.
  lemma VisitStep(decode: string -> Line, files: seq<Scan>, source: string, file: seq<Files.Version>,
                  visits: seq<Files.Visit>)
    requires forall k | 0 <= k < |visits| :: visits[k].stat < |file| && visits[k].read < |file|
    requires files != [] && visits != [] && Last(files).source == source && Sees(Last(files), file, Last(visits))
    requires CursorOf(AllCursors(map[], Front(files)), source) == Files.CollectAll(file, Front(visits)).cursor
    requires Fed(BatchesOf(decode, map[], Front(files)), source) == FedBy(file, Front(visits), decode)
    ensures CursorOf(AllCursors(map[], files), source) == Files.CollectAll(file, visits).cursor
    ensures Fed(BatchesOf(decode, map[], files), source) == FedBy(file, visits, decode)
  {
    BatchesSnoc(decode, map[], files);
    var b := BatchOf(decode, AllCursors(map[], Front(files)), Last(files));
    FedSnoc(BatchesOf(decode, map[], Front(files)), b, source);
  }

  // A scan of another file.
  lemma ElsewhereStep(decode: string -> Line, files: seq<Scan>, source: string)
    requires files != [] && Last(files).source != source
    ensures CursorOf(AllCursors(map[], files), source) == CursorOf(AllCursors(map[], Front(files)), source)
    ensures Fed(BatchesOf(decode, map[], files), source) == Fed(BatchesOf(decode, map[], Front(files)), source)
  {
    BatchesSnoc(decode, map[], files);
    var b := BatchOf(decode, AllCursors(map[], Front(files)), Last(files));
    FedSnoc(BatchesOf(decode, map[], Front(files)), b, source);
  }

  lemma FedSnoc(batches: seq<Batch>, b: Batch, source: string)
    ensures Fed(batches + [b], source) == Fed(batches, source) + if b.source == source then b.lines else []
  {
    assert (batches + [b])[..|batches|] == batches;
  }

  /* ---------- the theorems ---------- */

  /** From an empty store: however appends to a session file interleave with collections, and whatever
      other files those collections scan, the usage recorded for a model of the file is the last total
      the file showed at some moment of the latest visit to it. */
  lemma IngestionTelescopes(decode: string -> Line, collections: seq<seq<Scan>>, source: string,
                            file: seq<Files.Version>, visits: seq<Files.Visit>, model: string)
    requires forall k | 0 <= k < |collections| :: DistinctFiles(collections[k])
    requires Files.AppendOnly(file) && Files.Visits(file, visits) && visits != []
    requires Pays(Flatten(collections), source, file, visits) && Files.AllInTime(file, visits)
    requires decode("") == Blank
    requires forall n | 0 <= n < |file| :: Growing(FileTotals(file[n], decode, model))
    ensures var last, rows := visits[|visits| - 1], RunStore(decode, collections).ledger.external;
            exists n :: last.stat <= n <= last.read
                        && AddUpTo(Deltas(rows, source, model), FileTotals(file[n], decode, model))
  {
    var files := Flatten(collections);
    RunIsFlat(decode, collections);
    ScansFollowVisits(decode, files, source, file, visits);
    HandledMoment(file, visits);
    var n: nat :| AllHandled(file, visits, n);
    var batches := BatchesOf(decode, map[], files);
    SeenOfFile(file, visits, decode, batches, source, model, n);
    GrowingAddsUp(batches, source, model);
  }

  // The complete lines the file had at moment n, during the last visit, have all been handled.
  ghost predicate AllHandled(file: seq<Files.Version>, visits: seq<Files.Visit>, n: nat)
    requires Files.Visits(file, visits) && visits != []
  {
    && visits[|visits| - 1].stat <= n <= visits[|visits| - 1].read && n < |file|
    && Files.CollectAll(file, visits).handled == Files.Lines(Files.Complete(file[n]))
  }

  lemma HandledMoment(file: seq<Files.Version>, visits: seq<Files.Visit>)
    requires Files.AppendOnly(file) && Files.Visits(file, visits) && visits != []
    requires Files.AllInTime(file, visits)
    ensures exists n: nat :: AllHandled(file, visits, n)
  {
    Files.IncrementalEqualsOneShot(file, visits);
    var last, r := visits[|visits| - 1], Files.CollectAll(file, visits);
    var n: nat :| last.stat <= n <= last.read && n < |file| && r.handled == Files.Lines(Files.Complete(file[n]));
    assert AllHandled(file, visits, n);
  }

  lemma SeenOfFile(file: seq<Files.Version>, visits: seq<Files.Visit>, decode: string -> Line,
                   batches: seq<Batch>, source: string, model: string, n: nat)
    requires forall k | 0 <= k < |visits| :: visits[k].stat < |file| && visits[k].read < |file|
    requires decode("") == Blank && Fed(batches, source) == FedBy(file, visits, decode)
    requires n < |file| && Files.CollectAll(file, visits).handled == Files.Lines(Files.Complete(file[n]))
    ensures Seen(batches, source, model) == FileTotals(file[n], decode, model)
  {
    FedIsHandled(file, visits, decode, model);
    SeenIsFed(batches, source, model);
  }

  /* ---------- scanning again ---------- */

  // A record without total or own id gets a key from its line number, which a new scan changes.
  predicate HasStableKey(line: Line) {
    line.Item? && line.totals.None? && line.record.Some? && !line.record.value.cumulative ==> line.record.value.id.Some?
  }

  /** A record with an id is on file or pending once its line was gone through. */
  lemma {:induction false} RecordIsPushed(totals: TotalsTable, rows: seq<Obs>, source: string, lines: seq<Line>,
                                          line: Line)
    requires line in lines && line.Item? && line.totals.None? && line.record.Some?
    requires !line.record.value.cumulative && line.record.value.id.Some?
    ensures var key := Id(line.record.value.id.value);
            Has(rows, source, key) || Has(ParseLines(totals, rows, source, lines), source, key)
  {
    var front, last, key := Front(lines), Last(lines), Id(line.record.value.id.value);
    var before := ParseLines(totals, rows, source, front);
    var obs := Observe(ParseTotals(totals, source, front), source, last, |lines|);
    if obs.Some? {
      HasSnoc(before, obs.value, source, key);
    }
    if line != last {
      assert lines == front + [last];
      RecordIsPushed(totals, rows, source, front, line);
    }
  }

  lemma {:induction false} FedRecordOnFile(batches: seq<Batch>, source: string, line: Line)
    requires line in Fed(batches, source) && line.Item? && line.totals.None? && line.record.Some?
    requires !line.record.value.cumulative && line.record.value.id.Some?
    ensures Has(Exec(batches).external, source, Id(line.record.value.id.value))
  {
    var front, b := batches[..|batches| - 1], batches[|batches| - 1];
    var l, key := Exec(front), Id(line.record.value.id.value);
    var pending := ParseLines(l.totals, l.external, b.source, b.lines);
    if line in Fed(front, source) {
      FedRecordOnFile(front, source, line);
    } else {
      RecordIsPushed(l.totals, l.external, source, b.lines, line);
    }
    InsertKeeps(l.external, pending, source, key);
  }

  lemma {:induction false} TotalSeen(lines: seq<Line>, line: Line)
    requires line in lines && line.Item? && line.totals.Some?
    ensures line.totals.value in TotalsIn(lines, line.totals.value.model)
  {
    if line != Last(lines) {
      assert lines == Front(lines) + [Last(lines)];
      TotalSeen(Front(lines), line);
    }
  }

  // Lines of a file that were gone through before.
  ghost predicate Reread(batches: seq<Batch>, b: Batch) {
    && (forall m :: Chain(Seen(batches, b.source, m)))
    && forall i | 0 <= i < |b.lines| && b.lines[i].Item? ::
         b.lines[i] in Fed(batches, b.source) && HasStableKey(b.lines[i])
  }

  lemma RereadIsOld(batches: seq<Batch>, b: Batch)
    requires Reread(batches, b)
    ensures OldNews(batches, b.source, b.lines)
  {
    forall i | 0 <= i < |b.lines| ensures IsOld(batches, b.source, b.lines[i]) {
      var line := b.lines[i];
      assert line.Item? ==> line in Fed(batches, b.source) && HasStableKey(line);
      if line.Item? && line.totals.Some? {
        SeenIsFed(batches, b.source, line.totals.value.model);
        TotalSeen(Fed(batches, b.source), line);
      } else if line.Item? && line.record.Some? && !line.record.value.cumulative {
        FedRecordOnFile(batches, b.source, line);
      }
    }
  }

  /** Scanning lines of files again, whole files from offset 0 or any part, any number of times, changes
      nothing: no row is added and no stored total moves. */
  lemma {:induction false} RescansAddNothing(batches: seq<Batch>, rescans: seq<Batch>)
    requires forall k | 0 <= k < |rescans| :: Reread(batches, rescans[k])
    ensures Exec(batches + rescans) == Exec(batches)
  {
    if rescans == [] {
      assert batches + rescans == batches;
    } else {
      var front, b := Front(rescans), Last(rescans);
      RescansAddNothing(batches, front);
      assert Front(batches + rescans) == batches + front;
      assert Reread(batches, b);
      RereadIsOld(batches, b);
      RescanAddsNothing(batches, b.source, b.lines);
      assert Front(batches + [b]) == batches;
    }
  }

  /* ---------- scanning a file from the start ---------- */

  lemma {:induction false} DecodedMember(decode: string -> Line, pieces: seq<string>, p: string)
    requires p in pieces
    ensures decode(p) in Decoded(decode, pieces)
  {
    if p != Last(pieces) {
      assert pieces == Front(pieces) + [Last(pieces)];
      DecodedMember(decode, Front(pieces), p);
    }
  }

  lemma {:induction false} DecodedOrigin(decode: string -> Line, pieces: seq<string>, i: nat)
    requires i < |pieces|
    ensures Decoded(decode, pieces)[i] == decode(pieces[i])
  {
    if i < |pieces| - 1 {
      DecodedOrigin(decode, Front(pieces), i);
    }
  }

  lemma {:induction false} HandledIsFed(file: seq<Files.Version>, visits: seq<Files.Visit>, decode: string -> Line,
                                        p: string)
    requires forall k | 0 <= k < |visits| :: visits[k].stat < |file| && visits[k].read < |file|
    requires p in Files.CollectAll(file, visits).handled
    ensures decode(p) in FedBy(file, visits, decode)
  {
    var front, v := visits[..|visits| - 1], visits[|visits| - 1];
    var r, st, raw := Files.CollectAll(file, front), Files.StatOf(file[v.stat]), file[v.read].raw;
    if p in r.handled {
      HandledIsFed(file, front, decode, p);
    } else {
      var pieces := Files.Pieces(r.cursor, st, raw);
      var k := Min(v.cut, |pieces| - 1);
      assert p in Files.Init(pieces)[..k];
      assert Files.Init(pieces)[..k] == pieces[..k] <= HandedOver(r.cursor, st, raw, v.cut);
      DecodedMember(decode, HandedOver(r.cursor, st, raw, v.cut), p);
    }
  }

  /** The pieces of an earlier text are lines of a later one, but for the empty last piece. */
  lemma PiecesOfPrefix(text: string, more: string, p: string)
    requires text == "" || text[|text| - 1] == '\n'
    requires more == "" || more[|more| - 1] == '\n'
    requires p in Split(text, '\n') && p != ""
    ensures p in Files.Lines(text + more)
  {
    LastPieceEmpty(text);
    var pieces := Split(text, '\n');
    var i :| 0 <= i < |pieces| && pieces[i] == p;
    assert i < |pieces| - 1 && Files.Lines(text)[i] == p;
    Files.LinesConcat(text, more);
    assert Files.Lines(text + more)[i] == p;
  }

  // A scan that starts at offset 0, of a text whose complete lines the file already showed at moment n.
  predicate FromStart(f: Scan, cursors: Cursors, v: Files.Version) {
    && Files.StartOffset(CursorOf(cursors, f.source), f.st, f.raw) == 0
    && f.raw[..Files.CompleteEnd(f.raw)] <= Files.Complete(v)
  }

  lemma StartPieces(f: Scan, cursors: Cursors, v: Files.Version, p: string)
    requires FromStart(f, cursors, v) && p != ""
    requires p in HandedOver(CursorOf(cursors, f.source), f.st, f.raw, f.cut)
    ensures p in Files.Lines(Files.Complete(v))
  {
    var text, all := f.raw[..Files.CompleteEnd(f.raw)], Files.Complete(v);
    assert f.raw[0..Files.CompleteEnd(f.raw)] == text;
    Files.CompleteEndIsBoundary(f.raw);
    Files.CompleteEndIsBoundary(v.raw);
    assert all == text + all[|text|..];
    PiecesOfPrefix(text, all[|text|..], p);
  }

  /** After any run that handled the file up to moment n, scanning it again from offset 0, because its
      cursor is gone or no longer fits, in full or cut short, leaves the ledger exactly as it is. */
  lemma ScanFromStartAddsNothing(decode: string -> Line, collections: seq<seq<Scan>>, source: string,
                                 file: seq<Files.Version>, visits: seq<Files.Visit>, n: nat,
                                 cursors: Cursors, f: Scan)
    requires forall k | 0 <= k < |collections| :: DistinctFiles(collections[k])
    requires Files.AppendOnly(file) && Files.Visits(file, visits) && visits != []
    requires Pays(Flatten(collections), source, file, visits) && AllHandled(file, visits, n)
    requires decode("") == Blank
    requires forall m :: Growing(FileTotals(file[n], decode, m))
    requires forall p | p in Files.Lines(Files.Complete(file[n])) :: HasStableKey(decode(p))
    requires f.source == source && FromStart(f, cursors, file[n])
    ensures var ledger := RunStore(decode, collections).ledger;
            CollectScans(decode, Store(cursors, ledger), [f]).ledger == ledger
  {
    var files := Flatten(collections);
    var batches := BatchesOf(decode, map[], files);
    RunIsFlat(decode, collections);
    ScansFollowVisits(decode, files, source, file, visits);
    StartIsReread(decode, batches, source, file, visits, n, cursors, f);
    RereadOnce(decode, batches, cursors, f);
  }

  lemma RereadOnce(decode: string -> Line, batches: seq<Batch>, cursors: Cursors, f: Scan)
    requires Reread(batches, BatchOf(decode, cursors, f))
    ensures CollectScans(decode, Store(cursors, Exec(batches)), [f]).ledger == Exec(batches)
  {
    var b := BatchOf(decode, cursors, f);
    RescansAddNothing(batches, [b]);
    OneFile(decode, cursors, f);
    CollectionExtendsRun(batches, [b]);
  }

  lemma OneFile(decode: string -> Line, cursors: Cursors, f: Scan)
    ensures BatchesOf(decode, cursors, [f]) == [BatchOf(decode, cursors, f)]
  {
    assert Front([f]) == [] && Last([f]) == f;
  }

  lemma StartIsReread(decode: string -> Line, batches: seq<Batch>, source: string, file: seq<Files.Version>,
                      visits: seq<Files.Visit>, n: nat, cursors: Cursors, f: Scan)
    requires Files.Visits(file, visits) && visits != [] && AllHandled(file, visits, n)
    requires Fed(batches, source) == FedBy(file, visits, decode) && decode("") == Blank
    requires forall m :: Growing(FileTotals(file[n], decode, m))
    requires forall p | p in Files.Lines(Files.Complete(file[n])) :: HasStableKey(decode(p))
    requires f.source == source && FromStart(f, cursors, file[n])
    ensures Reread(batches, BatchOf(decode, cursors, f))
  {
    forall m ensures Chain(Seen(batches, source, m)) {
      SeenOfFile(file, visits, decode, batches, source, m, n);
      GrowingIsChain(Seen(batches, source, m));
    }
    var b, handed := BatchOf(decode, cursors, f), HandedOver(CursorOf(cursors, f.source), f.st, f.raw, f.cut);
    forall i | 0 <= i < |b.lines| && b.lines[i].Item?
      ensures b.lines[i] in Fed(batches, source) && HasStableKey(b.lines[i])
    {
      DecodedOrigin(decode, handed, i);
      StartPieces(f, cursors, file[n], handed[i]);
      HandledIsFed(file, visits, decode, handed[i]);
    }
  }

  lemma GrowingIsChain(seen: seq<Totals>)
    requires Growing(seen)
    ensures Chain(seen)
  {
    assert forall i | 0 <= i < |seen| :: Leq(seen[0], seen[i]);
  }
}
