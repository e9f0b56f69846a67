/** Usage records that name their own id: each is on file once, with its own numbers. */
module RecordLedger {
  import opened Common
  import opened UsageState
  import opened CodexLedger
  import opened Ingestion

  // The line carries a record with an id, and no cumulative total.
  predicate HasRecord(line: Line) {
    line.Item? && line.totals.None? && line.record.Some? && !line.record.value.cumulative && line.record.value.id.Some?
  }

  function RecordsIn(lines: seq<Line>): (r: seq<Record>)
    ensures forall i | 0 <= i < |r| :: r[i].id.Some?
  {
    if lines == [] then []
    else if HasRecord(Last(lines)) then RecordsIn(Front(lines)) + [Last(lines).record.value]
    else RecordsIn(Front(lines))
  }

  ghost predicate Names(records: seq<Record>, id: string) {
    exists i :: 0 <= i < |records| && records[i].id == Some(id)
  }

  /** The first record of each id, in order. */
  ghost function FirstOf(records: seq<Record>): seq<Record> {
    if records == [] then []
    else
      var front, r := Front(records), Last(records);
      if r.id.Some? && Names(front, r.id.value) then FirstOf(front) else FirstOf(front) + [r]
  }

  /** The rows of the source that are keyed by a record's id. */
  function IdRows(rows: seq<Obs>, source: string): seq<Obs> {
    if rows == [] then []
    else if Last(rows).source == source && Last(rows).key.Id? then IdRows(Front(rows), source) + [Last(rows)]
    else IdRows(Front(rows), source)
  }

  // The row says what the record says.
  predicate Mirrors(row: Obs, r: Record, source: string) {
    && row.source == source && r.id.Some? && row.key == Id(r.id.value)
    && row.tokensIn == r.tokensIn && row.tokensOut == r.tokensOut
    && row.model == match r.model case Some(model) => model case None => "unknown"
  }

  ghost predicate AllMirror(rows: seq<Obs>, records: seq<Record>, source: string) {
    |rows| == |records| && forall i | 0 <= i < |rows| :: Mirrors(rows[i], records[i], source)
  }

  /* ---------- ids ---------- */

  lemma NamesSnoc(records: seq<Record>, r: Record, id: string)
    ensures Names(records + [r], id) <==> Names(records, id) || r.id == Some(id)
  {
    var all := records + [r];
    if r.id == Some(id) {
      assert all[|records|].id == Some(id);
    }
    if Names(records, id) {
      var i :| 0 <= i < |records| && records[i].id == Some(id);
      assert all[i].id == Some(id);
    }
  }

  lemma {:induction false} FirstOfNames(records: seq<Record>, id: string)
    ensures Names(FirstOf(records), id) <==> Names(records, id)
  {
    if records != [] {
      var front, r := Front(records), Last(records);
      assert records == front + [r];
      FirstOfNames(front, id);
      NamesSnoc(front, r, id);
      NamesSnoc(FirstOf(front), r, id);
    }
  }

  /** The ids of the first records are distinct. */
  lemma {:induction false} FirstOfDistinct(records: seq<Record>)
    requires forall i | 0 <= i < |records| :: records[i].id.Some?
    ensures var first := FirstOf(records);
            && (forall i | 0 <= i < |first| :: first[i].id.Some?)
            && forall i, j | 0 <= i < j < |first| :: first[i].id != first[j].id
  {
    if records != [] {
      FirstOfDistinct(Front(records));
      FirstOfNames(Front(records), Last(records).id.value);
    }
  }

  lemma {:induction false} HasIffIdRow(rows: seq<Obs>, source: string, id: string)
    ensures Has(rows, source, Id(id)) <==> Carries(IdRows(rows, source), Id(id))
  {
    if rows != [] {
      var front, row := Front(rows), Last(rows);
      assert rows == front + [row];
      HasIffIdRow(front, source, id);
      HasSnoc(front, row, source, Id(id));
      CarriesSnoc(IdRows(front, source), row, Id(id));
    }
  }

  lemma MirrorsCarry(rows: seq<Obs>, records: seq<Record>, source: string, id: string)
    requires AllMirror(rows, records, source)
    ensures Carries(rows, Id(id)) <==> Names(records, id)
  {
    if Carries(rows, Id(id)) {
      var i :| 0 <= i < |rows| && rows[i].key == Id(id);
      assert Mirrors(rows[i], records[i], source);
    }
    if Names(records, id) {
      var i :| 0 <= i < |records| && records[i].id == Some(id);
      assert Mirrors(rows[i], records[i], source);
    }
  }

  /* ---------- one line ---------- */

  lemma IdRowsSnoc(rows: seq<Obs>, row: Obs, source: string)
    ensures IdRows(rows + [row], source)
            == IdRows(rows, source) + if row.source == source && row.key.Id? then [row] else []
  {
    assert Front(rows + [row]) == rows;
  }

  lemma MirrorSnoc(rows: seq<Obs>, records: seq<Record>, row: Obs, r: Record, source: string)
    requires AllMirror(rows, records, source) && Mirrors(row, r, source)
    ensures AllMirror(rows + [row], records + [r], source)
  {
  }

  // Any other line, or any line of another source.
  lemma OtherLineKeepsIds(l: Ledger, other: string, line: Line, lineNo: nat, source: string)
    requires other != source || !HasRecord(line)
    ensures IdRows(Extended(l, other, line, lineNo).external, source) == IdRows(l.external, source)
  {
    var obs := Observe(l.totals, other, line, lineNo);
    if obs.Some? {
      IdRowsSnoc(l.external, obs.value, source);
    }
  }

  // A record: on file under its id, or recorded now.
  lemma RecordLineMirrors(l: Ledger, source: string, line: Line, lineNo: nat, records: seq<Record>)
    requires HasRecord(line) && AllMirror(IdRows(l.external, source), FirstOf(records), source)
    ensures AllMirror(IdRows(Extended(l, source, line, lineNo).external, source),
                      FirstOf(records + [line.record.value]), source)
  {
    var r := line.record.value;
    var id := r.id.value;
    assert Front(records + [r]) == records;
    HasIffIdRow(l.external, source, id);
    MirrorsCarry(IdRows(l.external, source), FirstOf(records), source, id);
    FirstOfNames(records, id);
    if !Names(records, id) {
      var row := Observe(l.totals, source, line, lineNo).value;
      IdRowsSnoc(l.external, row, source);
      MirrorSnoc(IdRows(l.external, source), FirstOf(records), row, r, source);
    }
  }

  /* ---------- collections ---------- */

  lemma {:induction false} CollectMirrors(l: Ledger, other: string, lines: seq<Line>, source: string, fed: seq<Line>)
    requires AllMirror(IdRows(l.external, source), FirstOf(RecordsIn(fed)), source)
    ensures AllMirror(IdRows(Collect(l, Batch(other, lines)).external, source),
                      FirstOf(RecordsIn(fed + if other == source then lines else [])), source)
  {
    if lines == [] {
      assert fed + [] == fed && InsertAll(l.external, []) == l.external;
    } else {
      var front, line := Front(lines), Last(lines);
      assert front + [line] == lines;
      CollectMirrors(l, other, front, source, fed);
      CollectSnoc(l, other, front, line);
      var before := Collect(l, Batch(other, front));
      if other == source {
        assert Front(fed + lines) == fed + front && Last(fed + lines) == line;
      }
      if other == source && HasRecord(line) {
        RecordLineMirrors(before, source, line, |front| + 1, RecordsIn(fed + front));
      } else {
        OtherLineKeepsIds(before, other, line, |front| + 1, source);
      }
    }
  }

  /** However the lines of a source are split into collections, mixed with other sources or gone through
      again: for every record id there is exactly one row, with the numbers and the model of the first
      record of that id. */
  lemma {:induction false} EachRecordOnce(batches: seq<Batch>, source: string)
    ensures AllMirror(IdRows(Exec(batches).external, source), FirstOf(RecordsIn(Fed(batches, source))), source)
  {
    if batches != [] {
      var b := Last(batches);
      EachRecordOnce(Front(batches), source);
      CollectMirrors(Exec(Front(batches)), b.source, b.lines, source, Fed(Front(batches), source));
    }
  }

  /* ---------- sums ---------- */

  function RowsIn(rows: seq<Obs>, model: string): int {
    if rows == [] then 0
    else RowsIn(Front(rows), model) + if Last(rows).model == model then Last(rows).tokensIn else 0
  }

  function RowsOut(rows: seq<Obs>, model: string): int {
    if rows == [] then 0
    else RowsOut(Front(rows), model) + if Last(rows).model == model then Last(rows).tokensOut else 0
  }

  // A record without a model counts as "unknown".
  predicate OfModel(r: Record, model: string) {
    r.model == Some(model) || (r.model == None && model == "unknown")
  }

  function UsedIn(records: seq<Record>, model: string): int {
    if records == [] then 0
    else UsedIn(Front(records), model) + if OfModel(Last(records), model) then Last(records).tokensIn else 0
  }

  function UsedOut(records: seq<Record>, model: string): int {
    if records == [] then 0
    else UsedOut(Front(records), model) + if OfModel(Last(records), model) then Last(records).tokensOut else 0
  }

  lemma {:induction false} MirrorsAddUp(rows: seq<Obs>, records: seq<Record>, source: string, model: string)
    requires AllMirror(rows, records, source)
    ensures RowsIn(rows, model) == UsedIn(records, model) && RowsOut(rows, model) == UsedOut(records, model)
  {
    if rows != [] {
      assert Mirrors(Last(rows), Last(records), source);
      MirrorsAddUp(Front(rows), Front(records), source, model);
    }
  }

  /** So the usage recorded under ids for a source and model is that of its distinct records. */
  lemma RecordsAddUp(batches: seq<Batch>, source: string, model: string)
    ensures var rows, first := IdRows(Exec(batches).external, source), FirstOf(RecordsIn(Fed(batches, source)));
            RowsIn(rows, model) == UsedIn(first, model) && RowsOut(rows, model) == UsedOut(first, model)
  {
    EachRecordOnce(batches, source);
    MirrorsAddUp(IdRows(Exec(batches).external, source), FirstOf(RecordsIn(Fed(batches, source))), source, model);
  }

  /* ---------- the other keys ---------- */

  /** A record without id is recorded under its timestamp and line number, unless such a row exists. */
  lemma StampedRecord(l: Ledger, source: string, line: Line, lineNo: nat)
    requires line.Item? && line.totals.None? && line.record.Some? && !line.record.value.cumulative
    requires line.record.value.id.None?
    ensures var r, l' := line.record.value, Extended(l, source, line, lineNo);
            var key := Stamp(r.timestamp, lineNo);
            && l'.totals == l.totals
            && (Has(l.external, source, key) ==> l'.external == l.external)
            && (!Has(l.external, source, key) ==>
                  && |l'.external| == |l.external| + 1 && l'.external[..|l.external|] == l.external
                  && var row := l'.external[|l.external|];
                     && row.source == source && row.key == key
                     && row.tokensIn == r.tokensIn && row.tokensOut == r.tokensOut
                     && row.model == match r.model case Some(model) => model case None => "unknown")
  {
  }

  /** Lines that are blank or malformed, and those with neither total nor countable record, do nothing. */
  lemma NothingToRecord(l: Ledger, source: string, line: Line, lineNo: nat)
    requires line.Item? ==> line.totals.None? && (line.record.None? || line.record.value.cumulative)
    ensures Extended(l, source, line, lineNo) == l
  {
  }

  ghost predicate NamesModel(rows: seq<Obs>) {
    forall i | 0 <= i < |rows| && rows[i].key.Cum? :: rows[i].model == rows[i].key.model
  }

  lemma {:induction false} CollectNamesModel(l: Ledger, source: string, lines: seq<Line>)
    requires NamesModel(l.external)
    ensures NamesModel(Collect(l, Batch(source, lines)).external)
  {
    if lines == [] {
      assert InsertAll(l.external, []) == l.external;
    } else {
      CollectNamesModel(l, source, Front(lines));
      assert Front(lines) + [Last(lines)] == lines;
      CollectSnoc(l, source, Front(lines), Last(lines));
    }
  }

  /** The row of a cumulative total is booked on the total's model. */
  lemma {:induction false} DeltasNameTheirModel(batches: seq<Batch>)
    ensures NamesModel(Exec(batches).external)
  {
    if batches != [] {
      DeltasNameTheirModel(Front(batches));
      CollectNamesModel(Exec(Front(batches)), Last(batches).source, Last(batches).lines);
    }
  }
}
