/** The codex ledger telescopes: recorded deltas add up to the cumulative total. */
module CodexLedger {
  import opened Common
  import opened UsageState

  datatype Ledger = Ledger(external: seq<Obs>, totals: TotalsTable)

  // One collection of one source: the lines it goes through.
  datatype Batch = Batch(source: string, lines: seq<Line>)

  /** Parse the lines, then record what they yielded. */
  function Collect(l: Ledger, b: Batch): Ledger {
    Ledger(InsertAll(l.external, ParseLines(l.totals, l.external, b.source, b.lines)),
           ParseTotals(l.totals, b.source, b.lines))
  }

  function Exec(batches: seq<Batch>): Ledger {
    if batches == [] then Ledger([], map[])
    else Collect(Exec(batches[..|batches| - 1]), batches[|batches| - 1])
  }

  /* ---------- one source and model ---------- */

  predicate Concerns(r: Obs, source: string, model: string) {
    r.source == source && r.key.Cum? && r.key.model == model
  }

  /** The delta rows of the source and model. */
  function Deltas(rows: seq<Obs>, source: string, model: string): (r: seq<Obs>)
    ensures |r| <= |rows|
  {
    if rows == [] then []
    else
      var before := Deltas(rows[..|rows| - 1], source, model);
      if Concerns(rows[|rows| - 1], source, model) then before + [rows[|rows| - 1]] else before
  }

  function SumIn(rows: seq<Obs>): int {
    if rows == [] then 0 else SumIn(rows[..|rows| - 1]) + rows[|rows| - 1].tokensIn
  }

  function SumOut(rows: seq<Obs>): int {
    if rows == [] then 0 else SumOut(rows[..|rows| - 1]) + rows[|rows| - 1].tokensOut
  }

  /** The cumulative totals of the source and model among the lines, in order. */
  function TotalsIn(lines: seq<Line>, model: string): seq<Totals> {
    if lines == [] then []
    else
      var before, l := TotalsIn(lines[..|lines| - 1], model), lines[|lines| - 1];
      if l.Item? && l.totals.Some? && l.totals.value.model == model then before + [l.totals.value] else before
  }

  function Seen(batches: seq<Batch>, source: string, model: string): seq<Totals> {
    if batches == [] then []
    else
      var b := batches[|batches| - 1];
      Seen(batches[..|batches| - 1], source, model) + if b.source == source then TotalsIn(b.lines, model) else []
  }

  function MaxIn(seen: seq<Totals>): int {
    if seen == [] then 0 else Max(MaxIn(seen[..|seen| - 1]), seen[|seen| - 1].tokensIn)
  }

  function MaxOut(seen: seq<Totals>): int {
    if seen == [] then 0 else Max(MaxOut(seen[..|seen| - 1]), seen[|seen| - 1].tokensOut)
  }

  predicate Leq(a: Totals, b: Totals) {
    a.tokensIn <= b.tokensIn && a.tokensOut <= b.tokensOut
  }

  // Totals of one growing counter: never negative, and any two comparable in both components.
  ghost predicate Chain(seen: seq<Totals>) {
    && (forall i | 0 <= i < |seen| :: seen[i].tokensIn >= 0 && seen[i].tokensOut >= 0)
    && (forall i, j | 0 <= i < j < |seen| :: Leq(seen[i], seen[j]) || Leq(seen[j], seen[i]))
  }

  lemma {:induction false} ChainMax(seen: seq<Totals>, t: Totals)
    requires Chain(seen + [t])
    ensures (t.tokensIn <= MaxIn(seen) && t.tokensOut <= MaxOut(seen))
            || (MaxIn(seen) <= t.tokensIn && MaxOut(seen) <= t.tokensOut)
  {
    var all := seen + [t];
    assert all[|seen|] == t;
    if seen != [] {
      var k := |seen| - 1;
      assert forall i | 0 <= i <= k :: all[i] == seen[i];
      var front := seen[..k] + [t];
      forall i | 0 <= i < |front| ensures front[i] == if i < k then all[i] else t {}
      assert Chain(front);
      ChainMax(seen[..k], t);
      assert Leq(seen[k], t) || Leq(t, seen[k]);
    }
  }

  /* ---------- the invariant ---------- */

  // The stored total is the greatest seen, the delta rows add up to it, and each row's key is
  // distinct and below it.
  ghost predicate Balanced(deltas: seq<Obs>, last: Total, seen: seq<Totals>) {
    && last.lastInput == MaxIn(seen) == SumIn(deltas)
    && last.lastOutput == MaxOut(seen) == SumOut(deltas)
    && (forall i | 0 <= i < |deltas| ::
          deltas[i].key.Cum? && deltas[i].key.tokensIn <= last.lastInput && deltas[i].key.tokensOut <= last.lastOutput)
    && DistinctKeys(deltas)
  }

  /** One more total: either nothing happens, or a row with a new key carries the difference. */
  lemma AdvanceKeeps(deltas: seq<Obs>, totals: TotalsTable, seen: seq<Totals>, t: Totals, source: string)
    requires Balanced(deltas, TotalOf(totals, source, t.model), seen) && Chain(seen + [t])
    ensures var obs, last' := Delta(totals, source, t), TotalOf(StoreTotal(totals, source, t), source, t.model);
            match obs
            case None => Balanced(deltas, last', seen + [t])
            case Some(row) => (forall i | 0 <= i < |deltas| :: deltas[i].key != row.key)
                              && Balanced(deltas + [row], last', seen + [t])
  {
    ChainMax(seen, t);
    assert (seen + [t])[..|seen|] == seen;
    var obs := Delta(totals, source, t);
    if obs.Some? {
      assert (deltas + [obs.value])[..|deltas|] == deltas;
    }
  }

  lemma {:induction false} DeltasConcat(a: seq<Obs>, b: seq<Obs>, source: string, model: string)
    ensures Deltas(a + b, source, model) == Deltas(a, source, model) + Deltas(b, source, model)
  {
    if b == [] {
      assert a + b == a;
    } else {
      assert (a + b)[..|a + b| - 1] == a + b[..|b| - 1];
      DeltasConcat(a, b[..|b| - 1], source, model);
    }
  }

  // A row of the source and model carries the key.
  ghost predicate Carries(deltas: seq<Obs>, key: EventKey) {
    exists i :: 0 <= i < |deltas| && deltas[i].key == key
  }

  lemma CarriesSnoc(deltas: seq<Obs>, row: Obs, key: EventKey)
    ensures Carries(deltas + [row], key) <==> Carries(deltas, key) || row.key == key
  {
    var d' := deltas + [row];
    if row.key == key {
      assert d'[|deltas|].key == key;
    }
    if Carries(deltas, key) {
      var i :| 0 <= i < |deltas| && deltas[i].key == key;
      assert d'[i].key == key;
    }
  }

  lemma HasSnoc(rows: seq<Obs>, row: Obs, source: string, key: EventKey)
    ensures Has(rows + [row], source, key) <==> Has(rows, source, key) || (row.source == source && row.key == key)
  {
    var r' := rows + [row];
    if row.source == source && row.key == key {
      assert r'[|rows|].key == key;
    }
    if Has(rows, source, key) {
      var i :| 0 <= i < |rows| && rows[i].source == source && rows[i].key == key;
      assert r'[i].source == source && r'[i].key == key;
    }
  }

  lemma {:induction false} HasIsInDeltas(rows: seq<Obs>, source: string, model: string, key: EventKey)
    requires key.Cum? && key.model == model
    ensures Has(rows, source, key) <==> Carries(Deltas(rows, source, model), key)
  {
    if rows != [] {
      var front, last := rows[..|rows| - 1], rows[|rows| - 1];
      assert rows == front + [last];
      HasIsInDeltas(front, source, model, key);
      HasSnoc(front, last, source, key);
      CarriesSnoc(Deltas(front, source, model), last, key);
    }
  }

  /** A pass over the lines, before anything is recorded. */
  lemma {:induction false} ParseKeeps(totals: TotalsTable, rows: seq<Obs>, lines: seq<Line>, seen: seq<Totals>,
                                      source: string, model: string)
    requires Balanced(Deltas(rows, source, model), TotalOf(totals, source, model), seen)
    requires Chain(seen + TotalsIn(lines, model))
    ensures Balanced(Deltas(rows + ParseLines(totals, rows, source, lines), source, model),
                     TotalOf(ParseTotals(totals, source, lines), source, model), seen + TotalsIn(lines, model))
  {
    if lines == [] {
      assert rows + [] == rows && seen + [] == seen;
    } else {
      var front, line := lines[..|lines| - 1], lines[|lines| - 1];
      ChainPrefix(seen, TotalsIn(front, model), TotalsIn(lines, model));
      ParseKeeps(totals, rows, front, seen, source, model);
      assert seen + TotalsIn(lines, model) == seen + TotalsIn(front, model) + Concerning(line, model);
      LineKeeps(ParseTotals(totals, source, front), rows, ParseLines(totals, rows, source, front), line, |lines|,
                seen + TotalsIn(front, model), source, model);
    }
  }

  lemma ChainPrefix(seen: seq<Totals>, a: seq<Totals>, b: seq<Totals>)
    requires Chain(seen + b) && |a| <= |b| && a == b[..|a|]
    ensures Chain(seen + a)
  {
    var x, y := seen + a, seen + b;
    assert forall i | 0 <= i < |x| :: x[i] == y[i];
  }

  function Concerning(line: Line, model: string): seq<Totals> {
    if line.Item? && line.totals.Some? && line.totals.value.model == model then [line.totals.value] else []
  }

  lemma LineKeeps(totals: TotalsTable, rows: seq<Obs>, pending: seq<Obs>, line: Line, lineNo: nat, seen: seq<Totals>,
                  source: string, model: string)
    requires Balanced(Deltas(rows + pending, source, model), TotalOf(totals, source, model), seen)
    requires Chain(seen + Concerning(line, model))
    ensures Balanced(Deltas(rows + Push(rows, pending, Observe(totals, source, line, lineNo)), source, model),
                     TotalOf(TotalsAfter(totals, source, line), source, model), seen + Concerning(line, model))
  {
    if Concerning(line, model) == [] {
      assert seen + [] == seen;
      Unconcerned(totals, rows, pending, line, lineNo, source, model);
    } else {
      TotalKeeps(totals, rows, pending, line.totals.value, seen, source);
    }
  }

  lemma TotalKeeps(totals: TotalsTable, rows: seq<Obs>, pending: seq<Obs>, t: Totals, seen: seq<Totals>, source: string)
    requires Balanced(Deltas(rows + pending, source, t.model), TotalOf(totals, source, t.model), seen)
    requires Chain(seen + [t])
    ensures Balanced(Deltas(rows + Push(rows, pending, Delta(totals, source, t)), source, t.model),
                     TotalOf(StoreTotal(totals, source, t), source, t.model), seen + [t])
  {
    AdvanceKeeps(Deltas(rows + pending, source, t.model), totals, seen, t, source);
    if Delta(totals, source, t).Some? {
      NewDelta(totals, rows, pending, t, source);
    }
  }

  lemma Unconcerned(totals: TotalsTable, rows: seq<Obs>, pending: seq<Obs>, line: Line, lineNo: nat,
                    source: string, model: string)
    requires Concerning(line, model) == []
    ensures Deltas(rows + Push(rows, pending, Observe(totals, source, line, lineNo)), source, model)
            == Deltas(rows + pending, source, model)
    ensures TotalOf(TotalsAfter(totals, source, line), source, model) == TotalOf(totals, source, model)
  {
    var obs := Observe(totals, source, line, lineNo);
    if obs.Some? {
      assert (rows + (pending + [obs.value]))[..|rows| + |pending|] == rows + pending;
    }
  }

  lemma NewDelta(totals: TotalsTable, rows: seq<Obs>, pending: seq<Obs>, t: Totals, source: string)
    requires Advances(TotalOf(totals, source, t.model), t)
    requires var d := Deltas(rows + pending, source, t.model);
             forall i | 0 <= i < |d| :: d[i].key != Cum(t.model, t.tokensIn, t.tokensOut)
    ensures var obs := Delta(totals, source, t);
            obs.Some? && Deltas(rows + Push(rows, pending, obs), source, t.model)
                         == Deltas(rows + pending, source, t.model) + [obs.value]
  {
    var obs := Delta(totals, source, t).value;
    DeltasConcat(rows, pending, source, t.model);
    HasIsInDeltas(rows, source, t.model, obs.key);
    var d, d' := Deltas(rows, source, t.model), Deltas(rows + pending, source, t.model);
    assert forall i | 0 <= i < |d| :: d'[i] == d[i];
    assert (rows + (pending + [obs]))[..|rows| + |pending|] == rows + pending;
  }

  ghost predicate DistinctKeys(deltas: seq<Obs>) {
    forall i, j | 0 <= i < j < |deltas| :: deltas[i].key != deltas[j].key
  }

  /** Recording drops nothing, as the pending keys are new. */
  lemma {:induction false} InsertKeepsDeltas(rows: seq<Obs>, pending: seq<Obs>, source: string, model: string)
    requires DistinctKeys(Deltas(rows + pending, source, model))
    ensures Deltas(InsertAll(rows, pending), source, model) == Deltas(rows + pending, source, model)
  {
    if pending == [] {
      assert rows + pending == rows;
    } else {
      var front, last := pending[..|pending| - 1], pending[|pending| - 1];
      assert (rows + pending)[..|rows + pending| - 1] == rows + front;
      var d, d' := Deltas(rows + front, source, model), Deltas(rows + pending, source, model);
      assert forall i | 0 <= i < |d| :: d'[i] == d[i];
      InsertKeepsDeltas(rows, front, source, model);
      var mid := InsertAll(rows, front);
      if Concerns(last, source, model) {
        HasIsInDeltas(mid, source, model, last.key);
        assert d'[|d|] == last;
        assert forall i | 0 <= i < |d| :: d'[i].key != last.key;
      }
      assert (mid + [last])[..|mid|] == mid;
    }
  }

  lemma CollectKeeps(l: Ledger, b: Batch, seen: seq<Totals>, source: string, model: string)
    requires Balanced(Deltas(l.external, source, model), TotalOf(l.totals, source, model), seen)
    requires b.source == source ==> Chain(seen + TotalsIn(b.lines, model))
    ensures var l' := Collect(l, b);
            Balanced(Deltas(l'.external, source, model), TotalOf(l'.totals, source, model),
                     seen + if b.source == source then TotalsIn(b.lines, model) else [])
  {
    var pending := ParseLines(l.totals, l.external, b.source, b.lines);
    if b.source == source {
      assert l.external + [] == l.external;
      ParseKeeps(l.totals, l.external, b.lines, seen, source, model);
      InsertKeepsDeltas(l.external, pending, source, model);
    } else {
      OtherSource(l.totals, l.external, b.source, b.lines, source, model);
      DeltasConcat(l.external, pending, source, model);
      assert Deltas(l.external + pending, source, model) == Deltas(l.external, source, model);
      InsertKeepsDeltas(l.external, pending, source, model);
      assert seen + [] == seen;
    }
  }

  lemma {:induction false} OtherSource(totals: TotalsTable, rows: seq<Obs>, other: string, lines: seq<Line>,
                                       source: string, model: string)
    requires other != source
    ensures Deltas(ParseLines(totals, rows, other, lines), source, model) == []
    ensures TotalOf(ParseTotals(totals, other, lines), source, model) == TotalOf(totals, source, model)
  {
    if lines != [] {
      var front, line := lines[..|lines| - 1], lines[|lines| - 1];
      OtherSource(totals, rows, other, front, source, model);
      OtherLine(ParseTotals(totals, other, front), rows, ParseLines(totals, rows, other, front), other, line, |lines|,
                source, model);
    }
  }

  lemma OtherLine(totals: TotalsTable, rows: seq<Obs>, pending: seq<Obs>, other: string, line: Line, lineNo: nat,
                  source: string, model: string)
    requires other != source
    ensures Deltas(Push(rows, pending, Observe(totals, other, line, lineNo)), source, model)
            == Deltas(pending, source, model)
    ensures TotalOf(TotalsAfter(totals, other, line), source, model) == TotalOf(totals, source, model)
  {
    var obs := Observe(totals, other, line, lineNo);
    if obs.Some? {
      assert (pending + [obs.value])[..|pending|] == pending;
    }
  }

  lemma {:induction false} ExecBalanced(batches: seq<Batch>, source: string, model: string)
    requires Chain(Seen(batches, source, model))
    ensures Balanced(Deltas(Exec(batches).external, source, model), TotalOf(Exec(batches).totals, source, model),
                     Seen(batches, source, model))
  {
    if batches != [] {
      var front, b := batches[..|batches| - 1], batches[|batches| - 1];
      SeenPrefix(batches, source, model);
      ExecBalanced(front, source, model);
      CollectKeeps(Exec(front), b, Seen(front, source, model), source, model);
    }
  }

  lemma SeenPrefix(batches: seq<Batch>, source: string, model: string)
    requires batches != [] && Chain(Seen(batches, source, model))
    ensures Chain(Seen(batches[..|batches| - 1], source, model))
  {
    var seen, all := Seen(batches[..|batches| - 1], source, model), Seen(batches, source, model);
    assert seen == all[..|seen|] && [] + seen == seen && [] + all == all;
    ChainPrefix([], seen, all);
  }

  /* ---------- the theorems ---------- */

  /** However the totals of one counter are split into collections, re-read or re-ordered, the recorded
      deltas add up to the greatest cumulative total, which is also the one stored. */
  lemma LedgerTelescopes(batches: seq<Batch>, source: string, model: string)
    requires Chain(Seen(batches, source, model))
    ensures var l, seen := Exec(batches), Seen(batches, source, model);
            var deltas, stored := Deltas(l.external, source, model), TotalOf(l.totals, source, model);
            && SumIn(deltas) == MaxIn(seen) == stored.lastInput
            && SumOut(deltas) == MaxOut(seen) == stored.lastOutput
  {
    ExecBalanced(batches, source, model);
  }

  lemma {:induction false} MaxOfGrowing(seen: seq<Totals>)
    requires Chain(seen) && seen != []
    requires forall i | 0 <= i < |seen| :: Leq(seen[i], seen[|seen| - 1])
    ensures MaxIn(seen) == seen[|seen| - 1].tokensIn && MaxOut(seen) == seen[|seen| - 1].tokensOut
  {
    MaxBelow(seen[..|seen| - 1], seen[|seen| - 1]);
  }

  lemma {:induction false} MaxBelow(seen: seq<Totals>, t: Totals)
    requires t.tokensIn >= 0 && t.tokensOut >= 0 && forall i | 0 <= i < |seen| :: Leq(seen[i], t)
    ensures MaxIn(seen) <= t.tokensIn && MaxOut(seen) <= t.tokensOut
  {
    if seen != [] {
      MaxBelow(seen[..|seen| - 1], t);
    }
  }

  /** For totals that never decrease, the deltas add up to the last one processed. */
  lemma DeltasSumToLastTotal(batches: seq<Batch>, source: string, model: string)
    requires var seen := Seen(batches, source, model);
             && seen != [] && seen[0].tokensIn >= 0 && seen[0].tokensOut >= 0
             && forall i, j | 0 <= i <= j < |seen| :: Leq(seen[i], seen[j])
    ensures var seen := Seen(batches, source, model);
            var deltas := Deltas(Exec(batches).external, source, model);
            && SumIn(deltas) == seen[|seen| - 1].tokensIn && SumOut(deltas) == seen[|seen| - 1].tokensOut
  {
    var seen := Seen(batches, source, model);
    assert forall i | 0 <= i < |seen| :: Leq(seen[0], seen[i]);
    MaxOfGrowing(seen);
    LedgerTelescopes(batches, source, model);
  }

  lemma {:induction false} MaxAbove(seen: seq<Totals>, i: nat)
    requires i < |seen|
    ensures seen[i].tokensIn <= MaxIn(seen) && seen[i].tokensOut <= MaxOut(seen)
  {
    if i < |seen| - 1 {
      MaxAbove(seen[..|seen| - 1], i);
    }
  }

  // The line brings nothing the ledger has not seen: its total was processed before, or its record is
  // on file under its own id. Lines with neither, such as messages and rate limits, are always old.
  ghost predicate IsOld(batches: seq<Batch>, source: string, line: Line) {
    line.Item? ==>
      if line.totals.Some? then line.totals.value in Seen(batches, source, line.totals.value.model)
      else line.record.Some? && !line.record.value.cumulative ==>
        line.record.value.id.Some? && Has(Exec(batches).external, source, Id(line.record.value.id.value))
  }

  ghost predicate OldNews(batches: seq<Batch>, source: string, lines: seq<Line>) {
    forall i | 0 <= i < |lines| :: IsOld(batches, source, lines[i])
  }

  lemma {:induction false} NothingNew(batches: seq<Batch>, source: string, lines: seq<Line>)
    requires OldNews(batches, source, lines)
    requires forall m :: Chain(Seen(batches, source, m))
    ensures var l := Exec(batches);
            ParseLines(l.totals, l.external, source, lines) == [] && ParseTotals(l.totals, source, lines) == l.totals
  {
    if lines != [] {
      var front, line := lines[..|lines| - 1], lines[|lines| - 1];
      NothingNew(batches, source, front);
      assert IsOld(batches, source, line);
      if line.Item? && line.totals.Some? {
        var t := line.totals.value;
        var seen := Seen(batches, source, t.model);
        var i :| 0 <= i < |seen| && seen[i] == t;
        MaxAbove(seen, i);
        LedgerTelescopes(batches, source, t.model);
      }
    }
  }

  /** Going through old lines again, as a scan from offset 0 does, changes nothing at all. */
  lemma RescanAddsNothing(batches: seq<Batch>, source: string, lines: seq<Line>)
    requires OldNews(batches, source, lines)
    requires forall m :: Chain(Seen(batches, source, m))
    ensures Exec(batches + [Batch(source, lines)]) == Exec(batches)
  {
    NothingNew(batches, source, lines);
    assert (batches + [Batch(source, lines)])[..|batches|] == batches;
  }

  /* ---------- line by line ---------- */

  lemma {:induction false} InsertKeeps(rows: seq<Obs>, pending: seq<Obs>, source: string, key: EventKey)
    requires Has(rows, source, key) || Has(pending, source, key)
    ensures Has(InsertAll(rows, pending), source, key)
  {
    if pending != [] {
      var front, last := Front(pending), Last(pending);
      assert pending == front + [last];
      HasSnoc(front, last, source, key);
      var mid := InsertAll(rows, front);
      HasSnoc(mid, last, source, key);
      if Has(rows, source, key) || Has(front, source, key) {
        InsertKeeps(rows, front, source, key);
      }
    }
  }

  // What one line does to the ledger.
  function Extended(l: Ledger, source: string, line: Line, lineNo: nat): Ledger {
    var obs := Observe(l.totals, source, line, lineNo);
    Ledger(if obs.Some? then Insert(l.external, obs.value) else l.external, TotalsAfter(l.totals, source, line))
  }

  /** A collection of one line more is the shorter one followed by that line. */
  lemma CollectSnoc(l: Ledger, source: string, lines: seq<Line>, line: Line)
    ensures Collect(l, Batch(source, lines + [line]))
            == Extended(Collect(l, Batch(source, lines)), source, line, |lines| + 1)
  {
    assert (lines + [line])[..|lines|] == lines;
    var obs := Observe(ParseTotals(l.totals, source, lines), source, line, |lines| + 1);
    var pending := ParseLines(l.totals, l.external, source, lines);
    if obs.Some? {
      FromSource(ParseTotals(l.totals, source, lines), source, line, |lines| + 1);
      if Has(l.external, source, obs.value.key) {
        InsertKeeps(l.external, pending, source, obs.value.key);
      } else {
        assert (pending + [obs.value])[..|pending|] == pending;
      }
    }
  }

  lemma FromSource(totals: TotalsTable, source: string, line: Line, lineNo: nat)
    ensures var obs := Observe(totals, source, line, lineNo); obs.Some? ==> obs.value.source == source
  {
  }

  lemma DeltasOfInsert(rows: seq<Obs>, obs: Obs, source: string, model: string)
    requires Concerns(obs, source, model)
    ensures var d, d' := Deltas(rows, source, model), Deltas(Insert(rows, obs), source, model);
            if Has(rows, obs.source, obs.key) then d' == d
            else SumIn(d') == SumIn(d) + obs.tokensIn && SumOut(d') == SumOut(d) + obs.tokensOut
  {
    if !Has(rows, obs.source, obs.key) {
      assert (rows + [obs])[..|rows|] == rows;
      var d := Deltas(rows, source, model);
      assert (d + [obs])[..|d|] == d;
    }
  }

  lemma OthersOfInsert(rows: seq<Obs>, obs: Obs, source: string, model: string)
    requires !Concerns(obs, source, model)
    ensures Deltas(Insert(rows, obs), source, model) == Deltas(rows, source, model)
  {
    assert (rows + [obs])[..|rows|] == rows;
  }

  /* ---------- counters that fall ---------- */

  // The rows of the model add up to its stored total.
  predicate AddsUp(l: Ledger, source: string, model: string) {
    var deltas, stored := Deltas(l.external, source, model), TotalOf(l.totals, source, model);
    SumIn(deltas) == stored.lastInput && SumOut(deltas) == stored.lastOutput
  }

  // The line's total of the model moves on to values that are on record from earlier.
  predicate Returns(l: Ledger, source: string, model: string, line: Line) {
    && line.Item? && line.totals.Some? && line.totals.value.model == model
    && var t := line.totals.value;
       Advances(TotalOf(l.totals, source, model), t) && Has(l.external, source, Cum(model, t.tokensIn, t.tokensOut))
  }

  // The lines of a collection, up to the k-th.
  function After(l: Ledger, source: string, lines: seq<Line>, k: nat): Ledger
    requires k <= |lines|
  {
    Collect(l, Batch(source, lines[..k]))
  }

  lemma TotalBalancesIff(l: Ledger, source: string, t: Totals)
    requires AddsUp(l, source, t.model) && Advances(TotalOf(l.totals, source, t.model), t)
    ensures var l' := Ledger(Insert(l.external, Delta(l.totals, source, t).value), StoreTotal(l.totals, source, t));
            AddsUp(l', source, t.model) <==> !Has(l.external, source, Cum(t.model, t.tokensIn, t.tokensOut))
  {
    DeltasOfInsert(l.external, Delta(l.totals, source, t).value, source, t.model);
  }

  lemma OtherLineKeeps(l: Ledger, source: string, model: string, line: Line, lineNo: nat)
    requires var obs := Observe(l.totals, source, line, lineNo); obs.Some? ==> !Concerns(obs.value, source, model)
    ensures var l' := Extended(l, source, line, lineNo);
            && Deltas(l'.external, source, model) == Deltas(l.external, source, model)
            && TotalOf(l'.totals, source, model) == TotalOf(l.totals, source, model)
  {
    var obs := Observe(l.totals, source, line, lineNo);
    if obs.Some? {
      OthersOfInsert(l.external, obs.value, source, model);
    }
  }

  lemma LineBalancesIff(l: Ledger, source: string, model: string, line: Line, lineNo: nat)
    requires AddsUp(l, source, model)
    ensures AddsUp(Extended(l, source, line, lineNo), source, model) <==> !Returns(l, source, model, line)
  {
    if line.Item? && line.totals.Some? && line.totals.value.model == model
       && Advances(TotalOf(l.totals, source, model), line.totals.value) {
      TotalBalancesIff(l, source, line.totals.value);
    } else {
      OtherLineKeeps(l, source, model, line, lineNo);
    }
  }

  lemma AfterNext(l: Ledger, source: string, lines: seq<Line>, k: nat)
    requires k < |lines|
    ensures After(l, source, lines, k + 1) == Extended(After(l, source, lines, k), source, lines[k], k + 1)
  {
    assert lines[..k + 1] == lines[..k] + [lines[k]];
    CollectSnoc(l, source, lines[..k], lines[k]);
  }

  /** For totals that go up and down, and after any part of any collection: one line more keeps the
      ledger balanced exactly as long as its total does not return to values already on record. */
  lemma OneLineBalancesIff(l: Ledger, source: string, model: string, lines: seq<Line>, k: nat)
    requires k < |lines| && AddsUp(After(l, source, lines, k), source, model)
    ensures AddsUp(After(l, source, lines, k + 1), source, model)
            <==> !Returns(After(l, source, lines, k), source, model, lines[k])
  {
    AfterNext(l, source, lines, k);
    LineBalancesIff(After(l, source, lines, k), source, model, lines[k], k + 1);
  }

  // Balanced after each of the first n lines.
  predicate AddsUpThrough(l: Ledger, source: string, model: string, lines: seq<Line>, n: nat)
    requires n <= |lines|
  {
    AddsUp(After(l, source, lines, n), source, model) && (n > 0 ==> AddsUpThrough(l, source, model, lines, n - 1))
  }

  // None of the first n lines returns.
  predicate NoneReturns(l: Ledger, source: string, model: string, lines: seq<Line>, n: nat)
    requires n <= |lines|
  {
    n > 0 ==> NoneReturns(l, source, model, lines, n - 1)
              && !Returns(After(l, source, lines, n - 1), source, model, lines[n - 1])
  }

  lemma {:induction false} PrefixBalancesIff(l: Ledger, source: string, model: string, lines: seq<Line>, n: nat)
    requires n <= |lines| && AddsUp(l, source, model)
    ensures AddsUpThrough(l, source, model, lines, n) <==> NoneReturns(l, source, model, lines, n)
  {
    if n == 0 {
      assert lines[..0] == [] && InsertAll(l.external, []) == l.external;
    } else {
      PrefixBalancesIff(l, source, model, lines, n - 1);
      if AddsUpThrough(l, source, model, lines, n - 1) {
        OneLineBalancesIff(l, source, model, lines, n - 1);
      }
    }
  }

  /** So a balanced ledger stays balanced all through a collection exactly if no total in it returns. */
  lemma CollectionBalancesIff(l: Ledger, source: string, model: string, lines: seq<Line>)
    requires AddsUp(l, source, model)
    ensures AddsUpThrough(l, source, model, lines, |lines|) <==> NoneReturns(l, source, model, lines, |lines|)
  {
    PrefixBalancesIff(l, source, model, lines, |lines|);
  }

  function TotalLine(model: string, tokensIn: int, tokensOut: int): Line {
    Item(false, Some(Totals(model, tokensIn, tokensOut)), None)
  }

  /** A counter that falls and comes back, in one scan: of the totals 10 and 0, 5 and 1, 10 and 0 the
      third is not recorded, and the rows add up to 5 and 1 where 10 and 0 are stored. */
  lemma FallingCounterUnbalances(source: string, model: string)
    ensures var lines := [TotalLine(model, 10, 0), TotalLine(model, 5, 1), TotalLine(model, 10, 0)];
            var l := Collect(Ledger([], map[]), Batch(source, lines));
            && SumIn(Deltas(l.external, source, model)) == 5 && SumOut(Deltas(l.external, source, model)) == 1
            && TotalOf(l.totals, source, model) == Total(10, 0)
  {
    var lines := [TotalLine(model, 10, 0), TotalLine(model, 5, 1), TotalLine(model, 10, 0)];
    var l := Ledger([], map[]);
    assert lines[..0] == [] && lines[..3] == lines && After(l, source, lines, 0) == l;
    AfterNext(l, source, lines, 0);
    AfterNext(l, source, lines, 1);
    AfterNext(l, source, lines, 2);
    FirstTotal(source, model);
    FallsAndReturns(After(l, source, lines, 1), source, model);
  }

  lemma FirstTotal(source: string, model: string)
    ensures var l := Extended(Ledger([], map[]), source, TotalLine(model, 10, 0), 1);
            && AddsUp(l, source, model) && TotalOf(l.totals, source, model) == Total(10, 0)
            && Has(l.external, source, Cum(model, 10, 0)) && !Has(l.external, source, Cum(model, 5, 1))
  {
    var first := Delta(map[], source, Totals(model, 10, 0)).value;
    LineBalancesIff(Ledger([], map[]), source, model, TotalLine(model, 10, 0), 1);
    HasSnoc([], first, source, Cum(model, 10, 0));
    HasSnoc([], first, source, Cum(model, 5, 1));
    assert [] + [first] == [first];
  }

  lemma FallsAndReturns(l: Ledger, source: string, model: string)
    requires AddsUp(l, source, model) && TotalOf(l.totals, source, model) == Total(10, 0)
    requires Has(l.external, source, Cum(model, 10, 0)) && !Has(l.external, source, Cum(model, 5, 1))
    ensures var l' := Extended(Extended(l, source, TotalLine(model, 5, 1), 2), source, TotalLine(model, 10, 0), 3);
            && SumIn(Deltas(l'.external, source, model)) == 5 && SumOut(Deltas(l'.external, source, model)) == 1
            && TotalOf(l'.totals, source, model) == Total(10, 0)
  {
    var l1 := Extended(l, source, TotalLine(model, 5, 1), 2);
    LineBalancesIff(l, source, model, TotalLine(model, 5, 1), 2);
    HasSnoc(l.external, Delta(l.totals, source, Totals(model, 5, 1)).value, source, Cum(model, 10, 0));
    assert Returns(l1, source, model, TotalLine(model, 10, 0));
  }
}
