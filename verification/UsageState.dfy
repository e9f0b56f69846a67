/** The usage tables as values, and how the codex adapter turns session lines into rows
    (runtime/src/usage/codex.ts, runtime/src/usage.ts). */
module UsageState {
  import opened Common

  datatype Totals = Totals(model: string, tokensIn: int, tokensOut: int)

  datatype Record = Record(tokensIn: int, tokensOut: int, cumulative: bool, model: Option<string>,
                           id: Option<string>, timestamp: Option<string>)

  // What JSON parsing finds in one line.
  datatype Line = Blank | Malformed | Item(rateLimit: bool, totals: Option<Totals>, record: Option<Record>)

  // The formatted keys, by their fields.
  datatype EventKey = Cum(model: string, tokensIn: int, tokensOut: int) | Id(id: string)
                    | Stamp(timestamp: Option<string>, lineNo: nat)

  datatype Obs = Obs(source: string, model: string, tokensIn: int, tokensOut: int, key: EventKey)

  datatype Total = Total(lastInput: int, lastOutput: int)

  type TotalsTable = map<(string, string), Total>

  function TotalOf(totals: TotalsTable, source: string, model: string): Total {
    if (source, model) in totals then totals[(source, model)] else Total(0, 0)
  }

  predicate Has(rows: seq<Obs>, source: string, key: EventKey) {
    exists i | 0 <= i < |rows| :: rows[i].source == source && rows[i].key == key
  }

  predicate Advances(last: Total, t: Totals) {
    t.tokensIn > last.lastInput || t.tokensOut > last.lastOutput
  }

  /** totalsToObservation: the delta against the last stored total, if either component grew. */
  function Delta(totals: TotalsTable, source: string, t: Totals): Option<Obs> {
    var last := TotalOf(totals, source, t.model);
    if Advances(last, t)
    then Some(Obs(source, t.model, t.tokensIn - last.lastInput, t.tokensOut - last.lastOutput,
                  Cum(t.model, t.tokensIn, t.tokensOut)))
    else None
  }

  function StoreTotal(totals: TotalsTable, source: string, t: Totals): TotalsTable {
    if Advances(TotalOf(totals, source, t.model), t)
    then totals[(source, t.model) := Total(t.tokensIn, t.tokensOut)]
    else totals
  }

  /** recordToObservation */
  function FromRecord(source: string, r: Record, lineNo: nat): Option<Obs> {
    if r.cumulative then None
    else Some(Obs(source, if r.model.Some? then r.model.value else "unknown", r.tokensIn, r.tokensOut,
                  if r.id.Some? then Id(r.id.value) else Stamp(r.timestamp, lineNo)))
  }

  function Observe(totals: TotalsTable, source: string, line: Line, lineNo: nat): Option<Obs> {
    if !line.Item? then None
    else if line.totals.Some? then Delta(totals, source, line.totals.value)
    else if line.record.Some? then FromRecord(source, line.record.value, lineNo)
    else None
  }

  function TotalsAfter(totals: TotalsTable, source: string, line: Line): TotalsTable {
    if line.Item? && line.totals.Some? then StoreTotal(totals, source, line.totals.value) else totals
  }

  /** The observations a pass over the lines hands on: those not on record yet. */
  function Push(rows: seq<Obs>, pending: seq<Obs>, obs: Option<Obs>): seq<Obs> {
    if obs.Some? && !Has(rows, obs.value.source, obs.value.key) then pending + [obs.value] else pending
  }

  function ParseTotals(totals: TotalsTable, source: string, lines: seq<Line>): TotalsTable {
    if lines == [] then totals
    else TotalsAfter(ParseTotals(totals, source, lines[..|lines| - 1]), source, lines[|lines| - 1])
  }

  function ParseLines(totals: TotalsTable, rows: seq<Obs>, source: string, lines: seq<Line>): seq<Obs> {
    if lines == [] then []
    else
      var front, last := lines[..|lines| - 1], lines[|lines| - 1];
      Push(rows, ParseLines(totals, rows, source, front),
           Observe(ParseTotals(totals, source, front), source, last, |lines|))
  }

  /** INSERT OR IGNORE */
  function Insert(rows: seq<Obs>, obs: Obs): seq<Obs> {
    if Has(rows, obs.source, obs.key) then rows else rows + [obs]
  }

  function InsertAll(rows: seq<Obs>, pending: seq<Obs>): seq<Obs> {
    if pending == [] then rows
    else Insert(InsertAll(rows, pending[..|pending| - 1]), pending[|pending| - 1])
  }
}
