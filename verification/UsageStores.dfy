/** The usage store and the codex adapter on live tables (runtime/src/usage.ts,
    runtime/src/usage/codex.ts, runtime/src/usage/collect.ts). */
module UsageStores {
  import opened Common
  import opened UsageState
  import opened CodexLedger
  import opened Collections
  import Files = SessionFiles

  class UsageStore {
    var external: seq<Obs>
    var codexTotals: TotalsTable
    var cursors: Cursors

    constructor ()
      ensures external == [] && codexTotals == map[] && cursors == map[]
    {
      external, codexTotals, cursors := [], map[], map[];
    }

    method RecordExternal(obs: Obs) returns (changed: bool)
      modifies this`external
      ensures external == Insert(old(external), obs)
      ensures changed <==> !Has(old(external), obs.source, obs.key)
    {
      changed := !Has(external, obs.source, obs.key);
      if changed {
        external := external + [obs];
      }
    }

    /** The recording loop of collectProvidersSync. */
    method RecordAll(pending: seq<Obs>)
      modifies this`external
      ensures external == InsertAll(old(external), pending)
    {
      for i := 0 to |pending|
        invariant external == InsertAll(old(external), pending[..i])
      {
        assert pending[..i + 1][..i] == pending[..i];
        var _ := RecordExternal(pending[i]);
      }
      assert pending[..|pending|] == pending;
    }
  }

  class CodexAdapter {
    const store: UsageStore
    const decode: string -> Line  // trimming and JSON parsing

    constructor (store: UsageStore, decode: string -> Line)
      ensures this.store == store && this.decode == decode
    {
      this.store := store;
      this.decode := decode;
    }

    method TotalsToObservation(t: Totals, source: string) returns (obs: Option<Obs>)
      modifies store`codexTotals
      ensures obs == Delta(old(store.codexTotals), source, t)
      ensures store.codexTotals == StoreTotal(old(store.codexTotals), source, t)
    {
      var last := TotalOf(store.codexTotals, source, t.model);
      var deltaIn, deltaOut := t.tokensIn - last.lastInput, t.tokensOut - last.lastOutput;
      if deltaIn <= 0 && deltaOut <= 0 {
        return None;
      }
      store.codexTotals := store.codexTotals[(source, t.model) := Total(t.tokensIn, t.tokensOut)];
      obs := Some(Obs(source, t.model, deltaIn, deltaOut, Cum(t.model, t.tokensIn, t.tokensOut)));
    }

    method LineToObservation(line: Line, source: string, lineNo: nat) returns (obs: Option<Obs>)
      modifies store`codexTotals
      ensures obs == Observe(old(store.codexTotals), source, line, lineNo)
      ensures store.codexTotals == TotalsAfter(old(store.codexTotals), source, line)
    {
      obs := None;
      if line.Item? {
        if line.totals.Some? {
          obs := TotalsToObservation(line.totals.value, source);
        } else if line.record.Some? {
          obs := FromRecord(source, line.record.value, lineNo);
        }
      }
    }

    /** parseSessionFile: go through the new complete lines until the deadline, which passes after
        `cut` of them; the cursor moves past all of them in any case. */
    method ParseSessionFile(f: Scan) returns (pending: seq<Obs>)
      modifies store`codexTotals, store`cursors
      ensures var b := BatchOf(decode, old(store.cursors), f);
              && store.codexTotals == ParseTotals(old(store.codexTotals), b.source, b.lines)
              && pending == ParseLines(old(store.codexTotals), store.external, b.source, b.lines)
      ensures store.cursors == CursorsAfter(old(store.cursors), f)
    {
      pending := [];
      var cursor := CursorOf(store.cursors, f.source);
      if !Files.Unchanged(cursor, f.st) {
        var pieces := Files.Pieces(cursor, f.st, f.raw);
        pending := ParsePieces(f.source, pieces[..Min(f.cut, |pieces|)]);
        store.cursors := store.cursors[f.source := Files.NextCursor(f.st, f.raw)];
      }
    }

    /** Its loop, as far as the deadline lets it get. */
    method ParsePieces(source: string, pieces: seq<string>) returns (pending: seq<Obs>)
      modifies store`codexTotals
      ensures store.codexTotals == ParseTotals(old(store.codexTotals), source, Decoded(decode, pieces))
      ensures pending == ParseLines(old(store.codexTotals), store.external, source, Decoded(decode, pieces))
    {
      pending := [];
      for lineNo := 0 to |pieces|
        invariant store.codexTotals == ParseTotals(old(store.codexTotals), source, Decoded(decode, pieces[..lineNo]))
        invariant pending
                  == ParseLines(old(store.codexTotals), store.external, source, Decoded(decode, pieces[..lineNo]))
      {
        DecodedNext(decode, pieces, lineNo);
        var obs := LineToObservation(decode(pieces[lineNo]), source, lineNo + 1);
        if obs.Some? && !Has(store.external, obs.value.source, obs.value.key) {
          pending := pending + [obs.value];
        }
      }
      assert pieces[..|pieces|] == pieces;
    }

    /** collectCodex and the recording after it; `files` are those reached before the deadline. */
    method CollectCodex(files: seq<Scan>)
      modifies store
      ensures Store(store.cursors, Ledger(store.external, store.codexTotals))
              == CollectScans(decode, old(Store(store.cursors, Ledger(store.external, store.codexTotals))), files)
    {
      var usage: seq<Obs> := [];
      ghost var before := Ledger(store.external, store.codexTotals);
      for i := 0 to |files|
        invariant store.external == old(store.external)
        invariant store.cursors == AllCursors(old(store.cursors), files[..i])
        invariant (store.codexTotals, usage)
                  == ParseFiles(before, BatchesOf(decode, old(store.cursors), files[..i]))
      {
        assert Front(files[..i + 1]) == files[..i];
        var pending := ParseSessionFile(files[i]);
        usage := usage + pending;
      }
      assert files[..|files|] == files;
      store.RecordAll(usage);
    }
  }
}
