/** What the download counts keep while recordings interleave with flushes. */
module DownloadRuns {
  import opened Common
  import opened Downloads

  // Where the current flush is: none, snapshot taken, or committed but not yet removed.
  datatype Flight =
    | Idle
    | Snapshot(counts: map<nat, int>, usage: map<OrgPeriod, Usage>)
    | Committed(counts: map<nat, int>, usage: map<OrgPeriod, Usage>)

  datatype State = State(counts: map<nat, int>, usage: map<OrgPeriod, Usage>, db: Database, flight: Flight)

  datatype Step =
    | DoRecord(version: nat, key: Option<OrgPeriod>, bytes: int)
    | DoBegin
    | DoCommit
    | DoAbort
    | DoFinish

  predicate Legal(s: State, step: Step) {
    match step
    case DoRecord(_, _, _) => true
    case DoBegin => s.flight.Idle?
    case DoCommit => s.flight.Snapshot?
    case DoAbort => s.flight.Snapshot?
    case DoFinish => s.flight.Committed?
  }

  function Apply(s: State, step: Step): State {
    if !Legal(s, step) then s else
    match step
    case DoRecord(version, key, bytes) =>
      s.(counts := s.counts[version := CountOf(s.counts, version) + 1],
      usage := if key.None? then s.usage else s.usage[key.value := UsageOf(s.usage, key.value).Plus(Usage(bytes, 1))])
    case DoBegin =>
      if s.counts == map[] && s.usage == map[] then s else s.(flight := Snapshot(s.counts, s.usage))
    case DoCommit =>
      s.(db := Database(AddCounts(s.db.counts, s.flight.counts), AddUsage(s.db.usage, s.flight.usage)),
      flight := Committed(s.flight.counts, s.flight.usage))
    case DoAbort => s.(flight := Idle)
    case DoFinish =>
      s.(counts := Unflushed(s.counts, s.flight.counts), usage := s.usage - s.flight.usage.Keys, flight := Idle)
  }

  function Exec(db: Database, steps: seq<Step>): State {
    if steps == [] then State(map[], map[], db, Idle) else Apply(Exec(db, Front(steps)), Last(steps))
  }

  ghost predicate Run(db: Database, steps: seq<Step>) {
    steps == [] || (Run(db, Front(steps)) && Legal(Exec(db, Front(steps)), Last(steps)))
  }

  /** How often the version was recorded. */
  function Recorded(steps: seq<Step>, version: nat): nat {
    if steps == [] then 0
    else Recorded(Front(steps), version) + if Last(steps).DoRecord? && Last(steps).version == version then 1 else 0
  }

  function Increment(step: Step, key: OrgPeriod): Usage {
    if step.DoRecord? && step.key == Some(key) then Usage(step.bytes, 1) else Zero
  }

  /** What was recorded for the organization and period. */
  function RecordedUsage(steps: seq<Step>, key: OrgPeriod): Usage {
    if steps == [] then Zero else RecordedUsage(Front(steps), key).Plus(Increment(Last(steps), key))
  }

  /** What was recorded for it since the last snapshot. */
  function SinceSnapshot(steps: seq<Step>, key: OrgPeriod): Usage {
    if steps == [] || Last(steps).DoBegin? then Zero
    else SinceSnapshot(Front(steps), key).Plus(Increment(Last(steps), key))
  }

  // Finishing a flush pops the key.
  predicate Pops(s: State, step: Step, key: OrgPeriod) {
    step.DoFinish? && s.flight.Committed? && key in s.flight.usage
  }

  /** What the pops of finished flushes dropped. */
  function Dropped(db: Database, steps: seq<Step>, key: OrgPeriod): Usage {
    if steps == [] then Zero
    else
      Dropped(db, Front(steps), key).Plus(
        if Pops(Exec(db, Front(steps)), Last(steps), key) then SinceSnapshot(Front(steps), key) else Zero)
  }

  // Already committed but not yet removed from the buffer.
  function InFlight(s: State, version: nat): int {
    if s.flight.Committed? then CountOf(s.flight.counts, version) else 0
  }

  function UsageInFlight(s: State, key: OrgPeriod): Usage {
    if s.flight.Committed? then UsageOf(s.flight.usage, key) else Zero
  }

  ghost predicate CountsInv(db: Database, s: State) {
    && s.db.counts.Keys == db.counts.Keys
    && (forall v | v in s.counts :: s.counts[v] > 0)
    && (!s.flight.Idle? ==> forall v | v in s.flight.counts :: 0 < s.flight.counts[v] <= CountOf(s.counts, v))
  }

  lemma {:induction false} RunKeepsCounts(db: Database, steps: seq<Step>, version: nat)
    requires Run(db, steps) && version in db.counts
    ensures CountsInv(db, Exec(db, steps))
    ensures var s := Exec(db, steps);
            s.db.counts[version] + CountOf(s.counts, version) - InFlight(s, version)
            == db.counts[version] + Recorded(steps, version)
  {
    if steps != [] {
      RunKeepsCounts(db, Front(steps), version);
    }
  }

  /** Whenever no flush is between its commit and its removal, every recorded download of an existing
      version is either committed or buffered, whatever interleaved and however flushes ended. */
  lemma DownloadCountsConserved(db: Database, steps: seq<Step>, version: nat)
    requires Run(db, steps) && version in db.counts
    requires !Exec(db, steps).flight.Committed?
    ensures var s := Exec(db, steps);
            version in s.db.counts &&
            s.db.counts[version] + CountOf(s.counts, version) == db.counts[version] + Recorded(steps, version)
  {
    RunKeepsCounts(db, steps, version);
  }

  // During a flush the buffered usage is the snapshot plus what came since.
  ghost predicate UsageInv(s: State, since: Usage, key: OrgPeriod) {
    !s.flight.Idle? ==>
      && UsageOf(s.usage, key).bytes == UsageOf(s.flight.usage, key).bytes + since.bytes
      && UsageOf(s.usage, key).count == UsageOf(s.flight.usage, key).count + since.count
  }

  // Everything accounted for: in the table, in the buffer, dropped; less what is in both.
  function BytesBalance(s: State, dropped: Usage, key: OrgPeriod): int {
    UsageOf(s.db.usage, key).bytes + UsageOf(s.usage, key).bytes + dropped.bytes - UsageInFlight(s, key).bytes
  }

  function CountBalance(s: State, dropped: Usage, key: OrgPeriod): int {
    UsageOf(s.db.usage, key).count + UsageOf(s.usage, key).count + dropped.count - UsageInFlight(s, key).count
  }

  lemma CommittedUsage(usage: map<OrgPeriod, Usage>, snapshot: map<OrgPeriod, Usage>, key: OrgPeriod)
    ensures UsageOf(AddUsage(usage, snapshot), key) == UsageOf(usage, key).Plus(UsageOf(snapshot, key))
  {
  }

  lemma UsageStep(s: State, step: Step, since: Usage, dropped: Usage, key: OrgPeriod)
    requires Legal(s, step) && UsageInv(s, since, key)
    ensures UsageInv(Apply(s, step), if step.DoBegin? then Zero else since.Plus(Increment(step, key)), key)
    ensures BytesBalance(Apply(s, step), dropped.Plus(if Pops(s, step, key) then since else Zero), key)
            == BytesBalance(s, dropped, key) + Increment(step, key).bytes
    ensures CountBalance(Apply(s, step), dropped.Plus(if Pops(s, step, key) then since else Zero), key)
            == CountBalance(s, dropped, key) + Increment(step, key).count
  {
    match step
    case DoRecord(_, _, _) =>
    case DoBegin =>
    case DoCommit => CommittedUsage(s.db.usage, s.flight.usage, key);
    case DoAbort =>
    case DoFinish =>
  }

  lemma {:induction false} RunKeepsUsage(db: Database, steps: seq<Step>, key: OrgPeriod)
    requires Run(db, steps)
    ensures UsageInv(Exec(db, steps), SinceSnapshot(steps, key), key)
    ensures BytesBalance(Exec(db, steps), Dropped(db, steps, key), key)
            == UsageOf(db.usage, key).bytes + RecordedUsage(steps, key).bytes
    ensures CountBalance(Exec(db, steps), Dropped(db, steps, key), key)
            == UsageOf(db.usage, key).count + RecordedUsage(steps, key).count
  {
    if steps != [] {
      RunKeepsUsage(db, Front(steps), key);
      UsageStep(Exec(db, Front(steps)), Last(steps), SinceSnapshot(Front(steps), key), Dropped(db, Front(steps), key),
                key);
    }
  }

  /** The shortfall of the organization usage is exactly what was recorded for a flushed key between
      the snapshot and the pop; so it is conserved exactly if nothing was. */
  lemma OrgUsageShortfall(db: Database, steps: seq<Step>, key: OrgPeriod)
    requires Run(db, steps) && !Exec(db, steps).flight.Committed?
    ensures var s, dropped := Exec(db, steps), Dropped(db, steps, key);
            var booked, buffered := UsageOf(s.db.usage, key), UsageOf(s.usage, key);
            var initial, recorded := UsageOf(db.usage, key), RecordedUsage(steps, key);
            && booked.bytes + buffered.bytes == initial.bytes + recorded.bytes - dropped.bytes
            && booked.count + buffered.count == initial.count + recorded.count - dropped.count
  {
    RunKeepsUsage(db, steps, key);
  }

  /** One recording during a flush is lost for the organization, though not for the version:
      two downloads recorded, one on the books. */
  lemma OrgUsageCanFallShort(key: OrgPeriod)
    ensures var record := DoRecord(7, Some(key), 100);
            var s1 := Apply(State(map[], map[], Database(map[7 := 0], map[]), Idle), record);
            var s3 := Apply(Apply(s1, DoBegin), record);
            var s4 := Apply(s3, DoCommit);
            var s5 := Apply(s4, DoFinish);
            && Legal(s1, DoBegin) && Legal(s3, DoCommit) && Legal(s4, DoFinish)
            && CountOf(s5.counts, 7) + CountOf(s5.db.counts, 7) == 2
            && UsageOf(s5.usage, key).count + UsageOf(s5.db.usage, key).count == 1
  {
    var record := DoRecord(7, Some(key), 100);
    var s1 := Apply(State(map[], map[], Database(map[7 := 0], map[]), Idle), record);
    assert s1.counts[7] == 1 && s1.usage[key].count == 1;
    var s2 := Apply(s1, DoBegin);
    assert 7 in s1.counts && s2.flight == Snapshot(s1.counts, s1.usage);
    var s4 := Apply(Apply(s2, record), DoCommit);
    CommittedUsage(map[], s1.usage, key);
    assert s4.counts[7] == 2 && s4.db.counts[7] == 1;
  }
}
