/** The buffered download counter (registry/app/registry/downloads.py). A flush is split at its
    await points: it takes a snapshot, commits it, and afterwards removes it from the buffer. */
module Downloads {
  import opened Common

  type OrgPeriod = (int, string)

  datatype Usage = Usage(bytes: int, count: int) {
    function Plus(u: Usage): Usage {
      Usage(bytes + u.bytes, count + u.count)
    }
  }

  const Zero := Usage(0, 0)

  function CountOf(counts: map<nat, int>, version: nat): int {
    if version in counts then counts[version] else 0
  }

  function UsageOf(usage: map<OrgPeriod, Usage>, key: OrgPeriod): Usage {
    if key in usage then usage[key] else Zero
  }

  // The tables: download_count per existing version, and org_monthly_usage.
  datatype Database = Database(counts: map<nat, int>, usage: map<OrgPeriod, Usage>)

  /** The UPDATE per counted version, which touches only existing rows. */
  function AddCounts(counts: map<nat, int>, snapshot: map<nat, int>): map<nat, int> {
    map v | v in counts :: counts[v] + CountOf(snapshot, v)
  }

  /** _upsert_org_usage for every key of the snapshot. */
  function AddUsage(usage: map<OrgPeriod, Usage>, snapshot: map<OrgPeriod, Usage>): map<OrgPeriod, Usage> {
    map k | k in usage.Keys + snapshot.Keys :: UsageOf(usage, k).Plus(UsageOf(snapshot, k))
  }

  /** _remove_after_success: drop what was flushed, keep what was recorded since. */
  function Unflushed(counts: map<nat, int>, flushed: map<nat, int>): map<nat, int> {
    map v | v in counts.Keys + flushed.Keys && (v in flushed ==> CountOf(counts, v) > flushed[v]) ::
      CountOf(counts, v) - CountOf(flushed, v)
  }

  lemma UnflushedStep(counts: map<nat, int>, flushed: map<nat, int>, left: set<nat>, v: nat)
    requires v in left && v in flushed
    ensures var before := Unflushed(counts, flushed - left);
            var remaining := CountOf(before, v) - flushed[v];
            Unflushed(counts, flushed - (left - {v})) == if remaining > 0 then before[v := remaining] else before - {v}
  {
  }

  lemma AddCountsStep(counts: map<nat, int>, snapshot: map<nat, int>, left: set<nat>, v: nat)
    requires v in left && v in snapshot
    ensures var before := AddCounts(counts, snapshot - left);
            AddCounts(counts, snapshot - (left - {v}))
            == if v in before then before[v := before[v] + snapshot[v]] else before
  {
  }

  lemma AddUsageStep(usage: map<OrgPeriod, Usage>, snapshot: map<OrgPeriod, Usage>, left: set<OrgPeriod>, k: OrgPeriod)
    requires k in left && k in snapshot
    ensures var before := AddUsage(usage, snapshot - left);
            AddUsage(usage, snapshot - (left - {k})) == before[k := UsageOf(before, k).Plus(snapshot[k])]
  {
  }

  /** The rows a flush writes to. */
  class Tables {
    var counts: map<nat, int>
    var usage: map<OrgPeriod, Usage>

    /** The body of the flush transaction. */
    method Commit(snapshot: map<nat, int>, usageSnapshot: map<OrgPeriod, Usage>)
      modifies this
      ensures counts == AddCounts(old(counts), snapshot)
      ensures usage == AddUsage(old(usage), usageSnapshot)
    {
      var versions: set<nat> := snapshot.Keys;
      while versions != {}
        invariant versions <= snapshot.Keys && usage == old(usage)
        invariant counts == AddCounts(old(counts), snapshot - versions)
        decreases versions
      {
        var v :| v in versions;
        AddCountsStep(old(counts), snapshot, versions, v);
        if v in counts {
          counts := counts[v := counts[v] + snapshot[v]];
        }
        versions := versions - {v};
      }
      assert snapshot - versions == snapshot;
      var keys := usageSnapshot.Keys;
      while keys != {}
        invariant keys <= usageSnapshot.Keys && counts == AddCounts(old(counts), snapshot)
        invariant usage == AddUsage(old(usage), usageSnapshot - keys)
        decreases keys
      {
        var k :| k in keys;
        AddUsageStep(old(usage), usageSnapshot, keys, k);
        UpsertOrgUsage(k, usageSnapshot[k]);
        keys := keys - {k};
      }
      assert usageSnapshot - keys == usageSnapshot;
    }

    method UpsertOrgUsage(key: OrgPeriod, amount: Usage)
      modifies this`usage
      ensures usage == old(usage)[key := UsageOf(old(usage), key).Plus(amount)]
    {
      if key !in usage {
        usage := usage[key := amount];
        assert Zero.Plus(amount) == amount;
      } else {
        usage := usage[key := usage[key].Plus(amount)];
      }
    }
  }

  class DownloadCountBuffer {
    var counts: map<nat, int>
    var usage: map<OrgPeriod, Usage>

    constructor ()
      ensures counts == map[] && usage == map[]
    {
      counts, usage := map[], map[];
    }

    method Record(version: nat, key: Option<OrgPeriod>, bytes: int)
      modifies this
      ensures counts == old(counts)[version := CountOf(old(counts), version) + 1]
      ensures usage == if key.None? then old(usage)
                       else old(usage)[key.value := UsageOf(old(usage), key.value).Plus(Usage(bytes, 1))]
    {
      counts := counts[version := (if version in counts then counts[version] else 0) + 1];
      if key.Some? {
        var entry := if key.value in usage then usage[key.value] else Zero;
        usage := usage[key.value := Usage(entry.bytes + bytes, entry.count + 1)];
      }
    }

    method PendingOrgBytes(key: OrgPeriod) returns (bytes: int)
      ensures bytes == UsageOf(usage, key).bytes
    {
      bytes := if key in usage then usage[key].bytes else 0;
    }

    /** The end of a successful flush. */
    method Finish(flushed: map<nat, int>, flushedUsage: map<OrgPeriod, Usage>)
      modifies this
      ensures counts == Unflushed(old(counts), flushed)
      ensures usage == old(usage) - flushedUsage.Keys
    {
      RemoveAfterSuccess(flushed);
      var keys := flushedUsage.Keys;
      while keys != {}
        invariant keys <= flushedUsage.Keys
        invariant counts == Unflushed(old(counts), flushed)
        invariant usage == old(usage) - (flushedUsage.Keys - keys)
        decreases keys
      {
        var k :| k in keys;
        usage := usage - {k};
        keys := keys - {k};
      }
      assert flushedUsage.Keys - keys == flushedUsage.Keys;
    }

    method RemoveAfterSuccess(flushed: map<nat, int>)
      modifies this`counts
      ensures counts == Unflushed(old(counts), flushed)
    {
      var versions: set<nat> := flushed.Keys;
      while versions != {}
        invariant versions <= flushed.Keys
        invariant counts == Unflushed(old(counts), flushed - versions)
        decreases versions
      {
        var v :| v in versions;
        UnflushedStep(old(counts), flushed, versions, v);
        var remaining := (if v in counts then counts[v] else 0) - flushed[v];
        if remaining > 0 {
          counts := counts[v := remaining];
        } else {
          counts := counts - {v};
        }
        versions := versions - {v};
      }
      assert flushed - versions == flushed;
    }
  }
}
