/** Network sampler (Monitors/NetworkMonitor.swift): byte counters summed
    over the interfaces that are up, not loopback and of the link-layer
    family, turned into throughput against the previous snapshot. The
    interface list `getifaddrs` returns is an input (`None` when the call
    fails), as is the clock reading. */
module NetworkMonitor {
  import opened Wrappers
  import opened MetricModels
  import opened Counters

  /** `IFF_UP`: the interface is administratively up. */
  const InterfaceUp: bv32 := 0x1
  /** `IFF_LOOPBACK`: the interface is the loopback interface. */
  const InterfaceLoopback: bv32 := 0x8
  /** `AF_LINK`: the address family of link-layer entries, which carry the byte counters. */
  const LinkLayerFamily: nat := 18

  /** One entry of the interface list: its flags, the family of its
      address, and the `ifi_ibytes`/`ifi_obytes` counters of its data. */
  datatype Interface = Interface(flags: bv32, family: nat, ibytes: nat, obytes: nat)

  datatype NetworkSnapshot = NetworkSnapshot(bytesIn: nat, bytesOut: nat, timestamp: real)

  /** What one call reads: the interface list, and the clock after the walk. */
  datatype NetworkQuery = NetworkQuery(interfaces: Option<seq<Interface>>, now: real)

  /** The entries whose counters are added to the totals. */
  predicate Counted(entry: Interface) {
    entry.flags & InterfaceUp != 0 && entry.flags & InterfaceLoopback == 0 &&
    entry.family == LinkLayerFamily
  }

  /** Received bytes accumulated over the list, as the walk adds them up. */
  function TotalIn(entries: seq<Interface>): nat {
    if entries == [] then 0
    else
      var last := entries[|entries| - 1];
      TotalIn(entries[..|entries| - 1]) + (if Counted(last) then last.ibytes else 0)
  }

  /** Sent bytes accumulated over the list, as the walk adds them up. */
  function TotalOut(entries: seq<Interface>): nat {
    if entries == [] then 0
    else
      var last := entries[|entries| - 1];
      TotalOut(entries[..|entries| - 1]) + (if Counted(last) then last.obytes else 0)
  }

  /** The entries that count, in list order. */
  function CountedEntries(entries: seq<Interface>): (r: seq<Interface>)
    ensures forall e :: e in r <==> e in entries && Counted(e)
  {
    if entries == [] then []
    else if Counted(entries[0]) then [entries[0]] + CountedEntries(entries[1..])
    else CountedEntries(entries[1..])
  }

  function SumIn(entries: seq<Interface>): nat {
    if entries == [] then 0 else entries[0].ibytes + SumIn(entries[1..])
  }

  function SumOut(entries: seq<Interface>): nat {
    if entries == [] then 0 else entries[0].obytes + SumOut(entries[1..])
  }

  /** Throughput in bytes per second between two readings of a total. */
  function Speed(current: nat, previous: nat, elapsed: real): real
    requires elapsed > 0.0
  {
    Rate(ClampedDelta(current, previous), elapsed)
  }

  datatype NetworkResult = NetworkResult(metrics: NetworkMetrics, snapshot: NetworkSnapshot)

  /** The enumeration failed, or returned no entry at all. */
  predicate EnumerationFailed(query: NetworkQuery) {
    query.interfaces.None? || query.interfaces.value == []
  }

  /** What one call of `getNetworkUsage` returns. */
  function Sample(previous: Option<NetworkSnapshot>, query: NetworkQuery): NetworkResult {
    if EnumerationFailed(query) then
      NetworkResult(NoNetwork, NetworkSnapshot(0, 0, query.now))
    else
      var entries := query.interfaces.value;
      var totalIn, totalOut := TotalIn(entries), TotalOut(entries);
      var timed := previous.Some? && query.now - previous.value.timestamp > 0.0;
      var speedIn := if timed then Speed(totalIn, previous.value.bytesIn, query.now - previous.value.timestamp) else 0.0;
      var speedOut := if timed then Speed(totalOut, previous.value.bytesOut, query.now - previous.value.timestamp) else 0.0;
      NetworkResult(NetworkMetrics(totalIn, totalOut, speedIn, speedOut),
                    NetworkSnapshot(totalIn, totalOut, query.now))
  }

  /** `getNetworkUsage(previous:)`: walks the interface list once, adding
      the counters of the entries that count, then derives the speeds. */
  method GetNetworkUsage(previous: Option<NetworkSnapshot>, query: NetworkQuery)
    returns (metrics: NetworkMetrics, snapshot: NetworkSnapshot)
    ensures NetworkResult(metrics, snapshot) == Sample(previous, query)
  {
    var totalIn, totalOut := 0, 0;

    if EnumerationFailed(query) {
      var snap := NetworkSnapshot(0, 0, query.now);
      return NoNetwork, snap;
    }
    var entries := query.interfaces.value;

    var k := 0;
    while true
      invariant k < |entries|
      invariant totalIn == TotalIn(entries[..k]) && totalOut == TotalOut(entries[..k])
      decreases |entries| - k
    {
      var entry := entries[k];
      assert entries[..k + 1] == entries[..k] + [entry];
      var isUp := entry.flags & InterfaceUp != 0;
      var isLoopback := entry.flags & InterfaceLoopback != 0;

      if isUp && !isLoopback {
        if entry.family == LinkLayerFamily {
          totalIn := totalIn + entry.ibytes;
          totalOut := totalOut + entry.obytes;
        }
      }

      if k + 1 == |entries| {
        break;
      }
      k := k + 1;
    }
    assert entries[..k + 1] == entries;

    var now := query.now;
    snapshot := NetworkSnapshot(totalIn, totalOut, now);

    var speedIn, speedOut := 0.0, 0.0;

    if previous.Some? {
      var prev := previous.value;
      var elapsed := now - prev.timestamp;
      if elapsed > 0.0 {
        var deltaIn := if totalIn >= prev.bytesIn then totalIn - prev.bytesIn else 0;
        var deltaOut := if totalOut >= prev.bytesOut then totalOut - prev.bytesOut else 0;
        speedIn := deltaIn as real / elapsed;
        speedOut := deltaOut as real / elapsed;
      }
    }

    metrics := NetworkMetrics(totalIn, totalOut, speedIn, speedOut);
  }

  lemma {:induction false} SumInAppend(a: seq<Interface>, b: seq<Interface>)
    ensures SumIn(a + b) == SumIn(a) + SumIn(b)
    decreases |a|
  {
    if a != [] {
      assert (a + b)[1..] == a[1..] + b;
      SumInAppend(a[1..], b);
    } else {
      assert a + b == b;
    }
  }

  lemma {:induction false} SumOutAppend(a: seq<Interface>, b: seq<Interface>)
    ensures SumOut(a + b) == SumOut(a) + SumOut(b)
    decreases |a|
  {
    if a != [] {
      assert (a + b)[1..] == a[1..] + b;
      SumOutAppend(a[1..], b);
    } else {
      assert a + b == b;
    }
  }

  lemma {:induction false} CountedEntriesAppend(a: seq<Interface>, b: seq<Interface>)
    ensures CountedEntries(a + b) == CountedEntries(a) + CountedEntries(b)
    decreases |a|
  {
    if a != [] {
      assert (a + b)[1..] == a[1..] + b;
      CountedEntriesAppend(a[1..], b);
    } else {
      assert a + b == b;
    }
  }

  /** The totals the walk accumulates are the sums of the counters of
      exactly the entries that are up, not loopback and link-layer. */
  lemma {:induction false} TotalsSumCountedEntries(entries: seq<Interface>)
    ensures TotalIn(entries) == SumIn(CountedEntries(entries))
    ensures TotalOut(entries) == SumOut(CountedEntries(entries))
    decreases |entries|
  {
    if entries != [] {
      var n := |entries| - 1;
      var init, last := entries[..n], entries[n];
      assert entries == init + [last];
      TotalsSumCountedEntries(init);
      CountedEntriesAppend(init, [last]);
      assert CountedEntries([last]) == if Counted(last) then [last] else [];
      SumInAppend(CountedEntries(init), CountedEntries([last]));
      SumOutAppend(CountedEntries(init), CountedEntries([last]));
    }
  }

  /** An entry that is down, loopback or not link-layer adds nothing, wherever it is in the list. */
  lemma UncountedEntryAddsNothing(before: seq<Interface>, entry: Interface, after: seq<Interface>)
    requires !Counted(entry)
    ensures TotalIn(before + [entry] + after) == TotalIn(before + after)
    ensures TotalOut(before + [entry] + after) == TotalOut(before + after)
  {
    TotalsSumCountedEntries(before + [entry] + after);
    TotalsSumCountedEntries(before + after);
    CountedEntriesAppend(before + [entry], after);
    CountedEntriesAppend(before, [entry]);
    CountedEntriesAppend(before, after);
    assert CountedEntries([entry]) == [];
    assert CountedEntries(before) + [] == CountedEntries(before);
  }

  /** A failed enumeration reports zero traffic and a zero baseline, so the
      next successful call measures the full totals as traffic. */
  lemma FailureResetsBaseline(previous: Option<NetworkSnapshot>, now: real, next: NetworkQuery)
    requires !EnumerationFailed(next) && next.now > now
    ensures Sample(previous, NetworkQuery(None, now)).metrics == NetworkMetrics(0, 0, 0.0, 0.0)
    ensures var after := Sample(Some(Sample(previous, NetworkQuery(None, now)).snapshot), next).metrics;
      after.speedIn * (next.now - now) == after.bytesIn as real &&
      after.speedOut * (next.now - now) == after.bytesOut as real
  {
  }

  /** The snapshot and the metrics carry this call's totals. */
  lemma SnapshotCarriesTotals(previous: Option<NetworkSnapshot>, query: NetworkQuery)
    requires !EnumerationFailed(query)
    ensures var r := Sample(previous, query); var entries := query.interfaces.value;
      r.snapshot == NetworkSnapshot(TotalIn(entries), TotalOut(entries), query.now) &&
      r.metrics.bytesIn == TotalIn(entries) && r.metrics.bytesOut == TotalOut(entries)
  {
  }

  /** Speeds are never negative; they are 0 without a baseline, when no time
      passed, or when the total went down; otherwise they are the growth of
      the total over the elapsed seconds. */
  lemma SpeedsFollowClampedDeltas(previous: Option<NetworkSnapshot>, query: NetworkQuery)
    ensures var m := Sample(previous, query).metrics;
      m.speedIn >= 0.0 && m.speedOut >= 0.0 &&
      (previous.None? || query.now <= previous.value.timestamp ==> m.speedIn == 0.0 && m.speedOut == 0.0) &&
      (previous.Some? && query.now > previous.value.timestamp ==>
        var elapsed := query.now - previous.value.timestamp;
        m.speedIn * elapsed == ClampedDelta(m.bytesIn, previous.value.bytesIn) as real &&
        m.speedOut * elapsed == ClampedDelta(m.bytesOut, previous.value.bytesOut) as real &&
        (m.bytesIn < previous.value.bytesIn ==> m.speedIn == 0.0) &&
        (m.bytesOut < previous.value.bytesOut ==> m.speedOut == 0.0))
  {
    if !EnumerationFailed(query) && previous.Some? && query.now > previous.value.timestamp {
      var elapsed := query.now - previous.value.timestamp;
      assert Rate(0, elapsed) == 0.0;
    }
  }
}
