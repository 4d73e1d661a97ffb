/** CPU sampler (Monitors/CPUMonitor.swift): per-core and aggregate usage
    from the difference between two tick snapshots. The OS query
    `host_processor_info` is an input: `None` when it fails, otherwise the
    tick counters of every processor, read in processor order. */
module CPUMonitor {
  import opened Wrappers
  import opened MetricModels

  /** The four scheduler states whose ticks are counted. */
  datatype Field = User | System | Idle | Nice

  /** Ticks of one core, as `CPU_STATE_USER/SYSTEM/IDLE/NICE` report them. */
  datatype CoreTicks = CoreTicks(user: nat, system: nat, idle: nat, nice: nat)
  {
    /** All ticks of the core, whatever state they were spent in. */
    function Total(): nat {
      user + system + idle + nice
    }

    /** Ticks spent doing work: everything but idle. */
    function Busy(): nat {
      user + system + nice
    }

    function Get(f: Field): nat {
      match f
      case User => user
      case System => system
      case Idle => idle
      case Nice => nice
    }
  }

  /** No counter of `later` is below the same counter of `earlier`. */
  predicate NotBelow(earlier: CoreTicks, later: CoreTicks) {
    earlier.user <= later.user && earlier.system <= later.system &&
    earlier.idle <= later.idle && earlier.nice <= later.nice
  }

  /** Field-wise difference of two snapshots of one core. */
  function Delta(earlier: CoreTicks, later: CoreTicks): CoreTicks
    requires NotBelow(earlier, later)
  {
    CoreTicks(later.user - earlier.user, later.system - earlier.system,
              later.idle - earlier.idle, later.nice - earlier.nice)
  }

  /** The ticks elapsed in all states, and in the busy ones, are the
      differences of the two snapshots' totals. */
  lemma DeltaOfTotals(earlier: CoreTicks, later: CoreTicks)
    requires NotBelow(earlier, later)
    ensures Delta(earlier, later).Total() == later.Total() - earlier.Total()
    ensures Delta(earlier, later).Busy() == later.Busy() - earlier.Busy()
    ensures Delta(earlier, later).Busy() <= Delta(earlier, later).Total()
  {
  }

  /** One field summed over all cores: the `reduce(0) { $0 + $1.field }` folds. */
  function SumOf(ticks: seq<CoreTicks>, f: Field): nat
  {
    if ticks == [] then 0 else SumOf(ticks[..|ticks| - 1], f) + ticks[|ticks| - 1].Get(f)
  }

  /** The whole machine as one core: every field summed over the cores. */
  function Summed(ticks: seq<CoreTicks>): CoreTicks {
    CoreTicks(SumOf(ticks, User), SumOf(ticks, System), SumOf(ticks, Idle), SumOf(ticks, Nice))
  }

  /** `100 * busy / total`, or 0 when no tick elapsed. */
  function Usage(busy: nat, total: nat): real {
    if total > 0 then busy as real / total as real * 100.0 else 0.0
  }

  /** The usage is the busy share of the elapsed ticks, as a percentage. */
  lemma UsageIsPercentage(busy: nat, total: nat)
    ensures total == 0 ==> Usage(busy, total) == 0.0
    ensures total > 0 ==> Usage(busy, total) * total as real == busy as real * 100.0
    ensures busy <= total ==> 0.0 <= Usage(busy, total) <= 100.0
  {
    if total > 0 {
      var q := busy as real / total as real;
      assert q * total as real == busy as real;
      if busy <= total {
        assert q <= 1.0;
      }
    }
  }

  /** Usage over an interval whose per-field deltas are `d`. */
  function BusyShare(d: CoreTicks): real {
    Usage(d.Busy(), d.Total())
  }

  /** Every core present in both snapshots has counted forward. */
  predicate CoresNonDecreasing(previous: seq<CoreTicks>, current: seq<CoreTicks>) {
    forall i :: 0 <= i < |previous| && i < |current| ==> NotBelow(previous[i], current[i])
  }

  /** The machine-wide sums have counted forward. */
  predicate SumsNonDecreasing(previous: seq<CoreTicks>, current: seq<CoreTicks>) {
    NotBelow(Summed(previous), Summed(current))
  }

  /** What the source needs so that none of its `UInt64` subtractions traps. */
  predicate CanSubtract(previousTicks: Option<seq<CoreTicks>>, processorInfo: Option<seq<CoreTicks>>) {
    processorInfo.Some? && previousTicks.Some? ==>
      CoresNonDecreasing(previousTicks.value, processorInfo.value) &&
      SumsNonDecreasing(previousTicks.value, processorInfo.value)
  }

  /** Usage of core `i`: measured against the previous snapshot of that core
      when there is one, 0 otherwise. */
  function CoreUsage(previousTicks: Option<seq<CoreTicks>>, current: seq<CoreTicks>, i: nat): real
    requires i < |current|
    requires previousTicks.Some? ==> CoresNonDecreasing(previousTicks.value, current)
  {
    if previousTicks.Some? && i < |previousTicks.value| then
      BusyShare(Delta(previousTicks.value[i], current[i]))
    else
      0.0
  }

  /** Machine-wide usage from the summed deltas of all cores, 0 without a
      previous snapshot. */
  function AggregateUsage(previousTicks: Option<seq<CoreTicks>>, current: seq<CoreTicks>): real
    requires previousTicks.Some? ==> SumsNonDecreasing(previousTicks.value, current)
  {
    if previousTicks.Some? then BusyShare(Delta(Summed(previousTicks.value), Summed(current))) else 0.0
  }

  /** One usage per processor read, in processor order. */
  function CoreUsages(previousTicks: Option<seq<CoreTicks>>, current: seq<CoreTicks>): (r: seq<real>)
    requires previousTicks.Some? ==> CoresNonDecreasing(previousTicks.value, current)
    ensures |r| == |current|
    ensures forall i :: 0 <= i < |current| ==> r[i] == CoreUsage(previousTicks, current, i)
  {
    seq(|current|, i requires 0 <= i < |current| => CoreUsage(previousTicks, current, i))
  }

  datatype CPUResult = CPUResult(metrics: CPUMetrics, ticks: seq<CoreTicks>)

  /** What one call of `getCPUUsage` returns. */
  function Sample(previousTicks: Option<seq<CoreTicks>>, processorInfo: Option<seq<CoreTicks>>): CPUResult
    requires CanSubtract(previousTicks, processorInfo)
  {
    match processorInfo
    case None => CPUResult(NoCPU, previousTicks.GetOr([]))
    case Some(current) =>
      CPUResult(CPUMetrics(AggregateUsage(previousTicks, current), CoreUsages(previousTicks, current), |current|), current)
  }

  /** `getCPUUsage(previousTicks:)`: one pass over the processors, collecting
      their ticks and usages and summing user, system and idle ticks. */
  method GetCPUUsage(previousTicks: Option<seq<CoreTicks>>, processorInfo: Option<seq<CoreTicks>>)
    returns (metrics: CPUMetrics, ticks: seq<CoreTicks>)
    requires CanSubtract(previousTicks, processorInfo)
    ensures CPUResult(metrics, ticks) == Sample(previousTicks, processorInfo)
  {
    if processorInfo.None? {
      return NoCPU, previousTicks.GetOr([]);
    }
    var info := processorInfo.value;
    var cpuCount := |info|;
    var currentTicks: seq<CoreTicks> := [];
    var coreUsages: seq<real> := [];
    var totalUser, totalSystem, totalIdle := 0, 0, 0;

    for i := 0 to cpuCount
      invariant currentTicks == info[..i]
      invariant |coreUsages| == i
      invariant forall j :: 0 <= j < i ==> coreUsages[j] == CoreUsage(previousTicks, info, j)
      invariant totalUser == SumOf(info[..i], User)
      invariant totalSystem == SumOf(info[..i], System)
      invariant totalIdle == SumOf(info[..i], Idle)
    {
      var tick := info[i];
      assert info[..i + 1] == info[..i] + [tick];
      currentTicks := currentTicks + [tick];
      totalUser := totalUser + tick.user;
      totalSystem := totalSystem + tick.system;
      totalIdle := totalIdle + tick.idle;

      if previousTicks.Some? && i < |previousTicks.value| {
        var prev := previousTicks.value[i];
        var deltaUser: nat := tick.user - prev.user;
        var deltaSystem: nat := tick.system - prev.system;
        var deltaIdle: nat := tick.idle - prev.idle;
        var deltaNice: nat := tick.nice - prev.nice;
        var deltaTotal := deltaUser + deltaSystem + deltaIdle + deltaNice;
        if deltaTotal > 0 {
          var usage := (deltaUser + deltaSystem + deltaNice) as real / deltaTotal as real * 100.0;
          coreUsages := coreUsages + [usage];
        } else {
          coreUsages := coreUsages + [0.0];
        }
      } else {
        coreUsages := coreUsages + [0.0];
      }
    }
    assert info[..cpuCount] == info;

    var totalUsage := 0.0;
    if previousTicks.Some? {
      var prev := previousTicks.value;
      var prevTotalUser := SumOf(prev, User);
      var prevTotalSystem := SumOf(prev, System);
      var prevTotalIdle := SumOf(prev, Idle);
      var prevTotalNice := SumOf(prev, Nice);
      var currTotalNice := SumOf(currentTicks, Nice);

      var dUser: nat := totalUser - prevTotalUser;
      var dSystem: nat := totalSystem - prevTotalSystem;
      var dIdle: nat := totalIdle - prevTotalIdle;
      var dNice: nat := currTotalNice - prevTotalNice;
      var dTotal := dUser + dSystem + dIdle + dNice;
      if dTotal > 0 {
        totalUsage := (dUser + dSystem + dNice) as real / dTotal as real * 100.0;
      }
    }

    metrics := CPUMetrics(totalUsage, coreUsages, cpuCount);
    ticks := currentTicks;
  }

  /** A failed query changes nothing but the metrics: the ticks handed back
      are the previous ones (or none), and the usages are empty. */
  lemma FailedQueryKeepsBaseline(previousTicks: Option<seq<CoreTicks>>)
    ensures Sample(previousTicks, None).metrics == CPUMetrics(0.0, [], 0)
    ensures previousTicks.Some? ==> Sample(previousTicks, None).ticks == previousTicks.value
    ensures previousTicks.None? ==> Sample(previousTicks, None).ticks == []
  {
  }

  /** A successful query hands back this call's ticks, and one usage per
      processor read. */
  lemma SampleShape(previousTicks: Option<seq<CoreTicks>>, current: seq<CoreTicks>)
    requires CanSubtract(previousTicks, Some(current))
    ensures Sample(previousTicks, Some(current)).ticks == current
    ensures |Sample(previousTicks, Some(current)).metrics.coreUsages| == |current|
    ensures Sample(previousTicks, Some(current)).metrics.coreCount == |current|
  {
  }

  /** Every usage, per core and aggregate, is a percentage. */
  lemma UsagesArePercentages(previousTicks: Option<seq<CoreTicks>>, processorInfo: Option<seq<CoreTicks>>)
    requires CanSubtract(previousTicks, processorInfo)
    ensures 0.0 <= Sample(previousTicks, processorInfo).metrics.totalUsage <= 100.0
    ensures var usages := Sample(previousTicks, processorInfo).metrics.coreUsages;
      forall i :: 0 <= i < |usages| ==> 0.0 <= usages[i] <= 100.0
  {
    if processorInfo.Some? {
      var current := processorInfo.value;
      var usages := Sample(previousTicks, processorInfo).metrics.coreUsages;
      forall i | 0 <= i < |usages| ensures 0.0 <= usages[i] <= 100.0 {
        if previousTicks.Some? && i < |previousTicks.value| {
          var d := Delta(previousTicks.value[i], current[i]);
          UsageIsPercentage(d.Busy(), d.Total());
        }
      }
      if previousTicks.Some? {
        var d := Delta(Summed(previousTicks.value), Summed(current));
        UsageIsPercentage(d.Busy(), d.Total());
      }
    }
  }

  /** Without a previous snapshot (the first call) every usage is 0. */
  lemma FirstCallReportsZero(current: seq<CoreTicks>)
    ensures Sample(None, Some(current)).metrics.totalUsage == 0.0
    ensures var usages := Sample(None, Some(current)).metrics.coreUsages;
      forall i :: 0 <= i < |usages| ==> usages[i] == 0.0
  {
  }

  /** Per-core usage follows the definition `100 * (dUser + dSystem + dNice) / dTotal`,
      and cores the previous snapshot did not have report 0. */
  lemma CoreUsageDefinition(previous: seq<CoreTicks>, current: seq<CoreTicks>, i: nat)
    requires CanSubtract(Some(previous), Some(current)) && i < |current|
    ensures var u := Sample(Some(previous), Some(current)).metrics.coreUsages[i];
      if i < |previous| then
        var total := current[i].Total() - previous[i].Total();
        var busy := current[i].Busy() - previous[i].Busy();
        (total == 0 ==> u == 0.0) && (total > 0 ==> u * total as real == busy as real * 100.0)
      else
        u == 0.0
  {
    if i < |previous| {
      var d := Delta(previous[i], current[i]);
      DeltaOfTotals(previous[i], current[i]);
      UsageIsPercentage(d.Busy(), d.Total());
    }
  }

  /** Ticks of all cores together, in all states and in the busy ones. */
  function TotalTicks(ticks: seq<CoreTicks>): nat {
    if ticks == [] then 0 else TotalTicks(ticks[..|ticks| - 1]) + ticks[|ticks| - 1].Total()
  }

  function BusyTicks(ticks: seq<CoreTicks>): nat {
    if ticks == [] then 0 else BusyTicks(ticks[..|ticks| - 1]) + ticks[|ticks| - 1].Busy()
  }

  /** Adding up each core's total (or busy) ticks counts the same ticks as
      summing each field over the cores and adding the fields up. */
  lemma {:induction false} SummedCountsEveryTick(ticks: seq<CoreTicks>)
    ensures TotalTicks(ticks) == SumOf(ticks, User) + SumOf(ticks, System) + SumOf(ticks, Idle) + SumOf(ticks, Nice)
    ensures BusyTicks(ticks) == SumOf(ticks, User) + SumOf(ticks, System) + SumOf(ticks, Nice)
    decreases |ticks|
  {
    if ticks != [] {
      SummedCountsEveryTick(ticks[..|ticks| - 1]);
    }
  }

  /** Ticks elapsed on all cores between two snapshots, in all states and
      in the busy ones. */
  function ElapsedTicks(previous: seq<CoreTicks>, current: seq<CoreTicks>): int {
    TotalTicks(current) - TotalTicks(previous)
  }

  function ElapsedBusyTicks(previous: seq<CoreTicks>, current: seq<CoreTicks>): int {
    BusyTicks(current) - BusyTicks(previous)
  }

  /** The whole machine's counters move by the ticks elapsed on all cores. */
  lemma MachineDelta(previous: seq<CoreTicks>, current: seq<CoreTicks>)
    requires SumsNonDecreasing(previous, current)
    ensures Delta(Summed(previous), Summed(current)).Total() == ElapsedTicks(previous, current)
    ensures Delta(Summed(previous), Summed(current)).Busy() == ElapsedBusyTicks(previous, current)
  {
    SummedCountsEveryTick(previous);
    SummedCountsEveryTick(current);
  }

  /** The aggregate usage is the busy share of all ticks elapsed on all
      cores: 100 times the busy ticks elapsed over the ticks elapsed, a
      percentage, and 0 when no tick elapsed. */
  lemma AggregateUsageDefinition(previous: seq<CoreTicks>, current: seq<CoreTicks>)
    requires CanSubtract(Some(previous), Some(current))
    ensures var u := Sample(Some(previous), Some(current)).metrics.totalUsage;
      var total := ElapsedTicks(previous, current);
      var busy := ElapsedBusyTicks(previous, current);
      0 <= busy <= total && 0.0 <= u <= 100.0 &&
      (total == 0 ==> u == 0.0) && (total > 0 ==> u == busy as real / total as real * 100.0)
  {
    var d := Delta(Summed(previous), Summed(current));
    MachineDelta(previous, current);
    UsageIsPercentage(d.Busy(), d.Total());
  }

  /** Summing fields over a snapshot that only grew on its existing cores
      (cores may be added at the end, none removed) never goes down: the
      situation in which `CanSubtract` holds. */
  lemma {:induction false} SumOfGrows(previous: seq<CoreTicks>, current: seq<CoreTicks>, f: Field)
    requires |previous| <= |current|
    requires CoresNonDecreasing(previous, current)
    ensures SumOf(previous, f) <= SumOf(current, f)
    decreases |current|
  {
    if current == [] {
    } else if |previous| == |current| {
      var n := |current| - 1;
      assert NotBelow(previous[n], current[n]);
      assert CoresNonDecreasing(previous[..n], current[..n]);
      SumOfGrows(previous[..n], current[..n], f);
    } else {
      var n := |current| - 1;
      assert CoresNonDecreasing(previous, current[..n]);
      SumOfGrows(previous, current[..n], f);
    }
  }

  /** Cores counted forward and none disappeared: the aggregate subtraction
      is safe too. */
  lemma GrowingSnapshotCanSubtract(previous: seq<CoreTicks>, current: seq<CoreTicks>)
    requires |previous| <= |current|
    requires CoresNonDecreasing(previous, current)
    ensures CanSubtract(Some(previous), Some(current))
  {
    SumOfGrows(previous, current, User);
    SumOfGrows(previous, current, System);
    SumOfGrows(previous, current, Idle);
    SumOfGrows(previous, current, Nice);
  }

  /** After a failed first query the baseline handed back is `[]`, not
      "none": the next call then reports 0 for every core but measures the
      aggregate against zero counters, i.e. over all ticks since boot. */
  lemma EmptyBaselineMeasuresSinceBoot(current: seq<CoreTicks>)
    ensures Sample(None, None).ticks == []
    ensures CanSubtract(Some([]), Some(current))
    ensures var usages := Sample(Some([]), Some(current)).metrics.coreUsages;
      forall i :: 0 <= i < |usages| ==> usages[i] == 0.0
    ensures Sample(Some([]), Some(current)).metrics.totalUsage == BusyShare(Summed(current))
  {
    assert Summed([]) == CoreTicks(0, 0, 0, 0);
    assert Delta(Summed([]), Summed(current)) == Summed(current);
  }

  lemma SumOfPair(a: CoreTicks, b: CoreTicks, f: Field)
    ensures SumOf([a, b], f) == a.Get(f) + b.Get(f)
  {
    assert SumOf([a], f) == a.Get(f) by {
      assert [a][..0] == [];
    }
    assert [a, b][..1] == [a];
  }

  /** The aggregate weighs each core by its elapsed ticks: one core busy for
      10 of 10 ticks and one idle for 90 give 10%, not the 50% average. */
  lemma AggregateIsNotAnAverage()
    ensures var previous := [CoreTicks(0, 0, 0, 0), CoreTicks(0, 0, 0, 0)];
      var current := [CoreTicks(10, 0, 0, 0), CoreTicks(0, 0, 90, 0)];
      CanSubtract(Some(previous), Some(current)) &&
      Sample(Some(previous), Some(current)).metrics.coreUsages == [100.0, 0.0] &&
      Sample(Some(previous), Some(current)).metrics.totalUsage == 10.0
  {
    var previous := [CoreTicks(0, 0, 0, 0), CoreTicks(0, 0, 0, 0)];
    var current := [CoreTicks(10, 0, 0, 0), CoreTicks(0, 0, 90, 0)];
    forall f: Field ensures SumOf(previous, f) == 0 && SumOf(current, f) == current[0].Get(f) + current[1].Get(f) {
      SumOfPair(previous[0], previous[1], f);
      SumOfPair(current[0], current[1], f);
    }
    assert Summed(previous) == CoreTicks(0, 0, 0, 0);
    assert Summed(current) == CoreTicks(10, 0, 90, 0);
  }
}
