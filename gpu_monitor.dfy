/** GPU sampler (Monitors/GPUMonitor.swift): the `PerformanceStatistics`
    dictionary of the first accelerator entry that has one. The entry list
    is an input (`None` when the matching call fails); each entry carries
    its property dictionary, `None` when it cannot be read. */
module GPUMonitor {
  import opened Wrappers
  import opened MetricModels
  import opened Registry

  /** One `IOAccelerator` registry entry. */
  type Entry = Option<map<string, Property>>

  /** The entry's `PerformanceStatistics` dictionary, if it is readable and
      holds one. */
  function PerformanceStatistics(entry: Entry): Option<map<string, Scalar>> {
    if entry.Some? && "PerformanceStatistics" in entry.value && entry.value["PerformanceStatistics"].Dict?
    then Some(entry.value["PerformanceStatistics"].entries)
    else None
  }

  /** The statistics of the first entry that has them. */
  function FirstStatistics(entries: seq<Entry>): (r: Option<map<string, Scalar>>)
    ensures r.None? <==> forall j :: 0 <= j < |entries| ==> PerformanceStatistics(entries[j]).None?
  {
    if entries == [] then None
    else if PerformanceStatistics(entries[0]).Some? then PerformanceStatistics(entries[0])
    else
      var r := FirstStatistics(entries[1..]);
      assert forall j :: 1 <= j < |entries| ==> entries[j] == entries[1..][j - 1];
      r
  }

  /** A utilisation percentage: the integer under `key`, or 0. */
  function Utilization(stats: map<string, Scalar>, key: string): real {
    var v := AsInt(Lookup(stats, key));
    if v.Some? then v.value as real else 0.0
  }

  /** A memory figure would trap when it bridges to `Int` but not to
      `UInt64` (a negative number fed to `UInt64(_:)`). */
  predicate MemoryTraps(stats: map<string, Scalar>, key: string) {
    var v := Lookup(stats, key);
    AsUInt64(v).None? && AsInt(v).Some? && AsInt(v).value < 0
  }

  /** A memory figure: the `UInt64` form, else the `Int` form, else 0.
      A value reaching the `Int` form is negative
      (`Registry.IntOnlyValuesAreNegative`) and traps, so without a trap
      the figure is the `UInt64` form or 0. */
  function Memory(stats: map<string, Scalar>, key: string): nat
    requires !MemoryTraps(stats, key)
  {
    var v := Lookup(stats, key);
    if AsUInt64(v).Some? then AsUInt64(v).value else 0
  }

  function Extracted(stats: map<string, Scalar>): GPUMetrics
    requires !MemoryTraps(stats, "Alloc system memory") && !MemoryTraps(stats, "In use system memory")
  {
    GPUMetrics(
      Utilization(stats, "Device Utilization %"),
      Utilization(stats, "Renderer Utilization %"),
      Utilization(stats, "Tiler Utilization %"),
      Memory(stats, "Alloc system memory"),
      Memory(stats, "In use system memory"))
  }

  /** The source converts with `UInt64(_:)` and traps on a negative `Int`
      memory figure; callers supply entries where the consulted one has none. */
  predicate NoTrap(entries: Option<seq<Entry>>) {
    entries.Some? ==>
      var first := FirstStatistics(entries.value);
      first.Some? ==>
        !MemoryTraps(first.value, "Alloc system memory") && !MemoryTraps(first.value, "In use system memory")
  }

  /** What one call of `getGPUMetrics` returns. */
  function Sample(entries: Option<seq<Entry>>): GPUMetrics
    requires NoTrap(entries)
  {
    if entries.None? then NoGPU
    else
      match FirstStatistics(entries.value)
      case None => NoGPU
      case Some(stats) => Extracted(stats)
  }

  /** `getGPUMetrics()`: walk the entries, fill in the fields from the first
      one with statistics, and stop there. */
  method GetGPUMetrics(entries: Option<seq<Entry>>) returns (metrics: GPUMetrics)
    requires NoTrap(entries)
    ensures metrics == Sample(entries)
  {
    metrics := NoGPU;

    if entries.None? {
      return;
    }
    var list := entries.value;

    var k := 0;
    while k < |list|
      invariant 0 <= k <= |list|
      invariant FirstStatistics(list) == FirstStatistics(list[k..])
      invariant metrics == NoGPU
    {
      var entry := list[k];
      assert list[k..][1..] == list[k + 1..];
      k := k + 1;

      if entry.None? {
        continue;
      }
      var props := entry.value;

      if !("PerformanceStatistics" in props && props["PerformanceStatistics"].Dict?) {
        continue;
      }
      var perfStats := props["PerformanceStatistics"].entries;

      var deviceUtil := AsInt(Lookup(perfStats, "Device Utilization %"));
      if deviceUtil.Some? {
        metrics := metrics.(deviceUtilization := deviceUtil.value as real);
      }
      var rendererUtil := AsInt(Lookup(perfStats, "Renderer Utilization %"));
      if rendererUtil.Some? {
        metrics := metrics.(rendererUtilization := rendererUtil.value as real);
      }
      var tilerUtil := AsInt(Lookup(perfStats, "Tiler Utilization %"));
      if tilerUtil.Some? {
        metrics := metrics.(tilerUtilization := tilerUtil.value as real);
      }
      var allocMem := Lookup(perfStats, "Alloc system memory");
      if AsUInt64(allocMem).Some? {
        metrics := metrics.(allocatedSystemMemory := AsUInt64(allocMem).value);
      } else if AsInt(allocMem).Some? {
        assert false;
      }
      var inUseMem := Lookup(perfStats, "In use system memory");
      if AsUInt64(inUseMem).Some? {
        metrics := metrics.(inUseSystemMemory := AsUInt64(inUseMem).value);
      } else if AsInt(inUseMem).Some? {
        assert false;
      }

      break;
    }
  }

  /** The first entry with statistics decides the result; entries after it
      are never consulted. */
  lemma {:induction false} FirstQualifyingEntryDecides(entries: seq<Entry>, k: nat)
    requires k < |entries| && PerformanceStatistics(entries[k]).Some?
    requires forall j :: 0 <= j < k ==> PerformanceStatistics(entries[j]).None?
    ensures FirstStatistics(entries) == PerformanceStatistics(entries[k])
    decreases k
  {
    if k > 0 {
      var tail := entries[1..];
      assert tail[k - 1] == entries[k];
      assert forall j :: 0 <= j < k - 1 ==> tail[j] == entries[j + 1];
      FirstQualifyingEntryDecides(tail, k - 1);
    }
  }

  /** Matching failure, or no entry with statistics: every field is 0. */
  lemma NothingToReadGivesZero(entries: Option<seq<Entry>>)
    requires entries.None? || forall j :: 0 <= j < |entries.value| ==> PerformanceStatistics(entries.value[j]).None?
    ensures Sample(entries) == NoGPU
  {
  }

  /** Each field of the consulted dictionary: a utilisation is its key's
      integer when it bridges to `Int`, else 0; a memory figure is its
      key's value when it bridges to `UInt64`, else 0. */
  lemma ExtractedFieldsDefaultToZero(stats: map<string, Scalar>)
    requires !MemoryTraps(stats, "Alloc system memory") && !MemoryTraps(stats, "In use system memory")
    ensures var m := Extracted(stats);
      (m.deviceUtilization != 0.0 ==> "Device Utilization %" in stats && stats["Device Utilization %"].Number?) &&
      (AsInt(Lookup(stats, "Device Utilization %")).None? ==> m.deviceUtilization == 0.0) &&
      (AsInt(Lookup(stats, "Renderer Utilization %")).None? ==> m.rendererUtilization == 0.0) &&
      (AsInt(Lookup(stats, "Tiler Utilization %")).None? ==> m.tilerUtilization == 0.0) &&
      (AsUInt64(Lookup(stats, "Alloc system memory")).None? ==> m.allocatedSystemMemory == 0) &&
      (AsUInt64(Lookup(stats, "Alloc system memory")).Some? ==>
        m.allocatedSystemMemory == stats["Alloc system memory"].n) &&
      (AsInt(Lookup(stats, "Tiler Utilization %")).Some? ==>
        m.tilerUtilization == stats["Tiler Utilization %"].n as real) &&
      (AsInt(Lookup(stats, "Device Utilization %")).Some? ==>
        m.deviceUtilization == AsInt(Lookup(stats, "Device Utilization %")).value as real) &&
      (AsInt(Lookup(stats, "Renderer Utilization %")).Some? ==>
        m.rendererUtilization == AsInt(Lookup(stats, "Renderer Utilization %")).value as real) &&
      (AsUInt64(Lookup(stats, "In use system memory")).Some? ==>
        m.inUseSystemMemory == AsUInt64(Lookup(stats, "In use system memory")).value) &&
      (AsUInt64(Lookup(stats, "In use system memory")).None? ==> m.inUseSystemMemory == 0)
  {
  }
}
