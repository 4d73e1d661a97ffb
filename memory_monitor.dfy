/** Memory sampler (Monitors/MemoryMonitor.swift): page counts become bytes,
    "used" memory and pressure are derived, and page-in/page-out counters
    become byte rates against the previous snapshot. The OS queries are
    inputs: `hw.memsize`, `host_statistics64` (`None` when it fails) and the
    clock reading taken after them. */
module MemoryMonitor {
  import opened Wrappers
  import opened MetricModels
  import opened Counters

  /** The page size the source assumes (Apple Silicon), in bytes. */
  const PageSize: nat := 16384

  /** Page-in/page-out counters and when they were read. */
  datatype MemorySnapshot = MemorySnapshot(pageIns: nat, pageOuts: nat, timestamp: real)

  /** The fields of `vm_statistics64` the sampler reads, all in pages or page counts. */
  datatype VMStatistics = VMStatistics(
    activeCount: nat,
    inactiveCount: nat,
    wireCount: nat,
    compressorPageCount: nat,
    freeCount: nat,
    pageins: nat,
    pageouts: nat)

  /** What one call reads from the system. */
  datatype MemoryQuery = MemoryQuery(memSize: nat, vmStats: Option<VMStatistics>, now: real)

  /** Pressure is only computed when the VM statistics were read, and then
      the source divides by the physical memory size. */
  predicate HasMemorySize(query: MemoryQuery) {
    query.vmStats.Some? ==> query.memSize > 0
  }

  /** Bytes per second paged between two counter readings; a counter that
      went down counts as no paging. */
  function PageRate(current: nat, previous: nat, elapsed: real): real
    requires elapsed > 0.0
  {
    Rate(ClampedDelta(current, previous) * PageSize, elapsed)
  }

  datatype MemoryResult = MemoryResult(metrics: MemoryMetrics, snapshot: MemorySnapshot)

  /** What one call of `getMemoryUsage` returns. */
  function Sample(previous: Option<MemorySnapshot>, query: MemoryQuery): MemoryResult
    requires HasMemorySize(query)
  {
    match query.vmStats
    case None =>
      MemoryResult(NoMemory.(totalBytes := query.memSize), MemorySnapshot(0, 0, query.now))
    case Some(vm) =>
      var used := (vm.activeCount + vm.wireCount + vm.compressorPageCount + vm.inactiveCount) * PageSize;
      var timed := previous.Some? && query.now - previous.value.timestamp > 0.0;
      var readRate := if timed then PageRate(vm.pageins, previous.value.pageIns, query.now - previous.value.timestamp) else 0.0;
      var writeRate := if timed then PageRate(vm.pageouts, previous.value.pageOuts, query.now - previous.value.timestamp) else 0.0;
      MemoryResult(
        NoMemory.(
          totalBytes := query.memSize,
          activeBytes := vm.activeCount * PageSize,
          inactiveBytes := vm.inactiveCount * PageSize,
          wiredBytes := vm.wireCount * PageSize,
          compressedBytes := vm.compressorPageCount * PageSize,
          freeBytes := vm.freeCount * PageSize,
          usedBytes := used,
          pressure := used as real / query.memSize as real * 100.0,
          readBytesPerSec := readRate,
          writeBytesPerSec := writeRate),
        MemorySnapshot(vm.pageins, vm.pageouts, query.now))
  }

  /** `getMemoryUsage(previous:)`: fills in the metrics and the snapshot
      field by field. */
  method GetMemoryUsage(previous: Option<MemorySnapshot>, query: MemoryQuery)
    returns (metrics: MemoryMetrics, snapshot: MemorySnapshot)
    requires HasMemorySize(query)
    ensures MemoryResult(metrics, snapshot) == Sample(previous, query)
  {
    metrics := NoMemory;
    var memSize := query.memSize;
    metrics := metrics.(totalBytes := memSize);

    var now := query.now;
    snapshot := MemorySnapshot(0, 0, now);

    if query.vmStats.Some? {
      var vmStats := query.vmStats.value;
      var pageSize := PageSize;

      var active := vmStats.activeCount * pageSize;
      var inactive := vmStats.inactiveCount * pageSize;
      var wired := vmStats.wireCount * pageSize;
      var compressed := vmStats.compressorPageCount * pageSize;
      var free := vmStats.freeCount * pageSize;

      metrics := metrics.(activeBytes := active);
      metrics := metrics.(inactiveBytes := inactive);
      metrics := metrics.(wiredBytes := wired);
      metrics := metrics.(compressedBytes := compressed);
      metrics := metrics.(freeBytes := free);

      metrics := metrics.(usedBytes := active + wired + compressed + inactive);

      var usedPercent := metrics.usedBytes as real / memSize as real * 100.0;
      metrics := metrics.(pressure := usedPercent);

      var currentPageIns := vmStats.pageins;
      var currentPageOuts := vmStats.pageouts;

      snapshot := snapshot.(pageIns := currentPageIns);
      snapshot := snapshot.(pageOuts := currentPageOuts);

      if previous.Some? {
        var prev := previous.value;
        var elapsed := now - prev.timestamp;
        if elapsed > 0.0 {
          var deltaIns := if currentPageIns >= prev.pageIns then currentPageIns - prev.pageIns else 0;
          var deltaOuts := if currentPageOuts >= prev.pageOuts then currentPageOuts - prev.pageOuts else 0;
          var pageSize64 := 16384;
          metrics := metrics.(readBytesPerSec := (deltaIns * pageSize64) as real / elapsed);
          metrics := metrics.(writeBytesPerSec := (deltaOuts * pageSize64) as real / elapsed);
        }
      }
    }
  }

  /** A failed VM query still reports the physical memory size, and nothing
      else: zero metrics and a snapshot with zero counters taken now. */
  lemma FailedQueryReportsOnlyTotal(previous: Option<MemorySnapshot>, memSize: nat, now: real)
    ensures var r := Sample(previous, MemoryQuery(memSize, None, now));
      r.metrics.totalBytes == memSize && r.metrics.usedBytes == 0 && r.metrics.pressure == 0.0 &&
      r.metrics.readBytesPerSec == 0.0 && r.metrics.writeBytesPerSec == 0.0 &&
      r.snapshot == MemorySnapshot(0, 0, now)
  {
  }

  /** Every byte figure is its page count times the page size, and "used"
      is active + wired + compressed + inactive: free pages are not used. */
  lemma UsedIsFourCategories(previous: Option<MemorySnapshot>, query: MemoryQuery)
    requires HasMemorySize(query) && query.vmStats.Some?
    ensures var m := Sample(previous, query).metrics; var vm := query.vmStats.value;
      m.activeBytes == vm.activeCount * PageSize && m.inactiveBytes == vm.inactiveCount * PageSize &&
      m.wiredBytes == vm.wireCount * PageSize && m.compressedBytes == vm.compressorPageCount * PageSize &&
      m.freeBytes == vm.freeCount * PageSize &&
      m.usedBytes == m.activeBytes + m.wiredBytes + m.compressedBytes + m.inactiveBytes &&
      m.usedBytes + m.freeBytes == (vm.activeCount + vm.wireCount + vm.compressorPageCount + vm.inactiveCount + vm.freeCount) * PageSize
  {
  }

  /** Pressure is "used" as a percentage of physical memory. */
  lemma PressureIsUsedShare(previous: Option<MemorySnapshot>, query: MemoryQuery)
    requires HasMemorySize(query) && query.vmStats.Some?
    ensures var m := Sample(previous, query).metrics;
      m.pressure * query.memSize as real == m.usedBytes as real * 100.0 &&
      (m.usedBytes <= query.memSize ==> m.pressure <= 100.0) && m.pressure >= 0.0
  {
    var m := Sample(previous, query).metrics;
    var share := m.usedBytes as real / query.memSize as real;
    assert share * query.memSize as real == m.usedBytes as real;
    assert m.usedBytes <= query.memSize ==> share <= 1.0;
  }

  /** The returned snapshot carries this call's counters and clock reading. */
  lemma SnapshotIsThisCall(previous: Option<MemorySnapshot>, query: MemoryQuery)
    requires HasMemorySize(query) && query.vmStats.Some?
    ensures Sample(previous, query).snapshot ==
      MemorySnapshot(query.vmStats.value.pageins, query.vmStats.value.pageouts, query.now)
  {
  }

  /** Rates are 0 on the first call and when no time has passed; otherwise
      they are the paged bytes (a decreased counter counting as none) over
      the elapsed seconds, and never negative. */
  lemma RatesFollowClampedDeltas(previous: Option<MemorySnapshot>, query: MemoryQuery)
    requires HasMemorySize(query) && query.vmStats.Some?
    ensures var m := Sample(previous, query).metrics; var vm := query.vmStats.value;
      m.readBytesPerSec >= 0.0 && m.writeBytesPerSec >= 0.0 &&
      (previous.None? || query.now <= previous.value.timestamp ==>
        m.readBytesPerSec == 0.0 && m.writeBytesPerSec == 0.0) &&
      (previous.Some? && query.now > previous.value.timestamp ==>
        var elapsed := query.now - previous.value.timestamp;
        m.readBytesPerSec * elapsed == (ClampedDelta(vm.pageins, previous.value.pageIns) * PageSize) as real &&
        m.writeBytesPerSec * elapsed == (ClampedDelta(vm.pageouts, previous.value.pageOuts) * PageSize) as real &&
        (vm.pageins < previous.value.pageIns ==> m.readBytesPerSec == 0.0) &&
        (vm.pageouts < previous.value.pageOuts ==> m.writeBytesPerSec == 0.0))
  {
  }

  /** 500 page-ins over 2 seconds are 4,096,000 bytes per second. */
  lemma ReadRateExample()
    ensures var q := MemoryQuery(17179869184, Some(VMStatistics(0, 0, 0, 0, 0, 1500, 0)), 2.0);
      Sample(Some(MemorySnapshot(1000, 0, 0.0)), q).metrics.readBytesPerSec == 4096000.0
  {
  }
}
