/** The orchestrator (Monitors/SystemMonitor.swift): one `update` cycle
    runs every sampler, threads each sampler's returned baseline into its
    next call, and appends to the bounded chart histories; start and stop
    form a two-state machine. The clock and every operating-system answer
    of a cycle are the `CycleInput`; the repeating timer is the flag
    `timerScheduled`, and each of its firings is a call of `Update`. */
module SystemMonitor {
  import opened Wrappers
  import opened MetricModels
  import opened History
  import Strings
  import CPUMonitor
  import MemoryMonitor
  import NetworkMonitor
  import DiskMonitor
  import GPUMonitor
  import TemperatureMonitor
  import NPUMonitor

  /** What one cycle reads: `Date()` at its start, then each query's answer. */
  datatype CycleInput = CycleInput(
    now: real,
    processorInfo: Option<seq<CPUMonitor.CoreTicks>>,
    memoryQuery: MemoryMonitor.MemoryQuery,
    volumes: Option<seq<DiskMonitor.VolumeURL>>,
    networkQuery: NetworkMonitor.NetworkQuery,
    accelerators: Option<seq<GPUMonitor.Entry>>,
    services: Option<seq<TemperatureMonitor.Service>>,
    devices: Option<seq<NPUMonitor.Device>>)

  /** The value of every field of a monitor. */
  datatype MonitorState = MonitorState(
    cpu: CPUMetrics,
    memory: MemoryMetrics,
    disk: DiskMetrics,
    network: NetworkMetrics,
    gpu: GPUMetrics,
    temperature: TemperatureMetrics,
    npu: NPUMetrics,
    cpuHistory: seq<MetricSample>,
    cpuCoreHistory: seq<seq<MetricSample>>,
    memoryPressureHistory: seq<MetricSample>,
    memoryReadHistory: seq<MetricSample>,
    memoryWriteHistory: seq<MetricSample>,
    networkInHistory: seq<MetricSample>,
    networkOutHistory: seq<MetricSample>,
    gpuHistory: seq<MetricSample>,
    temperatureHistory: map<string, seq<MetricSample>>,
    npuHistory: seq<MetricSample>,
    cpuTicks: Option<seq<CPUMonitor.CoreTicks>>,
    memorySnapshot: Option<MemoryMonitor.MemorySnapshot>,
    networkSnapshot: Option<NetworkMonitor.NetworkSnapshot>,
    timerScheduled: bool,
    isRunning: bool)

  /** A freshly created monitor. */
  const Initial := MonitorState(
    NoCPU, NoMemory, NoDisk, NoNetwork, NoGPU, NoTemperature, NoNPU,
    [], [], [], [], [], [], [], [], map[], [],
    None, None, None, false, false)

  /** Every per-core series within the 60-sample bound. */
  predicate CoresBounded(histories: seq<seq<MetricSample>>) {
    forall i :: 0 <= i < |histories| ==> |histories[i]| <= MaxHistoryCount
  }

  /** Every per-sensor series within the 60-sample bound. */
  predicate SeriesBounded(histories: map<string, seq<MetricSample>>) {
    forall name :: name in histories ==> |histories[name]| <= MaxHistoryCount
  }

  /** Every history within the 60-sample bound. */
  predicate Bounded(s: MonitorState) {
    |s.cpuHistory| <= MaxHistoryCount && |s.memoryPressureHistory| <= MaxHistoryCount &&
    |s.memoryReadHistory| <= MaxHistoryCount && |s.memoryWriteHistory| <= MaxHistoryCount &&
    |s.networkInHistory| <= MaxHistoryCount && |s.networkOutHistory| <= MaxHistoryCount &&
    |s.gpuHistory| <= MaxHistoryCount && |s.npuHistory| <= MaxHistoryCount &&
    CoresBounded(s.cpuCoreHistory) && SeriesBounded(s.temperatureHistory)
  }

  /** Bounded histories, and a timer exactly while running. */
  predicate ValidState(s: MonitorState) {
    Bounded(s) && s.timerScheduled == s.isRunning
  }

  /** `Int(now.timeIntervalSince1970)`: the epoch second, truncated toward zero. */
  function EpochSecond(now: real): (r: int)
    ensures 0.0 <= now ==> r as real <= now < r as real + 1.0
    ensures now < 0.0 ==> r as real - 1.0 < now <= r as real
  {
    if now >= 0.0 then now.Floor else -((-now).Floor)
  }

  /** The disk is re-read on a whole multiple of ten seconds, or while no
      volume is held. */
  predicate DiskDue(now: real, disk: DiskMetrics) {
    EpochSecond(now) % 10 == 0 || disk.volumes == []
  }

  function CoreSample(now: real, usage: real, core: nat): MetricSample {
    MetricSample(now, usage, "Core " + Strings.Decimal(core))
  }

  /** The per-core histories before this cycle's samples: created, one
      empty series per core, only when none exist and usages were read. */
  function PreparedCoreHistory(histories: seq<seq<MetricSample>>, cpu: CPUMetrics): seq<seq<MetricSample>> {
    if histories == [] && cpu.coreUsages != [] then seq(cpu.coreCount, _ => []) else histories
  }

  /** Each core's usage goes to its series when that series exists. */
  function CoreHistoryAfter(histories: seq<seq<MetricSample>>, usages: seq<real>, now: real): seq<seq<MetricSample>> {
    seq(|histories|, j requires 0 <= j < |histories| =>
      if j < |usages| then Appended(histories[j], CoreSample(now, usages[j], j)) else histories[j])
  }

  function HistoryOf(histories: map<string, seq<MetricSample>>, name: string): seq<MetricSample> {
    if name in histories then histories[name] else []
  }

  /** Each sensor's reading appended to the series under its display name. */
  function TemperatureHistoryAfter(histories: map<string, seq<MetricSample>>, sensors: seq<TemperatureSensor>, now: real)
    : map<string, seq<MetricSample>>
    decreases |sensors|
  {
    if sensors == [] then histories
    else
      var before := TemperatureHistoryAfter(histories, sensors[..|sensors| - 1], now);
      var sensor := sensors[|sensors| - 1];
      before[sensor.name := Appended(HistoryOf(before, sensor.name), MetricSample(now, sensor.temperature, sensor.name))]
  }

  /** What the samplers demand of a cycle: CPU counters that do not
      decrease against the held ticks, a memory size to divide by, and no
      negative GPU memory figure. */
  predicate Admissible(s: MonitorState, input: CycleInput) {
    CPUMonitor.CanSubtract(s.cpuTicks, input.processorInfo) &&
    MemoryMonitor.HasMemorySize(input.memoryQuery) &&
    GPUMonitor.NoTrap(input.accelerators)
  }


  /** The CPU part of a cycle: usage against the held ticks, the returned
      ticks held, and a sample for the total and for each existing core. */
  function StepCPU(s: MonitorState, input: CycleInput): MonitorState
    requires CPUMonitor.CanSubtract(s.cpuTicks, input.processorInfo)
  {
    var r := CPUMonitor.Sample(s.cpuTicks, input.processorInfo);
    s.(cpu := r.metrics, cpuTicks := Some(r.ticks),
       cpuHistory := Appended(s.cpuHistory, MetricSample(input.now, r.metrics.totalUsage, "CPU")),
       cpuCoreHistory := CoreHistoryAfter(PreparedCoreHistory(s.cpuCoreHistory, r.metrics), r.metrics.coreUsages, input.now))
  }

  /** The memory part: metrics against the held snapshot, the returned
      snapshot held, and a sample for pressure, reads and writes. */
  function StepMemory(s: MonitorState, input: CycleInput): MonitorState
    requires MemoryMonitor.HasMemorySize(input.memoryQuery)
  {
    var r := MemoryMonitor.Sample(s.memorySnapshot, input.memoryQuery);
    s.(memory := r.metrics, memorySnapshot := Some(r.snapshot),
       memoryPressureHistory := Appended(s.memoryPressureHistory, MetricSample(input.now, r.metrics.pressure, "Pressure")),
       memoryReadHistory := Appended(s.memoryReadHistory, MetricSample(input.now, r.metrics.readBytesPerSec, "Read")),
       memoryWriteHistory := Appended(s.memoryWriteHistory, MetricSample(input.now, r.metrics.writeBytesPerSec, "Write")))
  }

  /** The disk part: the volumes are re-read only when due. */
  function StepDisk(s: MonitorState, input: CycleInput): MonitorState {
    if DiskDue(input.now, s.disk) then s.(disk := DiskMonitor.Sample(input.volumes)) else s
  }

  /** The network part: speeds against the held snapshot, the returned
      snapshot held, and a sample for each direction. */
  function StepNetwork(s: MonitorState, input: CycleInput): MonitorState {
    var r := NetworkMonitor.Sample(s.networkSnapshot, input.networkQuery);
    s.(network := r.metrics, networkSnapshot := Some(r.snapshot),
       networkInHistory := Appended(s.networkInHistory, MetricSample(input.now, r.metrics.speedIn, "Download")),
       networkOutHistory := Appended(s.networkOutHistory, MetricSample(input.now, r.metrics.speedOut, "Upload")))
  }

  /** The GPU part: the metrics and a utilization sample. */
  function StepGPU(s: MonitorState, input: CycleInput): MonitorState
    requires GPUMonitor.NoTrap(input.accelerators)
  {
    var gpu := GPUMonitor.Sample(input.accelerators);
    s.(gpu := gpu, gpuHistory := Appended(s.gpuHistory, MetricSample(input.now, gpu.deviceUtilization, "GPU")))
  }

  /** The temperature part: the sensors and one sample per sensor. */
  function StepTemperature(s: MonitorState, input: CycleInput): MonitorState {
    var temperature := TemperatureMonitor.Sample(input.services);
    s.(temperature := temperature,
       temperatureHistory := TemperatureHistoryAfter(s.temperatureHistory, temperature.sensors, input.now))
  }

  /** The NPU part: the metrics and a power sample. */
  function StepNPU(s: MonitorState, input: CycleInput): MonitorState {
    var npu := NPUMonitor.Sample(input.devices);
    s.(npu := npu, npuHistory := Appended(s.npuHistory, MetricSample(input.now, npu.powerMilliwatts, "NPU")))
  }

  /** The state after one `update`: the parts in the order the source runs them. */
  function Step(s: MonitorState, input: CycleInput): MonitorState
    requires Admissible(s, input)
  {
    var afterCPU := StepCPU(s, input);
    var afterMemory := StepMemory(afterCPU, input);
    var afterDisk := StepDisk(afterMemory, input);
    var afterNetwork := StepNetwork(afterDisk, input);
    var afterGPU := StepGPU(afterNetwork, input);
    StepNPU(StepTemperature(afterGPU, input), input)
  }

  /** `startMonitoring`: nothing while running; otherwise mark running, run
      one cycle at once, and schedule the timer. */
  function Started(s: MonitorState, input: CycleInput): MonitorState
    requires !s.isRunning ==> Admissible(s, input)
  {
    if s.isRunning then s
    else Step(s.(isRunning := true), input).(timerScheduled := true)
  }

  /** `stopMonitoring`: cancel the timer and mark stopped. */
  function Stopped(s: MonitorState): MonitorState {
    s.(timerScheduled := false, isRunning := false)
  }

  /** The per-core loop of `update`: each core that has a series gets its sample. */
  method AppendCoreSamples(histories: seq<seq<MetricSample>>, usages: seq<real>, now: real)
    returns (r: seq<seq<MetricSample>>)
    ensures r == CoreHistoryAfter(histories, usages, now)
  {
    r := histories;
    for i := 0 to |usages|
      invariant |r| == |histories|
      invariant forall j :: 0 <= j < |histories| ==>
        r[j] == if j < i then Appended(histories[j], CoreSample(now, usages[j], j)) else histories[j]
    {
      if i < |r| {
        r := r[i := Appended(r[i], CoreSample(now, usages[i], i))];
      }
    }
  }

  /** The per-core lines of `update`: the series are created, one per core,
      when none exist and usages were read; then each core's usage is
      appended to its series. */
  method FillCoreHistory(histories: seq<seq<MetricSample>>, cpu: CPUMetrics, now: real)
    returns (r: seq<seq<MetricSample>>)
    ensures r == CoreHistoryAfter(PreparedCoreHistory(histories, cpu), cpu.coreUsages, now)
  {
    r := histories;
    if |r| == 0 && |cpu.coreUsages| != 0 {
      r := seq(cpu.coreCount, _ => []);
    }
    r := AppendCoreSamples(r, cpu.coreUsages, now);
  }

  /** One more sensor appends its reading to the series under its name. */
  lemma TemperatureHistoryStep(histories: map<string, seq<MetricSample>>, sensors: seq<TemperatureSensor>, now: real, i: nat)
    requires i < |sensors|
    ensures var before := TemperatureHistoryAfter(histories, sensors[..i], now);
      TemperatureHistoryAfter(histories, sensors[..i + 1], now) ==
        before[sensors[i].name := Appended(HistoryOf(before, sensors[i].name),
                                           MetricSample(now, sensors[i].temperature, sensors[i].name))]
  {
    assert sensors[..i + 1][..i] == sensors[..i];
  }

  /** The per-sensor loop of `update`: each reading appended to the series
      under its display name, a missing series starting empty. */
  method AppendTemperatureSamples(histories: map<string, seq<MetricSample>>, sensors: seq<TemperatureSensor>, now: real)
    returns (r: map<string, seq<MetricSample>>)
    ensures r == TemperatureHistoryAfter(histories, sensors, now)
  {
    r := histories;
    for i := 0 to |sensors|
      invariant r == TemperatureHistoryAfter(histories, sensors[..i], now)
    {
      var sensor := sensors[i];
      TemperatureHistoryStep(histories, sensors, now, i);
      var history := if sensor.name in r then r[sensor.name] else [];
      history := Appended(history, MetricSample(now, sensor.temperature, sensor.name));
      r := r[sensor.name := history];
    }
    assert sensors[..|sensors|] == sensors;
  }

  class SystemMonitor {
    var cpu: CPUMetrics
    var memory: MemoryMetrics
    var disk: DiskMetrics
    var network: NetworkMetrics
    var gpu: GPUMetrics
    var temperature: TemperatureMetrics
    var npu: NPUMetrics

    var cpuHistory: seq<MetricSample>
    var cpuCoreHistory: seq<seq<MetricSample>>
    var memoryPressureHistory: seq<MetricSample>
    var memoryReadHistory: seq<MetricSample>
    var memoryWriteHistory: seq<MetricSample>
    var networkInHistory: seq<MetricSample>
    var networkOutHistory: seq<MetricSample>
    var gpuHistory: seq<MetricSample>
    var temperatureHistory: map<string, seq<MetricSample>>
    var npuHistory: seq<MetricSample>

    var cpuTicks: Option<seq<CPUMonitor.CoreTicks>>
    var memorySnapshot: Option<MemoryMonitor.MemorySnapshot>
    var networkSnapshot: Option<NetworkMonitor.NetworkSnapshot>
    /** Whether the repeating two-second timer is scheduled (`timer != nil`). */
    var timerScheduled: bool
    var isRunning: bool

    function State(): MonitorState
      reads this
    {
      MonitorState(
        cpu, memory, disk, network, gpu, temperature, npu,
        cpuHistory, cpuCoreHistory, memoryPressureHistory, memoryReadHistory, memoryWriteHistory,
        networkInHistory, networkOutHistory, gpuHistory, temperatureHistory, npuHistory,
        cpuTicks, memorySnapshot, networkSnapshot, timerScheduled, isRunning)
    }

    predicate Valid()
      reads this
    {
      ValidState(State())
    }

    constructor ()
      ensures State() == Initial && Valid()
    {
      cpu, memory, disk, network := NoCPU, NoMemory, NoDisk, NoNetwork;
      gpu, temperature, npu := NoGPU, NoTemperature, NoNPU;
      cpuHistory, cpuCoreHistory := [], [];
      memoryPressureHistory, memoryReadHistory, memoryWriteHistory := [], [], [];
      networkInHistory, networkOutHistory, gpuHistory := [], [], [];
      temperatureHistory, npuHistory := map[], [];
      cpuTicks, memorySnapshot, networkSnapshot := None, None, None;
      timerScheduled, isRunning := false, false;
    }

    method StartMonitoring(input: CycleInput)
      requires Valid() && (!isRunning ==> Admissible(State(), input))
      modifies this
      ensures State() == Started(old(State()), input) && Valid()
    {
      StartedKeepsValid(State(), input);
      if isRunning {
        return;
      }
      isRunning := true;

      Update(input);

      timerScheduled := true;
    }

    method StopMonitoring()
      requires Valid()
      modifies this`timerScheduled, this`isRunning
      ensures State() == Stopped(old(State())) && Valid()
    {
      timerScheduled := false;
      isRunning := false;
    }

    /** One cycle, as the timer runs it. */
    method Update(input: CycleInput)
      requires Bounded(State()) && Admissible(State(), input)
      modifies this`cpu, this`cpuTicks, this`cpuHistory, this`cpuCoreHistory
      modifies this`memory, this`memorySnapshot, this`memoryPressureHistory, this`memoryReadHistory, this`memoryWriteHistory
      modifies this`disk, this`network, this`networkSnapshot, this`networkInHistory, this`networkOutHistory
      modifies this`gpu, this`gpuHistory, this`temperature, this`temperatureHistory, this`npu, this`npuHistory
      ensures State() == Step(old(State()), input)
      ensures Bounded(State())
      ensures old(Valid()) ==> Valid()
    {
      StepKeepsBounded(State(), input);
      UpdateCPU(input);
      UpdateMemory(input);
      UpdateDisk(input);
      UpdateNetwork(input);
      UpdateGPU(input);
      UpdateTemperature(input);
      UpdateNPU(input);
    }

    /** The CPU, memory, network and temperature parts come in pairs: `ReadX`
        runs the source's lines and says which fields they set, and
        `UpdateX` lifts that to the whole state. The pairs are kept apart so
        that the proof of the lines and the proof that nothing else changed
        are checked as two separate, smaller obligations. */
    method UpdateCPU(input: CycleInput)
      requires CPUMonitor.CanSubtract(cpuTicks, input.processorInfo)
      modifies this`cpu, this`cpuTicks, this`cpuHistory, this`cpuCoreHistory
      ensures State() == StepCPU(old(State()), input)
    {
      ReadCPU(input);
    }

    /** The CPU lines of `update`. */
    method ReadCPU(input: CycleInput)
      requires CPUMonitor.CanSubtract(cpuTicks, input.processorInfo)
      modifies this`cpu, this`cpuTicks, this`cpuHistory, this`cpuCoreHistory
      ensures var r := StepCPU(old(State()), input);
        cpu == r.cpu && cpuTicks == r.cpuTicks && cpuHistory == r.cpuHistory && cpuCoreHistory == r.cpuCoreHistory
    {
      var now := input.now;
      var cpuMetrics, ticks := CPUMonitor.GetCPUUsage(cpuTicks, input.processorInfo);
      cpu := cpuMetrics;
      cpuTicks := Some(ticks);
      cpuHistory := Appended(cpuHistory, MetricSample(now, cpuMetrics.totalUsage, "CPU"));
      cpuCoreHistory := FillCoreHistory(cpuCoreHistory, cpuMetrics, now);
    }

    method UpdateMemory(input: CycleInput)
      requires MemoryMonitor.HasMemorySize(input.memoryQuery)
      modifies this`memory, this`memorySnapshot, this`memoryPressureHistory, this`memoryReadHistory, this`memoryWriteHistory
      ensures State() == StepMemory(old(State()), input)
    {
      ReadMemory(input);
    }

    /** The memory lines of `update`. */
    method ReadMemory(input: CycleInput)
      requires MemoryMonitor.HasMemorySize(input.memoryQuery)
      modifies this`memory, this`memorySnapshot, this`memoryPressureHistory, this`memoryReadHistory, this`memoryWriteHistory
      ensures var r := StepMemory(old(State()), input);
        memory == r.memory && memorySnapshot == r.memorySnapshot && memoryPressureHistory == r.memoryPressureHistory &&
        memoryReadHistory == r.memoryReadHistory && memoryWriteHistory == r.memoryWriteHistory
    {
      var now := input.now;
      var memMetrics, snapshot := MemoryMonitor.GetMemoryUsage(memorySnapshot, input.memoryQuery);
      memory := memMetrics;
      memorySnapshot := Some(snapshot);
      memoryPressureHistory := Appended(memoryPressureHistory, MetricSample(now, memMetrics.pressure, "Pressure"));
      memoryReadHistory := Appended(memoryReadHistory, MetricSample(now, memMetrics.readBytesPerSec, "Read"));
      memoryWriteHistory := Appended(memoryWriteHistory, MetricSample(now, memMetrics.writeBytesPerSec, "Write"));
    }

    /** The disk lines of `update`. */
    method UpdateDisk(input: CycleInput)
      modifies this`disk
      ensures State() == StepDisk(old(State()), input)
    {
      if EpochSecond(input.now) % 10 == 0 || |disk.volumes| == 0 {
        disk := DiskMonitor.GetDiskUsage(input.volumes);
      }
    }

    method UpdateNetwork(input: CycleInput)
      modifies this`network, this`networkSnapshot, this`networkInHistory, this`networkOutHistory
      ensures State() == StepNetwork(old(State()), input)
    {
      ReadNetwork(input);
    }

    /** The network lines of `update`. */
    method ReadNetwork(input: CycleInput)
      modifies this`network, this`networkSnapshot, this`networkInHistory, this`networkOutHistory
      ensures var r := StepNetwork(old(State()), input);
        network == r.network && networkSnapshot == r.networkSnapshot &&
        networkInHistory == r.networkInHistory && networkOutHistory == r.networkOutHistory
    {
      var now := input.now;
      var netMetrics, netSnapshot := NetworkMonitor.GetNetworkUsage(networkSnapshot, input.networkQuery);
      network := netMetrics;
      networkSnapshot := Some(netSnapshot);
      networkInHistory := Appended(networkInHistory, MetricSample(now, netMetrics.speedIn, "Download"));
      networkOutHistory := Appended(networkOutHistory, MetricSample(now, netMetrics.speedOut, "Upload"));
    }

    /** The GPU lines of `update`. */
    method UpdateGPU(input: CycleInput)
      requires GPUMonitor.NoTrap(input.accelerators)
      modifies this`gpu, this`gpuHistory
      ensures State() == StepGPU(old(State()), input)
    {
      gpu := GPUMonitor.GetGPUMetrics(input.accelerators);
      gpuHistory := Appended(gpuHistory, MetricSample(input.now, gpu.deviceUtilization, "GPU"));
    }

    method UpdateTemperature(input: CycleInput)
      modifies this`temperature, this`temperatureHistory
      ensures State() == StepTemperature(old(State()), input)
    {
      ReadTemperature(input);
    }

    /** The temperature lines of `update`. */
    method ReadTemperature(input: CycleInput)
      modifies this`temperature, this`temperatureHistory
      ensures var r := StepTemperature(old(State()), input);
        temperature == r.temperature && temperatureHistory == r.temperatureHistory
    {
      temperature := TemperatureMonitor.GetTemperatures(input.services);
      temperatureHistory := AppendTemperatureSamples(temperatureHistory, temperature.sensors, input.now);
    }

    /** The NPU lines of `update`. */
    method UpdateNPU(input: CycleInput)
      modifies this`npu, this`npuHistory
      ensures State() == StepNPU(old(State()), input)
    {
      npu := NPUMonitor.GetNPUMetrics(input.devices);
      npuHistory := Appended(npuHistory, MetricSample(input.now, npu.powerMilliwatts, "NPU"));
    }
  }

  /** Preparing and filling the per-core series keeps each within the bound. */
  lemma CoreHistoryBounded(histories: seq<seq<MetricSample>>, cpu: CPUMetrics, now: real)
    requires CoresBounded(histories)
    ensures CoresBounded(CoreHistoryAfter(PreparedCoreHistory(histories, cpu), cpu.coreUsages, now))
  {
    var prepared := PreparedCoreHistory(histories, cpu);
    assert CoresBounded(prepared);
  }

  /** Filling the per-sensor series keeps each within the bound. */
  lemma {:induction false} TemperatureHistoryBounded(histories: map<string, seq<MetricSample>>, sensors: seq<TemperatureSensor>, now: real)
    requires SeriesBounded(histories)
    ensures SeriesBounded(TemperatureHistoryAfter(histories, sensors, now))
    decreases |sensors|
  {
    if sensors != [] {
      var before := TemperatureHistoryAfter(histories, sensors[..|sensors| - 1], now);
      TemperatureHistoryBounded(histories, sensors[..|sensors| - 1], now);
      var sensor := sensors[|sensors| - 1];
      var added := Appended(HistoryOf(before, sensor.name), MetricSample(now, sensor.temperature, sensor.name));
      assert |added| <= MaxHistoryCount;
      assert TemperatureHistoryAfter(histories, sensors, now) == before[sensor.name := added];
    }
  }

  /** A cycle keeps every history within 60 samples, whatever the samplers read. */
  lemma StepKeepsBounded(s: MonitorState, input: CycleInput)
    requires Bounded(s) && Admissible(s, input)
    ensures Bounded(Step(s, input))
  {
    var cpu := CPUMonitor.Sample(s.cpuTicks, input.processorInfo).metrics;
    CoreHistoryBounded(s.cpuCoreHistory, cpu, input.now);
    TemperatureHistoryBounded(s.temperatureHistory, TemperatureMonitor.Sample(input.services).sensors, input.now);
  }

  /** Starting keeps the state valid, and afterwards the monitor runs with
      its timer scheduled, whether or not it was running before. */
  lemma StartedKeepsValid(s: MonitorState, input: CycleInput)
    requires ValidState(s) && (!s.isRunning ==> Admissible(s, input))
    ensures var t := Started(s, input); ValidState(t) && t.isRunning && t.timerScheduled
  {
    if !s.isRunning {
      StepKeepsBounded(s.(isRunning := true), input);
    }
  }

  /** Stopping keeps the histories, and afterwards nothing runs. */
  lemma StoppedKeepsValid(s: MonitorState)
    requires ValidState(s)
    ensures var t := Stopped(s); ValidState(t) && !t.isRunning && !t.timerScheduled
  {
  }

  /** A second start while running changes nothing: the guard makes
      starting idempotent. */
  lemma StartIsIdempotent(s: MonitorState, first: CycleInput, second: CycleInput)
    requires !s.isRunning ==> Admissible(s, first)
    ensures Started(Started(s, first), second) == Started(s, first)
  {
  }

  /** Stopping then starting runs a cycle at once against the baselines and
      histories held from before the stop. */
  lemma RestartResumesFromHeldState(s: MonitorState, input: CycleInput)
    requires Admissible(s, input)
    ensures var t := Started(Stopped(s), input);
      t.isRunning && t.timerScheduled &&
      t.cpu == CPUMonitor.Sample(s.cpuTicks, input.processorInfo).metrics &&
      t.network == NetworkMonitor.Sample(s.networkSnapshot, input.networkQuery).metrics &&
      t.cpuHistory == Appended(s.cpuHistory, MetricSample(input.now, t.cpu.totalUsage, "CPU"))
  {
  }

  /** Each baseline a sampler returns is the one the next cycle measures
      against: two cycles compose as two sampler calls chained by their
      returned ticks and snapshots. */
  lemma BaselinesThreadThroughCycles(s: MonitorState, first: CycleInput, second: CycleInput)
    requires Admissible(s, first) && Admissible(Step(s, first), second)
    ensures var t := Step(Step(s, first), second);
      var cpu1 := CPUMonitor.Sample(s.cpuTicks, first.processorInfo);
      var memory1 := MemoryMonitor.Sample(s.memorySnapshot, first.memoryQuery);
      var network1 := NetworkMonitor.Sample(s.networkSnapshot, first.networkQuery);
      t.cpu == CPUMonitor.Sample(Some(cpu1.ticks), second.processorInfo).metrics &&
      t.memory == MemoryMonitor.Sample(Some(memory1.snapshot), second.memoryQuery).metrics &&
      t.network == NetworkMonitor.Sample(Some(network1.snapshot), second.networkQuery).metrics
  {
  }

  /** Every single-value chart gets exactly the value the cycle published,
      stamped with the cycle's time, as its newest sample; older samples
      keep their order and only the oldest are dropped. */
  lemma EachChartGetsTheNewReading(s: MonitorState, input: CycleInput)
    requires Admissible(s, input)
    ensures var t := Step(s, input); var now := input.now;
      Extends(s.cpuHistory, t.cpuHistory, MetricSample(now, t.cpu.totalUsage, "CPU")) &&
      Extends(s.memoryPressureHistory, t.memoryPressureHistory, MetricSample(now, t.memory.pressure, "Pressure")) &&
      Extends(s.memoryReadHistory, t.memoryReadHistory, MetricSample(now, t.memory.readBytesPerSec, "Read")) &&
      Extends(s.memoryWriteHistory, t.memoryWriteHistory, MetricSample(now, t.memory.writeBytesPerSec, "Write")) &&
      Extends(s.networkInHistory, t.networkInHistory, MetricSample(now, t.network.speedIn, "Download")) &&
      Extends(s.networkOutHistory, t.networkOutHistory, MetricSample(now, t.network.speedOut, "Upload")) &&
      Extends(s.gpuHistory, t.gpuHistory, MetricSample(now, t.gpu.deviceUtilization, "GPU")) &&
      Extends(s.npuHistory, t.npuHistory, MetricSample(now, t.npu.powerMilliwatts, "NPU"))
  {
    var t := Step(s, input);
    var now := input.now;
    AppendedKeepsOrder(s.cpuHistory, MetricSample(now, t.cpu.totalUsage, "CPU"));
    AppendedKeepsOrder(s.memoryPressureHistory, MetricSample(now, t.memory.pressure, "Pressure"));
    AppendedKeepsOrder(s.memoryReadHistory, MetricSample(now, t.memory.readBytesPerSec, "Read"));
    AppendedKeepsOrder(s.memoryWriteHistory, MetricSample(now, t.memory.writeBytesPerSec, "Write"));
    AppendedKeepsOrder(s.networkInHistory, MetricSample(now, t.network.speedIn, "Download"));
    AppendedKeepsOrder(s.networkOutHistory, MetricSample(now, t.network.speedOut, "Upload"));
    AppendedKeepsOrder(s.gpuHistory, MetricSample(now, t.gpu.deviceUtilization, "GPU"));
    AppendedKeepsOrder(s.npuHistory, MetricSample(now, t.npu.powerMilliwatts, "NPU"));
  }

  /** The per-core series are created once, one per core, the first time
      usages arrive, and never resized afterwards; each core that has a
      series gets its usage as newest sample, captioned with its index,
      and every other series is left as it was. */
  lemma {:induction false} CoreSeriesAfterCycle(histories: seq<seq<MetricSample>>, cpu: CPUMetrics, now: real)
    ensures var prepared := PreparedCoreHistory(histories, cpu);
      var after := CoreHistoryAfter(prepared, cpu.coreUsages, now);
      |after| == (if histories == [] && cpu.coreUsages != [] then cpu.coreCount else |histories|) &&
      (forall j :: 0 <= j < |after| && histories == [] && cpu.coreUsages != [] ==> prepared[j] == []) &&
      (forall j :: 0 <= j < |after| && histories != [] ==> prepared[j] == histories[j]) &&
      (forall j :: 0 <= j < |after| && j < |cpu.coreUsages| ==>
         Extends(prepared[j], after[j], MetricSample(now, cpu.coreUsages[j], "Core " + Strings.Decimal(j)))) &&
      (forall j :: |cpu.coreUsages| <= j < |after| ==> after[j] == prepared[j])
  {
    var prepared := PreparedCoreHistory(histories, cpu);
    var after := CoreHistoryAfter(prepared, cpu.coreUsages, now);
    assert |after| == |prepared|;
    forall j | 0 <= j < |after| && j < |cpu.coreUsages|
      ensures Extends(prepared[j], after[j], MetricSample(now, cpu.coreUsages[j], "Core " + Strings.Decimal(j)))
    {
      assert after[j] == Appended(prepared[j], CoreSample(now, cpu.coreUsages[j], j));
      AppendedKeepsOrder(prepared[j], CoreSample(now, cpu.coreUsages[j], j));
    }
    forall j | |cpu.coreUsages| <= j < |after|
      ensures after[j] == prepared[j]
    {
    }
  }

  /** The sensor names of a list grow by the last sensor's name. */
  lemma NamesOfSnoc(sensors: seq<TemperatureSensor>)
    requires sensors != []
    ensures TemperatureMonitor.Names(sensors) ==
      TemperatureMonitor.Names(sensors[..|sensors| - 1]) + {sensors[|sensors| - 1].name}
  {
    assert sensors == sensors[..|sensors| - 1] + [sensors[|sensors| - 1]];
  }

  /** The per-sensor loop adds a series for each new display name, and
      leaves the series of every name no sensor carries as it was. */
  lemma {:induction false} TemperatureSeriesOutsideSensors(histories: map<string, seq<MetricSample>>, sensors: seq<TemperatureSensor>, now: real)
    ensures var after := TemperatureHistoryAfter(histories, sensors, now);
      after.Keys == histories.Keys + TemperatureMonitor.Names(sensors) &&
      forall name :: name in histories && name !in TemperatureMonitor.Names(sensors) ==> after[name] == histories[name]
    decreases |sensors|
  {
    if sensors != [] {
      TemperatureSeriesOutsideSensors(histories, sensors[..|sensors| - 1], now);
      NamesOfSnoc(sensors);
    }
  }

  /** When display names are distinct, each sensor's series is the series
      held before the cycle (or an empty one) with that sensor's reading
      appended, captioned with its name. */
  lemma {:induction false} TemperatureSeriesOfSensor(histories: map<string, seq<MetricSample>>, sensors: seq<TemperatureSensor>, now: real, k: nat)
    requires TemperatureMonitor.DistinctNames(sensors) && k < |sensors|
    ensures var after := TemperatureHistoryAfter(histories, sensors, now);
      var sensor := sensors[k];
      sensor.name in after &&
      after[sensor.name] == Appended(HistoryOf(histories, sensor.name), MetricSample(now, sensor.temperature, sensor.name))
    decreases |sensors|
  {
    var n := |sensors| - 1;
    var front, last := sensors[..n], sensors[n];
    var before := TemperatureHistoryAfter(histories, front, now);
    assert TemperatureHistoryAfter(histories, sensors, now) ==
      before[last.name := Appended(HistoryOf(before, last.name), MetricSample(now, last.temperature, last.name))];
    assert TemperatureMonitor.DistinctNames(front) by {
      forall i, j | 0 <= i < j < |front| ensures front[i].name != front[j].name {
        assert front[i] == sensors[i] && front[j] == sensors[j];
      }
    }
    if k < n {
      TemperatureSeriesOfSensor(histories, front, now, k);
      assert sensors[k] == front[k] && sensors[k].name != last.name;
    } else {
      assert last.name !in TemperatureMonitor.Names(front) by {
        forall sensor | sensor in front ensures sensor.name != last.name {
          var i :| 0 <= i < n && front[i] == sensor;
          assert sensors[i] == sensor;
        }
      }
      assert HistoryOf(before, last.name) == HistoryOf(histories, last.name) by {
        TemperatureSeriesOutsideSensors(histories, front, now);
      }
    }
  }

  /** Over one cycle, each published sensor gets its reading as the newest
      sample of the series under its display name; names no sensor
      carries keep their series; no series is ever removed. */
  lemma EachSensorGetsItsReading(s: MonitorState, input: CycleInput)
    requires Admissible(s, input)
    ensures var t := Step(s, input); var sensors := t.temperature.sensors;
      t.temperatureHistory.Keys == s.temperatureHistory.Keys + TemperatureMonitor.Names(sensors) &&
      (forall name :: name in s.temperatureHistory && name !in TemperatureMonitor.Names(sensors) ==>
         t.temperatureHistory[name] == s.temperatureHistory[name]) &&
      (forall k :: 0 <= k < |sensors| ==>
         Extends(HistoryOf(s.temperatureHistory, sensors[k].name), t.temperatureHistory[sensors[k].name],
                 MetricSample(input.now, sensors[k].temperature, sensors[k].name)))
  {
    var t := Step(s, input);
    var sensors := TemperatureMonitor.Sample(input.services).sensors;
    assert t.temperatureHistory == TemperatureHistoryAfter(s.temperatureHistory, sensors, input.now);
    if input.services.Some? {
      TemperatureMonitor.SampleIsFilteredDedupedSorted(input.services.value);
    }
    TemperatureSeriesOutsideSensors(s.temperatureHistory, sensors, input.now);
    forall k | 0 <= k < |sensors|
      ensures Extends(HistoryOf(s.temperatureHistory, sensors[k].name), t.temperatureHistory[sensors[k].name],
                      MetricSample(input.now, sensors[k].temperature, sensors[k].name))
    {
      TemperatureSeriesOfSensor(s.temperatureHistory, sensors, input.now, k);
      AppendedKeepsOrder(HistoryOf(s.temperatureHistory, sensors[k].name), MetricSample(input.now, sensors[k].temperature, sensors[k].name));
    }
  }

  /** Of one cycle, only the disk part touches the disk metrics. */
  lemma StepChangesDiskAsDue(s: MonitorState, input: CycleInput)
    requires Admissible(s, input)
    ensures Step(s, input).disk == if DiskDue(input.now, s.disk) then DiskMonitor.Sample(input.volumes) else s.disk
  {
    var afterMemory := StepMemory(StepCPU(s, input), input);
    assert afterMemory.disk == s.disk;
    var afterDisk := StepDisk(afterMemory, input);
    assert afterDisk.disk == if DiskDue(input.now, s.disk) then DiskMonitor.Sample(input.volumes) else s.disk;
  }

  /** A non-negative clock lies on a multiple of ten seconds exactly in the
      first second of a ten-second window. */
  lemma TenSecondWindow(now: real, k: int)
    requires 0.0 <= now
    ensures (10 * k) as real <= now < (10 * k + 1) as real ==> EpochSecond(now) % 10 == 0
    ensures (10 * k + 1) as real <= now < (10 * k + 10) as real ==> EpochSecond(now) % 10 != 0
  {
    var second := EpochSecond(now);
    if (10 * k) as real <= now < (10 * k + 1) as real {
      assert second == 10 * k;
    }
    if (10 * k + 1) as real <= now < (10 * k + 10) as real {
      assert 10 * k + 1 <= second < 10 * k + 10;
    }
  }

  /** The disk schedule: a monitor holding no volume re-reads them every
      cycle; otherwise a cycle re-reads them exactly when its clock lies in
      the first second of a ten-second window since the epoch. */
  lemma DiskRereadSchedule(s: MonitorState, input: CycleInput, k: int)
    requires Admissible(s, input) && 0.0 <= input.now
    ensures var t := Step(s, input);
      (s.disk.volumes == [] ==> t.disk == DiskMonitor.Sample(input.volumes)) &&
      ((10 * k) as real <= input.now < (10 * k + 1) as real ==> t.disk == DiskMonitor.Sample(input.volumes)) &&
      (s.disk.volumes != [] && (10 * k + 1) as real <= input.now < (10 * k + 10) as real ==> t.disk == s.disk)
  {
    StepChangesDiskAsDue(s, input);
    TenSecondWindow(input.now, k);
  }

}
