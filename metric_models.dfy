/** The plain metric records every sampler returns and the orchestrator
    publishes (Models/MetricModels.swift). Swift `Double` becomes `real`,
    `UInt64`/`Int` counters become `nat`, `Date` becomes seconds since the
    epoch as a `real`. The random `UUID` identities are not modelled. */
module MetricModels {

  datatype CPUMetrics = CPUMetrics(totalUsage: real, coreUsages: seq<real>, coreCount: nat)

  /** `CPUMetrics()`: no usage, no cores. */
  const NoCPU := CPUMetrics(0.0, [], 0)

  datatype DiskVolume = DiskVolume(name: string, mountPoint: string, totalGB: real, usedGB: real)
  {
    /** Free space: what is left of the capacity once the used part is taken. */
    function FreeGB(): (r: real)
      ensures r + usedGB == totalGB
      ensures usedGB <= totalGB ==> r >= 0.0
    {
      totalGB - usedGB
    }

    /** Percentage of the capacity in use; 0 for a volume without capacity. */
    function UsagePercent(): (r: real)
      ensures totalGB > 0.0 ==> r * totalGB == usedGB * 100.0
      ensures totalGB <= 0.0 ==> r == 0.0
      ensures 0.0 <= usedGB <= totalGB ==> 0.0 <= r <= 100.0
    {
      if totalGB > 0.0 then usedGB / totalGB * 100.0 else 0.0
    }
  }

  datatype DiskMetrics = DiskMetrics(volumes: seq<DiskVolume>)

  /** `DiskMetrics()`: no volumes. */
  const NoDisk := DiskMetrics([])

  datatype MemoryMetrics = MemoryMetrics(
    totalBytes: nat,
    usedBytes: nat,
    activeBytes: nat,
    inactiveBytes: nat,
    wiredBytes: nat,
    compressedBytes: nat,
    freeBytes: nat,
    purgeableBytes: nat,
    speculativeBytes: nat,
    appMemoryBytes: nat,
    pressure: real,          // percentage
    readBytesPerSec: real,   // page-ins
    writeBytesPerSec: real)  // page-outs

  /** `MemoryMetrics()`: every field zero. */
  const NoMemory := MemoryMetrics(0, 0, 0, 0, 0, 0, 0, 0, 0, 0, 0.0, 0.0, 0.0)

  datatype NetworkMetrics = NetworkMetrics(bytesIn: nat, bytesOut: nat, speedIn: real, speedOut: real)

  /** `NetworkMetrics()`: every field zero. */
  const NoNetwork := NetworkMetrics(0, 0, 0.0, 0.0)

  datatype GPUMetrics = GPUMetrics(
    deviceUtilization: real,
    rendererUtilization: real,
    tilerUtilization: real,
    allocatedSystemMemory: nat,
    inUseSystemMemory: nat)

  /** `GPUMetrics()`: every field zero. */
  const NoGPU := GPUMetrics(0.0, 0.0, 0.0, 0, 0)

  /** A reading in Celsius; `id` is the raw vendor key, `name` the display name. */
  datatype TemperatureSensor = TemperatureSensor(id: string, name: string, temperature: real)

  datatype TemperatureMetrics = TemperatureMetrics(sensors: seq<TemperatureSensor>)

  /** `TemperatureMetrics()`: no sensors. */
  const NoTemperature := TemperatureMetrics([])

  datatype NPUMetrics = NPUMetrics(powerMilliwatts: real)
  {
    /** The neural engine counts as active exactly when it draws power. */
    predicate IsActive() {
      powerMilliwatts > 0.0
    }
  }

  /** `NPUMetrics()`: no power. */
  const NoNPU := NPUMetrics(0.0)

  /** One point of a chart history. */
  datatype MetricSample = MetricSample(timestamp: real, value: real, caption: string)  // the Swift `label`
}
