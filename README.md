# LeeSourceMonitor metrics engine in Dafny

LeeSourceMonitor is a macOS menu-bar system monitor. Its engine has three parts:

- **Samplers.** Seven samplers each read one kind of metric:
  - CPU usage from processor tick counters;
  - memory from VM statistics;
  - disk capacity from the mounted volumes;
  - network throughput from interface byte counters;
  - GPU utilisation from the accelerator's performance statistics;
  - temperatures from the HID temperature sensors;
  - neural-engine power from the I/O registry.
- **Orchestrator.** `SystemMonitor` runs every sampler once per timer firing. It hands each sampler the baseline (previous ticks or snapshot) the sampler returned last time. It appends the new readings to bounded chart histories of at most 60 samples.
- **Settings and formatters.** The user settings hold the polling interval, the dashboard card order and the hidden cards. The formatters turn numbers into display strings.

The project models that engine, one Dafny module per Swift file.

The operating system is never called. Each system query becomes an input:

- `None` stands for a failed query.
- `Some(...)` holds exactly the data the source reads: tick counters, `vm_statistics64` fields, interface entries, registry dictionaries, HID services or volume resource values.
- The clock reading `Date()` becomes a `real` number of seconds since the epoch.

Each sampler has three parts:

- A specification function `Sample`: what one call returns.
- A method `GetXxx`: the source's loop, written imperatively, proved to return `Sample`.
- Lemmas stating what `Sample` promises.

`SystemMonitor` is a class whose fields are the Swift object's fields. Its `Update`, `StartMonitoring` and `StopMonitoring` methods are proved to move `State()` exactly as the functions `Step`, `Started` and `Stopped` say. Lemmas about those functions give:

- the 60-sample bound;
- how the baselines thread from one cycle to the next;
- the newest sample of every chart;
- the disk re-read schedule;
- the start/stop state machine.

`AppSettings` is a class with the three settings as fields. Its constructor restores them from the stored values, and lemmas state what card moves, toggles and resets do.

Modules:

- `Wrappers` (`Option`)
- `MetricModels`
- `Counters`: the clamped-delta and rate policy shared by memory and network.
- `Strings`: lexicographic order, prefix, substring, ASCII lower-casing, decimal rendering.
- `Registry`: I/O registry values and the checked `as? Int` / `as? UInt64` bridging.
- `History`: the bounded chart histories.
- One module per sampler.
- `SystemMonitor`, `AppSettings`, `Formatters`.

## Model

| member | source | states |
|---|---|---|
| Counters.ClampedDelta | Sources/LeeSourceMonitor/Monitors/NetworkMonitor.swift:51-52 | the delta never exceeds the current counter; it is exactly the growth when the counter did not go down, and 0 when it went down |
| Counters.Rate | Sources/LeeSourceMonitor/Monitors/NetworkMonitor.swift:53-54 | a rate is never negative, and rate × elapsed seconds is the byte amount |
| MetricModels.DiskVolume.FreeGB | Sources/LeeSourceMonitor/Models/MetricModels.swift:17 | free + used = total; free is non-negative when used does not exceed total |
| MetricModels.DiskVolume.UsagePercent | Sources/LeeSourceMonitor/Models/MetricModels.swift:18 | for a positive capacity, percent × total = used × 100; 0 without capacity; within [0, 100] when 0 ≤ used ≤ total |
| Registry.AsInt | Sources/LeeSourceMonitor/Monitors/GPUMonitor.swift:33 | `as? Int` succeeds exactly for a number within the 64-bit signed range, and then yields that number |
| Registry.AsUInt64 | Sources/LeeSourceMonitor/Monitors/GPUMonitor.swift:42 | `as? UInt64` succeeds exactly for a number within the 64-bit unsigned range, and then yields that number |
| Registry.IntOnlyValuesAreNegative | Sources/LeeSourceMonitor/Monitors/GPUMonitor.swift:44-45 | a value that reaches the `as? Int` fallback of a memory figure is negative, so the `UInt64(_:)` conversion there traps |
| Strings.BelowIrreflexive | Sources/LeeSourceMonitor/Monitors/TemperatureMonitor.swift:109 | no name sorts strictly before itself |
| Strings.BelowTransitive | Sources/LeeSourceMonitor/Monitors/TemperatureMonitor.swift:109 | the name order used by the sort is transitive |
| Strings.BelowTotal | Sources/LeeSourceMonitor/Monitors/TemperatureMonitor.swift:109 | any two names are equal or ordered one way round |
| Strings.AsciiLowerFolds | Sources/LeeSourceMonitor/Monitors/NPUMonitor.swift:35 | lower-casing leaves no ASCII capital, so lower-casing again changes nothing |
| Strings.AsciiLowerIgnoresCase | Sources/LeeSourceMonitor/Monitors/NPUMonitor.swift:35 | two names that differ only in the case of ASCII letters lower-case to the same string, so the `"ane"` match ignores case |
| History.Newest | Sources/LeeSourceMonitor/Monitors/SystemMonitor.swift:123-124 | dropping from the front keeps the last min(count, n) elements, as a suffix |
| History.Appended | Sources/LeeSourceMonitor/Monitors/SystemMonitor.swift:121-126 | a history grows by one sample until it holds 60, then stays at 60 |
| History.AppendedKeepsOrder | Sources/LeeSourceMonitor/Monitors/SystemMonitor.swift:121-126 | after `appendSample` the new sample is last and is preceded by the old history with only its oldest samples dropped, never more than 60 in all |
| History.AppendedAllIsNewest | Sources/LeeSourceMonitor/Monitors/SystemMonitor.swift:121-126 | however many samples arrive, a history that started within the bound is the newest 60 of all of them in arrival order |
| CPUMonitor.DeltaOfTotals | Sources/LeeSourceMonitor/Monitors/CPUMonitor.swift:61-65 | the field-wise deltas add up to the difference of the totals, busy ticks to the difference of busy ticks, and busy never exceeds total |
| CPUMonitor.UsageIsPercentage | Sources/LeeSourceMonitor/Monitors/CPUMonitor.swift:66-71 | usage is 0 when no tick elapsed; otherwise usage × total = busy × 100, within [0, 100] |
| CPUMonitor.GetCPUUsage | Sources/LeeSourceMonitor/Monitors/CPUMonitor.swift:14-103 | the loop returns exactly the metrics and ticks of the specification `Sample` |
| CPUMonitor.FailedQueryKeepsBaseline | Sources/LeeSourceMonitor/Monitors/CPUMonitor.swift:27-29 | a failed query gives empty metrics and hands back the previous ticks, or none |
| CPUMonitor.SampleShape | Sources/LeeSourceMonitor/Monitors/CPUMonitor.swift:97-102 | a successful query hands back this call's ticks, with one usage per processor and the processor count |
| CPUMonitor.UsagesArePercentages | Sources/LeeSourceMonitor/Monitors/CPUMonitor.swift:60-95 | every usage, per core and aggregate, lies in [0, 100] |
| CPUMonitor.FirstCallReportsZero | Sources/LeeSourceMonitor/Monitors/CPUMonitor.swift:60-95 | without previous ticks every usage is 0 |
| CPUMonitor.CoreUsageDefinition | Sources/LeeSourceMonitor/Monitors/CPUMonitor.swift:60-74 | a core's usage is 100 × (user + system + nice deltas) / total delta, 0 when no tick elapsed, and 0 for a core the previous snapshot lacks |
| CPUMonitor.AggregateUsageDefinition | Sources/LeeSourceMonitor/Monitors/CPUMonitor.swift:78-95 | the aggregate usage is 100 × the busy ticks elapsed on all cores / all ticks elapsed on all cores, a percentage, and 0 when no tick elapsed |
| CPUMonitor.SummedCountsEveryTick | Sources/LeeSourceMonitor/Monitors/CPUMonitor.swift:78-92 | summing each state's ticks over the cores, as the `reduce` folds do, and adding the states up gives the sum of every core's total (or busy) ticks |
| CPUMonitor.SumOfGrows | Sources/LeeSourceMonitor/Monitors/CPUMonitor.swift:80-85 | summing a field over a snapshot whose existing cores only counted forward, with none removed, never goes down |
| CPUMonitor.GrowingSnapshotCanSubtract | Sources/LeeSourceMonitor/Monitors/CPUMonitor.swift:87-90 | if cores only counted forward and none disappeared, none of the aggregate subtractions traps |
| CPUMonitor.EmptyBaselineMeasuresSinceBoot | Sources/LeeSourceMonitor/Monitors/CPUMonitor.swift:14-103 | after a failed first query the baseline is empty, not absent: the next call reports 0 per core but the aggregate over all ticks since boot |
| CPUMonitor.AggregateIsNotAnAverage | Sources/LeeSourceMonitor/Monitors/CPUMonitor.swift:78-95 | the aggregate weighs each core by its elapsed ticks: a core busy 10 of 10 ticks beside one idle for 90 gives 10%, not 50% |
| MemoryMonitor.GetMemoryUsage | Sources/LeeSourceMonitor/Monitors/MemoryMonitor.swift:12-76 | the field-by-field fill returns exactly the metrics and snapshot of the specification `Sample` |
| MemoryMonitor.FailedQueryReportsOnlyTotal | Sources/LeeSourceMonitor/Monitors/MemoryMonitor.swift:13-34 | when the VM query fails, only the physical size is reported, and the snapshot has zero counters stamped now |
| MemoryMonitor.UsedIsFourCategories | Sources/LeeSourceMonitor/Monitors/MemoryMonitor.swift:35-50 | each byte figure is its page count × 16384; used = active + wired + compressed + inactive; used + free covers the five categories |
| MemoryMonitor.PressureIsUsedShare | Sources/LeeSourceMonitor/Monitors/MemoryMonitor.swift:53-54 | pressure × physical size = used × 100; non-negative, and at most 100 when used fits in memory |
| MemoryMonitor.SnapshotIsThisCall | Sources/LeeSourceMonitor/Monitors/MemoryMonitor.swift:57-61 | the snapshot carries this call's page-in/page-out counters and clock reading |
| MemoryMonitor.RatesFollowClampedDeltas | Sources/LeeSourceMonitor/Monitors/MemoryMonitor.swift:63-72 | rates are never negative; they are 0 without a baseline or elapsed time; otherwise rate × elapsed = clamped page delta × 16384, and 0 for a counter that went down |
| MemoryMonitor.ReadRateExample | Sources/LeeSourceMonitor/Monitors/MemoryMonitor.swift:63-70 | 500 page-ins over 2 seconds read as 4,096,000 bytes per second |
| NetworkMonitor.CountedEntries | Sources/LeeSourceMonitor/Monitors/NetworkMonitor.swift:25-30 | an entry counts exactly when it is up, not loopback and link-layer |
| NetworkMonitor.GetNetworkUsage | Sources/LeeSourceMonitor/Monitors/NetworkMonitor.swift:12-66 | the walk over the interface list returns exactly the metrics and snapshot of the specification `Sample` |
| NetworkMonitor.TotalsSumCountedEntries | Sources/LeeSourceMonitor/Monitors/NetworkMonitor.swift:23-40 | the accumulated totals are the sums of the byte counters of exactly the counted entries |
| NetworkMonitor.UncountedEntryAddsNothing | Sources/LeeSourceMonitor/Monitors/NetworkMonitor.swift:29-36 | an entry that is down, loopback or not link-layer adds nothing to either total, wherever it is in the list |
| NetworkMonitor.FailureResetsBaseline | Sources/LeeSourceMonitor/Monitors/NetworkMonitor.swift:17-20 | a failed enumeration reports zero traffic and a zero baseline, so the next call measures its full totals as traffic |
| NetworkMonitor.SnapshotCarriesTotals | Sources/LeeSourceMonitor/Monitors/NetworkMonitor.swift:42-63 | the snapshot and the metrics carry this call's totals and clock reading |
| NetworkMonitor.SpeedsFollowClampedDeltas | Sources/LeeSourceMonitor/Monitors/NetworkMonitor.swift:45-56 | speeds are never negative; they are 0 without a baseline, elapsed time or growth; otherwise speed × elapsed = growth of the total |
| DiskMonitor.Volume | Sources/LeeSourceMonitor/Monitors/DiskMonitor.swift:25-47 | a URL gives a volume exactly when its resources read, it is known local and its capacity is positive; the name falls back to the last path component, missing capacities count 0, and sizes are bytes / 2^30 |
| DiskMonitor.GetDiskUsage | Sources/LeeSourceMonitor/Monitors/DiskMonitor.swift:5-51 | the loop over the mounted volumes returns exactly the specification `Sample` |
| DiskMonitor.VolumesAppend | Sources/LeeSourceMonitor/Monitors/DiskMonitor.swift:24-48 | enumeration order is kept: the volumes of two runs of URLs are those of the first followed by those of the second |
| DiskMonitor.VolumesOfOne | Sources/LeeSourceMonitor/Monitors/DiskMonitor.swift:24-48 | a single URL contributes exactly its own volume, or nothing |
| DiskMonitor.ListedVolumesArePositive | Sources/LeeSourceMonitor/Monitors/DiskMonitor.swift:39 | every listed volume has a positive capacity and comes from some URL |
| DiskMonitor.FailureGivesNoVolumes | Sources/LeeSourceMonitor/Monitors/DiskMonitor.swift:17-22 | a failed enumeration gives no volumes |
| GPUMonitor.FirstStatistics | Sources/LeeSourceMonitor/Monitors/GPUMonitor.swift:17-54 | no statistics are found exactly when no entry holds a readable `PerformanceStatistics` dictionary |
| GPUMonitor.GetGPUMetrics | Sources/LeeSourceMonitor/Monitors/GPUMonitor.swift:6-57 | the walk over the accelerator entries returns exactly the specification `Sample` |
| GPUMonitor.FirstQualifyingEntryDecides | Sources/LeeSourceMonitor/Monitors/GPUMonitor.swift:53 | the first entry with statistics decides the result; later entries are never consulted |
| GPUMonitor.NothingToReadGivesZero | Sources/LeeSourceMonitor/Monitors/GPUMonitor.swift:13 | matching failure, or no entry with statistics, gives all-zero metrics |
| GPUMonitor.ExtractedFieldsDefaultToZero | Sources/LeeSourceMonitor/Monitors/GPUMonitor.swift:33-51 | each of the three utilisations is its key's integer when the key bridges to `Int`, and 0 otherwise (missing key, non-number, or out of range); each memory figure is its key's value when the key bridges to `UInt64`, and 0 otherwise |
| NPUMonitor.FirstNul | Sources/LeeSourceMonitor/Monitors/NPUMonitor.swift:30 | the index found holds the first NUL byte; none is found exactly when the buffer has no NUL |
| NPUMonitor.NameBytes | Sources/LeeSourceMonitor/Monitors/NPUMonitor.swift:30-34 | the name is the longest NUL-free prefix of the buffer |
| NPUMonitor.Decode | Sources/LeeSourceMonitor/Monitors/NPUMonitor.swift:31 | decoding keeps one character per byte: an ASCII byte is its character, any other byte U+FFFD |
| NPUMonitor.FirstMatch | Sources/LeeSourceMonitor/Monitors/NPUMonitor.swift:18-53 | no properties are consulted exactly when no entry has a readable name containing "ane" and readable properties |
| NPUMonitor.GetNPUMetrics | Sources/LeeSourceMonitor/Monitors/NPUMonitor.swift:6-56 | the walk over the registry entries returns exactly the specification `Sample` |
| NPUMonitor.FirstMatchEndsSearch | Sources/LeeSourceMonitor/Monitors/NPUMonitor.swift:52 | the first consulted entry decides the power; later entries are never looked at |
| NPUMonitor.PowerPrecedence | Sources/LeeSourceMonitor/Monitors/NPUMonitor.swift:45-50 | `power-consumption` wins over `ane-perf-ctr`; with neither key the power is 0 |
| NPUMonitor.NothingMatchedIsInactive | Sources/LeeSourceMonitor/Monitors/NPUMonitor.swift:14 | matching failure, or no consulted entry, gives power 0 and an inactive engine |
| NPUMonitor.ActiveIffPositivePower | Sources/LeeSourceMonitor/Models/MetricModels.swift:73 | the engine is active exactly when an entry was consulted and its chosen power figure is positive |
| NPUMonitor.NameStopsAtFirstNul | Sources/LeeSourceMonitor/Monitors/NPUMonitor.swift:30-34 | bytes after the first NUL never reach the name; a buffer without NUL is taken whole |
| TemperatureMonitor.Reading | Sources/LeeSourceMonitor/Monitors/TemperatureMonitor.swift:79-104 | a service gives a reading exactly when it has an event, the value lies strictly in (-100, 150) and its raw name has no skipped prefix; the reading carries the raw name and the table's display name |
| TemperatureMonitor.Insert | Sources/LeeSourceMonitor/Monitors/TemperatureMonitor.swift:109 | inserting adds exactly the one sensor |
| TemperatureMonitor.SortedByName | Sources/LeeSourceMonitor/Monitors/TemperatureMonitor.swift:109 | sorting is a permutation |
| TemperatureMonitor.GetTemperatures | Sources/LeeSourceMonitor/Monitors/TemperatureMonitor.swift:61-112 | the loop with its set of seen names, then the sort, returns exactly the specification `Sample` |
| TemperatureMonitor.CollectedHasDistinctNames | Sources/LeeSourceMonitor/Monitors/TemperatureMonitor.swift:100-102 | no two collected sensors share a display name |
| TemperatureMonitor.CollectedKeepsFirst | Sources/LeeSourceMonitor/Monitors/TemperatureMonitor.swift:100-105 | every collected sensor is the reading of a service with no earlier reading of the same display name |
| TemperatureMonitor.CollectedCoversNames | Sources/LeeSourceMonitor/Monitors/TemperatureMonitor.swift:100-105 | every reading's display name is among the collected names |
| TemperatureMonitor.FirstOfNameIsKept | Sources/LeeSourceMonitor/Monitors/TemperatureMonitor.swift:100-105 | the first reading of each display name is published |
| TemperatureMonitor.LaterDuplicateIsDropped | Sources/LeeSourceMonitor/Monitors/TemperatureMonitor.swift:101 | a later, different reading under an already-published display name is dropped |
| TemperatureMonitor.InsertKeepsAscending | Sources/LeeSourceMonitor/Monitors/TemperatureMonitor.swift:109 | inserting a sensor with a new name into an ascending list keeps it ascending |
| TemperatureMonitor.SortedIsAscending | Sources/LeeSourceMonitor/Monitors/TemperatureMonitor.swift:109 | sorting sensors with distinct names gives them in strictly ascending name order |
| TemperatureMonitor.SampleIsFilteredDedupedSorted | Sources/LeeSourceMonitor/Monitors/TemperatureMonitor.swift:61-112 | the published list is plausible, unskipped, named through the table, one entry per display name, strictly ascending, and a permutation of the deduplicated readings |
| TemperatureMonitor.NoServicesNoSensors | Sources/LeeSourceMonitor/Monitors/TemperatureMonitor.swift:74-76 | without a service list there are no sensors |
| SystemMonitor.EpochSecond | Sources/LeeSourceMonitor/Monitors/SystemMonitor.swift:93 | `Int(timeIntervalSince1970)` truncates toward zero: within one second below a non-negative time, above a negative one |
| SystemMonitor.AppendCoreSamples | Sources/LeeSourceMonitor/Monitors/SystemMonitor.swift:80-82 | the per-core loop gives each core that has a series its sample and leaves the rest |
| SystemMonitor.AppendTemperatureSamples | Sources/LeeSourceMonitor/Monitors/SystemMonitor.swift:110-114 | the per-sensor loop appends each reading under its display name, a missing series starting empty |
| SystemMonitor.SystemMonitor.constructor | Sources/LeeSourceMonitor/Monitors/SystemMonitor.swift:8-44 | a new monitor has default metrics, empty histories, no baselines, no timer, and is not running |
| SystemMonitor.SystemMonitor.StartMonitoring | Sources/LeeSourceMonitor/Monitors/SystemMonitor.swift:46-59 | starting does nothing while running; otherwise it marks running, runs one cycle and schedules the timer; validity is kept |
| SystemMonitor.SystemMonitor.StopMonitoring | Sources/LeeSourceMonitor/Monitors/SystemMonitor.swift:61-65 | stopping cancels the timer and marks stopped, changing nothing else |
| SystemMonitor.SystemMonitor.Update | Sources/LeeSourceMonitor/Monitors/SystemMonitor.swift:67-119 | one cycle moves the whole state as `Step`: each sampler in source order, each baseline threaded, each chart appended; it keeps every history, including each per-core and per-sensor series, within 60 samples, and keeps the monitor's invariant when it held before |
| SystemMonitor.SystemMonitor.UpdateCPU | Sources/LeeSourceMonitor/Monitors/SystemMonitor.swift:70-82 | the CPU lines change exactly the CPU metrics, ticks and CPU histories, as `StepCPU` |
| SystemMonitor.FillCoreHistory | Sources/LeeSourceMonitor/Monitors/SystemMonitor.swift:76-82 | the per-core lines create one empty series per core when none exist and usages were read, then append each core's usage to its series |
| SystemMonitor.SystemMonitor.UpdateMemory | Sources/LeeSourceMonitor/Monitors/SystemMonitor.swift:84-90 | the memory lines change exactly the memory metrics, snapshot and three memory histories, as `StepMemory` |
| SystemMonitor.SystemMonitor.UpdateDisk | Sources/LeeSourceMonitor/Monitors/SystemMonitor.swift:92-95 | the disk is re-read only on a whole ten-second epoch second or while no volume is held |
| SystemMonitor.SystemMonitor.UpdateNetwork | Sources/LeeSourceMonitor/Monitors/SystemMonitor.swift:97-102 | the network lines change exactly the network metrics, snapshot and two histories, as `StepNetwork` |
| SystemMonitor.SystemMonitor.UpdateGPU | Sources/LeeSourceMonitor/Monitors/SystemMonitor.swift:104-106 | the GPU lines change exactly the GPU metrics and history, as `StepGPU` |
| SystemMonitor.SystemMonitor.UpdateTemperature | Sources/LeeSourceMonitor/Monitors/SystemMonitor.swift:108-114 | the temperature lines change exactly the sensors and per-sensor histories, as `StepTemperature` |
| SystemMonitor.SystemMonitor.UpdateNPU | Sources/LeeSourceMonitor/Monitors/SystemMonitor.swift:116-118 | the NPU lines change exactly the NPU metrics and history, as `StepNPU` |
| SystemMonitor.CoreHistoryBounded | Sources/LeeSourceMonitor/Monitors/SystemMonitor.swift:76-82 | creating and filling the per-core series keeps each within 60 samples |
| SystemMonitor.TemperatureHistoryBounded | Sources/LeeSourceMonitor/Monitors/SystemMonitor.swift:110-114 | filling the per-sensor series keeps each within 60 samples |
| SystemMonitor.StepKeepsBounded | Sources/LeeSourceMonitor/Monitors/SystemMonitor.swift:16-28 | a cycle keeps every chart history within 60 samples, whatever the samplers read |
| SystemMonitor.StartedKeepsValid | Sources/LeeSourceMonitor/Monitors/SystemMonitor.swift:46-59 | after a start the monitor runs with its timer scheduled and its histories bounded, whether or not it was running |
| SystemMonitor.StoppedKeepsValid | Sources/LeeSourceMonitor/Monitors/SystemMonitor.swift:61-65 | after a stop nothing runs, no timer is scheduled and the histories stay bounded |
| SystemMonitor.StartIsIdempotent | Sources/LeeSourceMonitor/Monitors/SystemMonitor.swift:47 | a second start while running changes nothing |
| SystemMonitor.RestartResumesFromHeldState | Sources/LeeSourceMonitor/Monitors/SystemMonitor.swift:46-65 | stopping then starting runs a cycle at once against the baselines and histories held from before the stop |
| SystemMonitor.BaselinesThreadThroughCycles | Sources/LeeSourceMonitor/Monitors/SystemMonitor.swift:71-100 | two cycles compose as two sampler calls chained by the ticks and snapshots the first returned |
| SystemMonitor.EachChartGetsTheNewReading | Sources/LeeSourceMonitor/Monitors/SystemMonitor.swift:74-118 | every single-value chart gets the cycle's published value, stamped with the cycle's time and captioned, as its newest sample, older samples kept in order |
| SystemMonitor.CoreSeriesAfterCycle | Sources/LeeSourceMonitor/Monitors/SystemMonitor.swift:76-82 | per-core series are created once, one per core, when usages first arrive; each core with a series gets its usage captioned "Core i"; the others are untouched |
| SystemMonitor.TemperatureSeriesOutsideSensors | Sources/LeeSourceMonitor/Monitors/SystemMonitor.swift:110-114 | the per-sensor loop adds a series for each new display name and leaves every other series as it was |
| SystemMonitor.TemperatureSeriesOfSensor | Sources/LeeSourceMonitor/Monitors/SystemMonitor.swift:110-114 | with distinct display names, each sensor's series is its old series (or an empty one) with its reading appended |
| SystemMonitor.EachSensorGetsItsReading | Sources/LeeSourceMonitor/Monitors/SystemMonitor.swift:108-114 | over a cycle each published sensor's reading is the newest sample under its name, other names keep their series, and no series is removed |
| SystemMonitor.DiskRereadSchedule | Sources/LeeSourceMonitor/Monitors/SystemMonitor.swift:92-95 | with no volume held the disk is re-read every cycle; otherwise exactly when the clock lies in the first second of a ten-second window |
| AppSettings.FromRaw | Sources/LeeSourceMonitor/Models/AppSettings.swift:36-43 | a parsed card has exactly the raw value parsed |
| AppSettings.RawValueRoundTrip | Sources/LeeSourceMonitor/Models/AppSettings.swift:36-43 | each card's raw value parses back to it, and a string parses exactly when it is some card's raw value |
| AppSettings.AllCasesListsEachCardOnce | Sources/LeeSourceMonitor/Models/AppSettings.swift:36-57 | `allCases` lists every card once, and distinct cards have distinct icons |
| AppSettings.RestoredInterval | Sources/LeeSourceMonitor/Models/AppSettings.swift:61-62 | the restored interval is always positive: the stored one when positive, else 1 second |
| AppSettings.Parsed | Sources/LeeSourceMonitor/Models/AppSettings.swift:71 | parsing never lengthens the list, and a card is in it exactly when its raw value was stored |
| AppSettings.Toggled | Sources/LeeSourceMonitor/Models/AppSettings.swift:84-90 | toggling flips membership of that raw value and of no other |
| AppSettings.AppSettings.constructor | Sources/LeeSourceMonitor/Models/AppSettings.swift:60-78 | start-up restores the interval, the hidden set of stored raw values (empty when none), and the order: `allCases` when none is stored, else the parsed stored order completed with the missing cards |
| AppSettings.AppSettings.MoveCard | Sources/LeeSourceMonitor/Models/AppSettings.swift:80-82 | moving sets the order to the moved order and changes nothing else |
| AppSettings.AppSettings.ToggleCard | Sources/LeeSourceMonitor/Models/AppSettings.swift:84-90 | toggling changes the hidden set only, as `Toggled` |
| AppSettings.AppSettings.ResetOrder | Sources/LeeSourceMonitor/Models/AppSettings.swift:96-99 | resetting restores `allCases` and hides nothing |
| AppSettings.ToggleFlipsOneCard | Sources/LeeSourceMonitor/Models/AppSettings.swift:84-94 | toggling twice restores the hidden set; toggling flips that card's visibility and no other card's |
| AppSettings.VisibleCardsAreTheUnhidden | Sources/LeeSourceMonitor/Models/AppSettings.swift:32-34 | a card is visible exactly when it is in the order and not hidden; no more cards are visible than ordered |
| AppSettings.VisibleCardsOfConcatenation | Sources/LeeSourceMonitor/Models/AppSettings.swift:32-34 | the filter keeps the order of the cards |
| AppSettings.NothingHiddenShowsAll | Sources/LeeSourceMonitor/Models/AppSettings.swift:32-34 | with nothing hidden, every card of the order is visible, in that order |
| AppSettings.CompletedAppendsMissing | Sources/LeeSourceMonitor/Models/AppSettings.swift:72-74 | the start-up loop keeps the parsed order as a prefix and appends exactly the missing cards, in declaration order |
| AppSettings.MissingAreFromCases | Sources/LeeSourceMonitor/Models/AppSettings.swift:72 | the appended cards are exactly the cases the parsed order lacks |
| AppSettings.RestoredOrderHasEveryCard | Sources/LeeSourceMonitor/Models/AppSettings.swift:70-77 | after start-up every card is in the order: `allCases` with nothing stored, else the stored parseable cards followed by the missing ones |
| AppSettings.SelectPartitions | Sources/LeeSourceMonitor/Models/AppSettings.swift:81 | the picked and unpicked cards of a range together are exactly the range's cards |
| AppSettings.MovePermutes | Sources/LeeSourceMonitor/Models/AppSettings.swift:80-82 | moving cards is a permutation: every card stays and none is added |
| AppSettings.MovingNothingKeepsOrder | Sources/LeeSourceMonitor/Models/AppSettings.swift:80-82 | moving no card, to any destination, leaves the order as it was |
| AppSettings.ResetShowsAllCases | Sources/LeeSourceMonitor/Models/AppSettings.swift:96-99 | after a reset every card is visible in declaration order |
| Formatters.SpeedBands | Sources/LeeSourceMonitor/Helpers/Formatters.swift:16-26 | every rate falls in exactly one band by the thresholds 1024, 1024² and 1024³; the band fixes the decimals (0, 1, 1, 2), and magnitude × the band's power of 1024 = the rate |
| Formatters.SpeedMagnitudeInBand | Sources/LeeSourceMonitor/Helpers/Formatters.swift:16-26 | for a non-negative rate the magnitude stays below 1024 outside the GB/s band, and is at least 1 outside the B/s band |
| Formatters.MilliwattsBands | Sources/LeeSourceMonitor/Helpers/Formatters.swift:40-46 | below 1000 mW the value is shown unscaled with no decimals; from 1000 mW it is shown in watts with one decimal and a magnitude of at least 1 |

## Left out

- System calls (`host_processor_info`, `sysctlbyname`, `host_statistics64`, `getifaddrs`, the IOKit and HID client calls, `FileManager` volume enumeration) are not executed. Their answers are inputs, and releasing their resources is not modelled.
- The repeating 2-second `Timer` is the flag `timerScheduled`; each firing is a call of `Update`. Main-actor scheduling, the `Task` hop and concurrency are not modelled.
- `Double` is a mathematical `real`: rounding, NaN and infinities are not modelled. `Date` is seconds since the epoch as a `real`.
- `printf`-style rendering (`String(format:)`) is not modelled: the formatters return the magnitude, the number of decimals and the suffix instead of the digits.
- `Formatters.bytes` and `Formatters.bytesDecimal` are not modelled. They delegate to `ByteCountFormatter`, whose output is not part of this model.
- The random `UUID` identities of `DiskVolume` and `MetricSample`, and the default arguments of `MetricSample.init`, are not modelled; every call site passes the timestamp and label. The Swift `label` field is called `caption`, because `label` is a Dafny keyword.
- Persisting the settings to the user defaults (the `didSet` observers) is not modelled. Values read back at start-up are constructor parameters, and the shared singleton is not modelled.
- `move(fromOffsets:toOffset:)` comes from SwiftUI, which is not part of this model. `AppSettings.Moved` follows its documented meaning.
- `sort` comes from the Swift standard library, which is not part of this model. It is an insertion sort on values, and string `<` is lexicographic order on code points. Sorted output is proved ascending and a permutation, which is what the source relies on.
- `lowercased()` covers ASCII letters only.
- Name equality is code-point equality. Swift `String` equality, used by the seen-names set of the temperature sampler (Sources/LeeSourceMonitor/Monitors/TemperatureMonitor.swift:101-102) and the keys of the temperature history (Sources/LeeSourceMonitor/Monitors/SystemMonitor.swift:111-113), also equates canonically equivalent strings; sensor names are compared as raw character sequences here.
- `Formatters.Temperature`, `Formatters.Percentage` and `Formatters.Gigabytes` are single one-decimal formats with a fixed suffix; beyond their definitions there is nothing to state about them.
- UTF-8 decoding is byte by byte: an ASCII byte is its character, any other byte is U+FFFD. Multi-byte sequences are not decoded.
- The interpolation `"\(product)"` of a non-string `Product` property is taken to be the product string itself.
- The neural-engine name buffer may be of any length rather than exactly 128 bytes.
- Registry numbers are integers, and every other value is `NonNumber`. A fractional `NSNumber` that happens to be integral, which `as? Int` would also accept, is not modelled.
- Fixed-width overflow traps are not modelled: the `UInt64` sums of network counters, the memory page-count multiplications, `Int(now.timeIntervalSince1970)` and the disk `total - Int(available)` are all unbounded here.
- The conversions `UInt64(info[...])` of the `Int32` tick counters (Sources/LeeSourceMonitor/Monitors/CPUMonitor.swift:48-51) trap on a counter that has wrapped negative. Ticks are unbounded naturals here, so that trap is not modelled.
- The conversion `Int32(ptr.pointee.ifa_flags)` (Sources/LeeSourceMonitor/Monitors/NetworkMonitor.swift:25) traps for flags of 2^31 and above. Here the flags are any 32-bit value and only their up and loopback bits are read, so that trap is not modelled.
- The implicitly unwrapped `ifa_addr` and `ifa_data` pointers (Sources/LeeSourceMonitor/Monitors/NetworkMonitor.swift:30-31) trap when nil. Every interface here has an address family and counters, so those traps are not modelled.
- CPUMonitor.GetCPUUsage: requires `CanSubtract`, i.e. counters that never decrease on a core present in both snapshots, and per-field sums that never decrease. On any other input the source's `UInt64` subtractions trap, so no result exists to model.
- GPUMonitor.GetGPUMetrics: requires `NoTrap`, i.e. no negative memory figure in the consulted statistics. The source's `as? Int` fallback is reached only by negative values (`Registry.IntOnlyValuesAreNegative`), and `UInt64(_:)` traps on those.
- MemoryMonitor.GetMemoryUsage: requires a non-zero physical memory size whenever the VM query succeeds. With a zero size the source's `Double` division gives NaN or infinity, which `real` cannot express.
- SystemMonitor.SystemMonitor.Update: requires `Admissible`, which combines the three preconditions above for one cycle.
- SystemMonitor.DiskRereadSchedule: stated for non-negative clock readings only; `SystemMonitor.EpochSecond` covers negative ones.
- TemperatureMonitor.SampleIsFilteredDedupedSorted: states the order by name only. When two sensors compare equal the standard library's tie order is unspecified, but display names are distinct here, so no ties arise.
- `startMonitoring` schedules a fixed 2-second timer (Sources/LeeSourceMonitor/Monitors/SystemMonitor.swift:54). The model has no timer period: the timer is the flag `timerScheduled`, and each firing is one call of `Update`. The settings screen calls `restartWithInterval` (Sources/LeeSourceMonitor/Views/Settings/SettingsView.swift:22), which is not defined in the modelled files and is not part of this model.
