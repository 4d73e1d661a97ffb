/** Temperature sampler (Monitors/TemperatureMonitor.swift): the services
    the HID event system reports for temperature sensors are filtered
    (plausible range, noisy prefixes), named through a fixed table,
    deduplicated by display name keeping the first, and sorted by name.
    The service list is an input (`None` when the copy fails); per service,
    the temperature event (`None` when there is none) and the `Product`
    property (`None` when absent). */
module TemperatureMonitor {
  import opened Wrappers
  import opened MetricModels
  import opened Strings

  /** Friendly names for Apple Silicon sensor keys. */
  const SensorNameMap: map<string, string> := map[
    "SOC MTR Temp Sensor0" := "CPU E-Core 1",
    "SOC MTR Temp Sensor1" := "CPU E-Core 2",
    "SOC MTR Temp Sensor2" := "CPU E-Core 3",
    "eACC MTR Temp Sensor0" := "CPU E-Cluster",
    "eACC MTR Temp Sensor3" := "CPU E-Cluster 2",
    "pACC MTR Temp Sensor2" := "CPU P-Core 1",
    "pACC MTR Temp Sensor3" := "CPU P-Core 2",
    "pACC MTR Temp Sensor4" := "CPU P-Core 3",
    "pACC MTR Temp Sensor5" := "CPU P-Core 4",
    "pACC MTR Temp Sensor7" := "CPU P-Cluster",
    "pACC MTR Temp Sensor8" := "CPU P-Cluster 2",
    "pACC MTR Temp Sensor9" := "CPU P-Cluster 3",
    "GPU MTR Temp Sensor1" := "GPU 1",
    "GPU MTR Temp Sensor4" := "GPU 2",
    "ANE MTR Temp Sensor1" := "Neural Engine",
    "ISP MTR Temp Sensor5" := "ISP",
    "PMGR SOC Die Temp Sensor0" := "SoC Die 1",
    "PMGR SOC Die Temp Sensor1" := "SoC Die 2",
    "PMGR SOC Die Temp Sensor2" := "SoC Die 3",
    "gas gauge battery" := "Battery",
    "NAND CH0 temp" := "SSD"
  ]

  /** Power-management sensors left out of the output. */
  const SkipPrefixes: seq<string> :=
    ["PMU tdie", "PMU tdev", "PMU2 tdie", "PMU2 tdev", "PMU tcal", "PMU2 tcal", "PMU TP3w"]

  /** One discovered service: its temperature event's value, if it has an
      event, and its `Product` property, if it has one. */
  datatype Service = Service(temperature: Option<real>, product: Option<string>)

  /** The raw vendor key: the product name, or "Unknown". */
  function RawName(service: Service): string {
    service.product.GetOr("Unknown")
  }

  /** Plausible readings lie strictly between -100 and 150 degrees. */
  predicate Plausible(celsius: real) {
    -100.0 < celsius < 150.0
  }

  /** `skipPrefixes.contains { rawName.hasPrefix($0) }`. */
  predicate Skipped(rawName: string) {
    exists i :: 0 <= i < |SkipPrefixes| && HasPrefix(rawName, SkipPrefixes[i])
  }

  /** The table's name for a raw key, or the key itself. */
  function DisplayName(rawName: string): string {
    if rawName in SensorNameMap then SensorNameMap[rawName] else rawName
  }

  /** The reading a service contributes before deduplication, if any. */
  function Reading(service: Service): (r: Option<TemperatureSensor>)
    ensures r.Some? <==>
      service.temperature.Some? && Plausible(service.temperature.value) && !Skipped(RawName(service))
    ensures r.Some? ==>
      r.value == TemperatureSensor(RawName(service), DisplayName(RawName(service)), service.temperature.value)
  {
    match service.temperature
    case None => None
    case Some(celsius) =>
      var rawName := RawName(service);
      if !Plausible(celsius) || Skipped(rawName) then None
      else Some(TemperatureSensor(rawName, DisplayName(rawName), celsius))
  }

  function Names(sensors: seq<TemperatureSensor>): set<string> {
    set sensor | sensor in sensors :: sensor.name
  }

  /** The readings in enumeration order, each display name kept the first
      time it is seen. */
  function Collected(services: seq<Service>): seq<TemperatureSensor> {
    if services == [] then []
    else
      var kept := Collected(services[..|services| - 1]);
      match Reading(services[|services| - 1])
      case None => kept
      case Some(sensor) => if sensor.name in Names(kept) then kept else kept + [sensor]
  }

  /** Insert `sensor` before the first element whose name is not below its own. */
  function Insert(sensor: TemperatureSensor, sorted: seq<TemperatureSensor>): (r: seq<TemperatureSensor>)
    ensures multiset(r) == multiset(sorted) + multiset{sensor}
  {
    if sorted == [] then [sensor]
    else if !Below(sorted[0].name, sensor.name) then [sensor] + sorted
    else
      assert sorted == [sorted[0]] + sorted[1..];
      [sorted[0]] + Insert(sensor, sorted[1..])
  }

  /** `sort { $0.name < $1.name }`, as an insertion sort on values. */
  function SortedByName(sensors: seq<TemperatureSensor>): (r: seq<TemperatureSensor>)
    ensures multiset(r) == multiset(sensors)
  {
    if sensors == [] then []
    else
      assert sensors == [sensors[0]] + sensors[1..];
      Insert(sensors[0], SortedByName(sensors[1..]))
  }

  /** What one call of `getTemperatures` returns. */
  function Sample(services: Option<seq<Service>>): TemperatureMetrics {
    match services
    case None => NoTemperature
    case Some(list) => TemperatureMetrics(SortedByName(Collected(list)))
  }

  /** `getTemperatures()`: one pass over the services, remembering the
      display names already taken, then a sort by name. */
  method GetTemperatures(services: Option<seq<Service>>) returns (metrics: TemperatureMetrics)
    ensures metrics == Sample(services)
  {
    var sensors: seq<TemperatureSensor> := [];
    var seenNames: set<string> := {};

    if services.None? {
      return NoTemperature;
    }
    var list := services.value;

    for i := 0 to |list|
      invariant sensors == Collected(list[..i])
      invariant seenNames == Names(sensors)
    {
      var service := list[i];
      CollectedStep(list, i);

      if service.temperature.None? {
        continue;
      }
      var temperature := service.temperature.value;

      var rawName := "Unknown";
      if service.product.Some? {
        rawName := service.product.value;
      }

      if !(temperature > -100.0 && temperature < 150.0) {
        continue;
      }

      var shouldSkip := exists k :: 0 <= k < |SkipPrefixes| && HasPrefix(rawName, SkipPrefixes[k]);
      if shouldSkip {
        continue;
      }

      var friendlyName := if rawName in SensorNameMap then SensorNameMap[rawName] else rawName;

      if friendlyName in seenNames {
        continue;
      }
      seenNames := seenNames + {friendlyName};

      var sensor := TemperatureSensor(rawName, friendlyName, temperature);
      sensors := sensors + [sensor];
    }
    assert list[..|list|] == list;

    sensors := SortedByName(sensors);

    metrics := TemperatureMetrics(sensors);
  }

  /** One more service: its reading is added unless its display name is taken. */
  lemma CollectedStep(services: seq<Service>, i: nat)
    requires i < |services|
    ensures Collected(services[..i + 1]) ==
      match Reading(services[i])
      case None => Collected(services[..i])
      case Some(sensor) =>
        if sensor.name in Names(Collected(services[..i])) then Collected(services[..i])
        else Collected(services[..i]) + [sensor]
  {
    assert services[..i + 1][..i] == services[..i];
  }

  /** No two sensors share a display name. */
  predicate DistinctNames(sensors: seq<TemperatureSensor>) {
    forall i, j :: 0 <= i < j < |sensors| ==> sensors[i].name != sensors[j].name
  }

  /** Strictly ascending by display name. */
  predicate Ascending(sensors: seq<TemperatureSensor>) {
    forall i, j :: 0 <= i < j < |sensors| ==> Below(sensors[i].name, sensors[j].name)
  }

  lemma {:induction false} CollectedHasDistinctNames(services: seq<Service>)
    ensures DistinctNames(Collected(services))
    decreases |services|
  {
    if services != [] {
      var kept := Collected(services[..|services| - 1]);
      CollectedHasDistinctNames(services[..|services| - 1]);
      match Reading(services[|services| - 1])
      case None =>
      case Some(sensor) =>
        if sensor.name !in Names(kept) {
          forall i | 0 <= i < |kept| ensures kept[i].name != sensor.name {
            assert kept[i] in kept;
          }
        }
    }
  }

  /** Every kept reading is some service's reading, and no earlier service
      had a reading with the same display name: the first one wins. */
  lemma {:induction false} CollectedKeepsFirst(services: seq<Service>, sensor: TemperatureSensor)
    requires sensor in Collected(services)
    ensures exists k :: 0 <= k < |services| && Reading(services[k]) == Some(sensor) && FirstWithName(services, k)
    decreases |services|
  {
    var n := |services| - 1;
    var init := services[..n];
    var kept := Collected(init);
    if sensor in kept {
      CollectedKeepsFirst(init, sensor);
      var k :| 0 <= k < |init| && Reading(init[k]) == Some(sensor) && FirstWithName(init, k);
      assert services[k] == init[k];
      assert forall j :: 0 <= j < k ==> services[j] == init[j];
      assert FirstWithName(services, k);
    } else {
      assert Reading(services[n]) == Some(sensor) && sensor.name !in Names(kept);
      forall j | 0 <= j < n ensures Reading(services[j]).None? || Reading(services[j]).value.name != sensor.name {
        assert services[j] == init[j];
        if Reading(init[j]).Some? {
          CollectedCoversNames(init, j);
        }
      }
    }
  }

  /** Every service's reading is represented by its display name. */
  lemma {:induction false} CollectedCoversNames(services: seq<Service>, k: nat)
    requires k < |services| && Reading(services[k]).Some?
    ensures Reading(services[k]).value.name in Names(Collected(services))
    decreases |services|
  {
    var n := |services| - 1;
    var init := services[..n];
    var kept := Collected(init);
    if k < n {
      assert services[k] == init[k];
      CollectedCoversNames(init, k);
      assert Names(kept) <= Names(Collected(services));
    } else {
      var sensor := Reading(services[n]).value;
      if sensor.name !in Names(kept) {
        assert sensor in Collected(services);
      }
    }
  }

  /** The service at `k` has a reading and no earlier service has a
      reading with the same display name. */
  predicate FirstWithName(services: seq<Service>, k: int) {
    0 <= k < |services| && Reading(services[k]).Some? &&
    forall j :: 0 <= j < k ==> Reading(services[j]).None? || Reading(services[j]).value.name != Reading(services[k]).value.name
  }

  /** The first reading of each display name is published. */
  lemma {:induction false} FirstOfNameIsKept(services: seq<Service>, a: nat)
    requires FirstWithName(services, a)
    ensures Reading(services[a]).value in Collected(services)
    decreases |services|
  {
    var n := |services| - 1;
    var init := services[..n];
    var kept := Collected(init);
    if a < n {
      assert services[a] == init[a];
      assert forall j :: 0 <= j < a ==> services[j] == init[j];
      assert FirstWithName(init, a);
      FirstOfNameIsKept(init, a);
    } else {
      var sensor := Reading(services[n]).value;
      if sensor.name in Names(kept) {
        var e :| e in kept && e.name == sensor.name;
        CollectedKeepsFirst(init, e);
      }
    }
  }

  /** A later reading with an already-published display name is dropped. */
  lemma LaterDuplicateIsDropped(services: seq<Service>, a: nat, b: nat)
    requires FirstWithName(services, a) && a < b < |services| && Reading(services[b]).Some?
    requires Reading(services[b]).value.name == Reading(services[a]).value.name
    requires Reading(services[b]) != Reading(services[a])
    ensures Reading(services[b]).value !in Collected(services)
  {
    var second := Reading(services[b]).value;
    if second in Collected(services) {
      CollectedKeepsFirst(services, second);
    }
  }

  lemma AscendingCons(head: TemperatureSensor, tail: seq<TemperatureSensor>)
    requires Ascending(tail)
    requires forall e :: e in tail ==> Below(head.name, e.name)
    ensures Ascending([head] + tail)
  {
    var s := [head] + tail;
    forall i, j | 0 <= i < j < |s| ensures Below(s[i].name, s[j].name) {
      if i == 0 {
        assert s[j] == tail[j - 1];
      } else {
        assert s[i] == tail[i - 1] && s[j] == tail[j - 1];
      }
    }
  }

  lemma {:induction false} InsertKeepsAscending(sensor: TemperatureSensor, sorted: seq<TemperatureSensor>)
    requires Ascending(sorted) && sensor.name !in Names(sorted)
    ensures Ascending(Insert(sensor, sorted))
    decreases |sorted|
  {
    if sorted == [] {
    } else if !Below(sorted[0].name, sensor.name) {
      assert sorted[0] in sorted;
      BelowTotal(sorted[0].name, sensor.name);
      forall e | e in sorted ensures Below(sensor.name, e.name) {
        var j :| 0 <= j < |sorted| && sorted[j] == e;
        if j > 0 {
          BelowTransitive(sensor.name, sorted[0].name, e.name);
        }
      }
      AscendingCons(sensor, sorted);
    } else {
      var tail := sorted[1..];
      assert Names(tail) <= Names(sorted) by {
        forall e | e in tail ensures e in sorted { }
      }
      InsertKeepsAscending(sensor, tail);
      var rest := Insert(sensor, tail);
      forall e | e in rest ensures Below(sorted[0].name, e.name) {
        assert e in multiset(rest);
        if e != sensor {
          assert e in multiset(tail);
          var j :| 0 <= j < |tail| && tail[j] == e;
          assert sorted[j + 1] == e;
        }
      }
      AscendingCons(sorted[0], rest);
    }
  }

  /** Sorting a list of distinct names gives them in strictly ascending order. */
  lemma {:induction false} SortedIsAscending(sensors: seq<TemperatureSensor>)
    requires DistinctNames(sensors)
    ensures Ascending(SortedByName(sensors))
    decreases |sensors|
  {
    if sensors != [] {
      var tail := sensors[1..];
      assert DistinctNames(tail) by {
        forall i, j | 0 <= i < j < |tail| ensures tail[i].name != tail[j].name {
          assert tail[i] == sensors[i + 1] && tail[j] == sensors[j + 1];
        }
      }
      SortedIsAscending(tail);
      var sorted := SortedByName(tail);
      assert sensors[0].name !in Names(sorted) by {
        forall e | e in sorted ensures e.name != sensors[0].name {
          assert e in multiset(tail);
          var j :| 0 <= j < |tail| && tail[j] == e;
          assert sensors[j + 1] == e;
        }
      }
      InsertKeepsAscending(sensors[0], sorted);
    }
  }

  /** The published list: plausible, not skipped, named through the table,
      one entry per display name, strictly ascending by name, and a
      permutation of the filtered, deduplicated list. */
  lemma SampleIsFilteredDedupedSorted(services: seq<Service>)
    ensures var out := Sample(Some(services)).sensors;
      Ascending(out) && DistinctNames(out) && multiset(out) == multiset(Collected(services)) &&
      forall sensor :: sensor in out ==>
        Plausible(sensor.temperature) && !Skipped(sensor.id) && sensor.name == DisplayName(sensor.id)
  {
    var collected := Collected(services);
    var out := SortedByName(collected);
    CollectedHasDistinctNames(services);
    SortedIsAscending(collected);
    forall i, j | 0 <= i < j < |out| ensures out[i].name != out[j].name {
      BelowIrreflexive(out[i].name);
    }
    forall sensor | sensor in out
      ensures Plausible(sensor.temperature) && !Skipped(sensor.id) && sensor.name == DisplayName(sensor.id)
    {
      assert sensor in multiset(out);
      assert sensor in collected;
      CollectedKeepsFirst(services, sensor);
    }
  }

  /** No service list: no sensors. */
  lemma NoServicesNoSensors()
    ensures Sample(None).sensors == []
  {
  }
}
