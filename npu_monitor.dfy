/** Neural-engine sampler (Monitors/NPUMonitor.swift): the power property of
    the first `AppleARMIODevice` entry whose name contains "ane". The entry
    list is an input (`None` when the matching call fails); each entry
    carries its name buffer (`None` when the name cannot be read) and its
    property dictionary (`None` when it cannot be read). */
module NPUMonitor {
  import opened Wrappers
  import opened MetricModels
  import opened Registry
  import opened Strings

  /** One registry entry. */
  datatype Device = Device(nameBuffer: Option<seq<bv8>>, properties: Option<map<string, Scalar>>)

  /** Index of the first NUL byte, if any. */
  function FirstNul(buffer: seq<bv8>): (r: Option<nat>)
    ensures r.Some? ==>
      (r.value < |buffer| && buffer[r.value] == 0 && forall i :: 0 <= i < r.value ==> buffer[i] != 0)
    ensures r.None? ==> forall i :: 0 <= i < |buffer| ==> buffer[i] != 0
  {
    if buffer == [] then None
    else if buffer[0] == 0 then Some(0)
    else
      var rest := FirstNul(buffer[1..]);
      assert forall i :: 1 <= i < |buffer| ==> buffer[i] == buffer[1..][i - 1];
      if rest.Some? then Some(rest.value + 1) else None
  }

  /** The name's bytes: the buffer up to its first NUL, or all of it. */
  function NameBytes(buffer: seq<bv8>): (r: seq<bv8>)
    ensures r <= buffer
    ensures forall i :: 0 <= i < |r| ==> r[i] != 0
    ensures |r| < |buffer| ==> buffer[|r|] == 0
  {
    match FirstNul(buffer)
    case Some(i) => buffer[..i]
    case None => buffer
  }

  /** Decoding as UTF-8, byte by byte: an ASCII byte is its character and
      any other byte becomes U+FFFD. */
  function Decode(bytes: seq<bv8>): (r: string)
    ensures |r| == |bytes|
    ensures forall i :: 0 <= i < |bytes| ==>
      r[i] == if bytes[i] < 0x80 then (bytes[i] as int) as char else '�'
  {
    if bytes == [] then []
    else [if bytes[0] < 0x80 then (bytes[0] as int) as char else '�'] + Decode(bytes[1..])
  }

  function Name(buffer: seq<bv8>): string {
    Decode(NameBytes(buffer))
  }

  /** The entry is consulted: its name reads, lower-cases to something
      containing "ane", and its properties read. */
  predicate Matches(device: Device) {
    device.nameBuffer.Some? && Contains(AsciiLower(Name(device.nameBuffer.value)), "ane") &&
    device.properties.Some?
  }

  /** The properties of the first consulted entry. */
  function FirstMatch(devices: seq<Device>): (r: Option<map<string, Scalar>>)
    ensures r.None? <==> forall j :: 0 <= j < |devices| ==> !Matches(devices[j])
  {
    if devices == [] then None
    else if Matches(devices[0]) then devices[0].properties
    else
      var r := FirstMatch(devices[1..]);
      assert forall j :: 1 <= j < |devices| ==> devices[j] == devices[1..][j - 1];
      r
  }

  /** `power-consumption` when it is an `Int`, else `ane-perf-ctr` when it
      is one, else 0. */
  function Power(props: map<string, Scalar>): real {
    var power := AsInt(Lookup(props, "power-consumption"));
    var perfCtrl := AsInt(Lookup(props, "ane-perf-ctr"));
    if power.Some? then power.value as real
    else if perfCtrl.Some? then perfCtrl.value as real
    else 0.0
  }

  /** What one call of `getNPUMetrics` returns. */
  function Sample(devices: Option<seq<Device>>): NPUMetrics {
    if devices.None? then NoNPU
    else
      match FirstMatch(devices.value)
      case None => NoNPU
      case Some(props) => NPUMetrics(Power(props))
  }

  /** `getNPUMetrics()`: walk the entries; at the first consulted one,
      assign `ane-perf-ctr` then `power-consumption`, and stop. */
  method GetNPUMetrics(devices: Option<seq<Device>>) returns (metrics: NPUMetrics)
    ensures metrics == Sample(devices)
  {
    metrics := NoNPU;

    if devices.None? {
      return;
    }
    var list := devices.value;

    var k := 0;
    while k < |list|
      invariant 0 <= k <= |list|
      invariant FirstMatch(list) == FirstMatch(list[k..])
      invariant metrics == NoNPU
    {
      var entry := list[k];
      assert list[k..][1..] == list[k + 1..];
      k := k + 1;

      if entry.nameBuffer.None? {
        continue;
      }
      var nameBuffer := entry.nameBuffer.value;

      var name: string;
      var nullIdx := FirstNul(nameBuffer);
      if nullIdx.Some? {
        name := Decode(nameBuffer[..nullIdx.value]);
      } else {
        name := Decode(nameBuffer);
      }
      if !Contains(AsciiLower(name), "ane") {
        continue;
      }

      if entry.properties.None? {
        continue;
      }
      var props := entry.properties.value;

      var perfCtrl := AsInt(Lookup(props, "ane-perf-ctr"));
      if perfCtrl.Some? {
        metrics := metrics.(powerMilliwatts := perfCtrl.value as real);
      }
      var power := AsInt(Lookup(props, "power-consumption"));
      if power.Some? {
        metrics := metrics.(powerMilliwatts := power.value as real);
      }

      break;
    }
  }

  /** The first consulted entry decides the result; entries after it are
      never looked at. */
  lemma {:induction false} FirstMatchEndsSearch(devices: seq<Device>, k: nat)
    requires k < |devices| && Matches(devices[k])
    requires forall j :: 0 <= j < k ==> !Matches(devices[j])
    ensures Sample(Some(devices)) == NPUMetrics(Power(devices[k].properties.value))
    decreases k
  {
    if k > 0 {
      var tail := devices[1..];
      assert tail[k - 1] == devices[k];
      assert forall j :: 0 <= j < k - 1 ==> tail[j] == devices[j + 1];
      FirstMatchEndsSearch(tail, k - 1);
    }
  }

  /** `power-consumption` wins over `ane-perf-ctr`; with neither key the
      consulted entry still ends the search with power 0. */
  lemma PowerPrecedence(props: map<string, Scalar>)
    ensures AsInt(Lookup(props, "power-consumption")).Some? ==>
      Power(props) == props["power-consumption"].n as real
    ensures AsInt(Lookup(props, "power-consumption")).None? && AsInt(Lookup(props, "ane-perf-ctr")).Some? ==>
      Power(props) == props["ane-perf-ctr"].n as real
    ensures "power-consumption" !in props && "ane-perf-ctr" !in props ==> Power(props) == 0.0
  {
  }

  /** Matching failure, or no consulted entry: power 0, and so inactive. */
  lemma NothingMatchedIsInactive(devices: Option<seq<Device>>)
    requires devices.None? || forall j :: 0 <= j < |devices.value| ==> !Matches(devices.value[j])
    ensures Sample(devices).powerMilliwatts == 0.0 && !Sample(devices).IsActive()
  {
  }

  /** The sample is active exactly when an entry was consulted and its
      chosen power figure is positive. */
  lemma ActiveIffPositivePower(devices: Option<seq<Device>>)
    ensures Sample(devices).IsActive() <==>
      devices.Some? && FirstMatch(devices.value).Some? && Power(FirstMatch(devices.value).value) > 0.0
  {
  }

  /** A name buffer without NUL is taken whole; one with a NUL stops there,
      so bytes after it cannot contribute "ane". */
  lemma {:induction false} NameStopsAtFirstNul(prefix: seq<bv8>, rest: seq<bv8>)
    requires forall i :: 0 <= i < |prefix| ==> prefix[i] != 0
    ensures Name(prefix + [0] + rest) == Decode(prefix)
    ensures Name(prefix) == Decode(prefix)
  {
    var buffer := prefix + [0] + rest;
    assert buffer[|prefix|] == 0;
    assert buffer[..|prefix|] == prefix;
    assert forall i :: 0 <= i < |prefix| ==> buffer[i] == prefix[i];
    match FirstNul(buffer)
    case Some(i) =>
      assert i == |prefix|;
    case None =>
  }
}
