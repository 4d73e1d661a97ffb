/** Disk sampler (Monitors/DiskMonitor.swift): capacity of the mounted
    local volumes. The mounted-volume list is an input (`None` when the
    enumeration fails); each URL carries its path, its last path component
    and its resource values (`None` when they cannot be read). */
module DiskMonitor {
  import opened Wrappers
  import opened MetricModels

  /** Bytes per gigabyte as the source divides: 2^30. */
  const BytesPerGB: real := 1073741824.0

  /** The resource values read for one volume; each may be missing. */
  datatype Resources = Resources(
    volumeName: Option<string>,
    totalCapacity: Option<int>,
    availableCapacity: Option<int>,
    isLocal: Option<bool>)

  datatype VolumeURL = VolumeURL(path: string, lastPathComponent: string, resources: Option<Resources>)

  /** The volume one URL contributes, if any: resources readable, known to
      be local, and a positive total. The name falls back to the last path
      component and missing capacities count as 0. */
  function Volume(url: VolumeURL): (r: Option<DiskVolume>)
    ensures r.Some? <==>
      url.resources.Some? && url.resources.value.isLocal == Some(true) &&
      url.resources.value.totalCapacity.GetOr(0) > 0
    ensures r.Some? ==>
      var res := url.resources.value;
      var total := res.totalCapacity.GetOr(0);
      r.value.name == res.volumeName.GetOr(url.lastPathComponent) &&
      r.value.mountPoint == url.path &&
      r.value.totalGB * BytesPerGB == total as real &&
      r.value.usedGB * BytesPerGB == (total - res.availableCapacity.GetOr(0)) as real
  {
    match url.resources
    case None => None
    case Some(res) =>
      if !res.isLocal.GetOr(false) then None
      else
        var name := res.volumeName.GetOr(url.lastPathComponent);
        var total := res.totalCapacity.GetOr(0);
        var available := res.availableCapacity.GetOr(0);
        var totalGB := total as real / BytesPerGB;
        var usedGB := (total - available) as real / BytesPerGB;
        if !(totalGB > 0.0) then None
        else Some(DiskVolume(name, url.path, totalGB, usedGB))
  }

  /** The contributed volumes, in enumeration order. */
  function Volumes(urls: seq<VolumeURL>): seq<DiskVolume> {
    if urls == [] then []
    else
      var init := Volumes(urls[..|urls| - 1]);
      match Volume(urls[|urls| - 1])
      case None => init
      case Some(v) => init + [v]
  }

  /** What one call of `getDiskUsage` returns. */
  function Sample(urls: Option<seq<VolumeURL>>): DiskMetrics {
    match urls
    case None => NoDisk
    case Some(list) => DiskMetrics(Volumes(list))
  }

  /** `getDiskUsage()`: one pass over the mounted volumes. */
  method GetDiskUsage(urls: Option<seq<VolumeURL>>) returns (metrics: DiskMetrics)
    ensures metrics == Sample(urls)
  {
    var volumes: seq<DiskVolume> := [];

    if urls.None? {
      return NoDisk;
    }
    var list := urls.value;

    for i := 0 to |list|
      invariant volumes == Volumes(list[..i])
    {
      var url := list[i];
      assert list[..i + 1][..i] == list[..i];
      assert list[..i + 1][i] == url;

      if url.resources.None? {
        continue;
      }
      var resources := url.resources.value;

      var isLocal := resources.isLocal.GetOr(false);
      if !isLocal {
        continue;
      }

      var name := resources.volumeName.GetOr(url.lastPathComponent);
      var total := resources.totalCapacity.GetOr(0);
      var available := resources.availableCapacity.GetOr(0);

      var totalGB := total as real / BytesPerGB;
      var usedGB := (total - available) as real / BytesPerGB;

      if !(totalGB > 0.0) {
        continue;
      }

      var volume := DiskVolume(name, url.path, totalGB, usedGB);
      volumes := volumes + [volume];
    }
    assert list[..|list|] == list;

    metrics := DiskMetrics(volumes);
  }

  /** Enumeration order is kept: the volumes of two runs of URLs are the
      volumes of the first followed by those of the second. */
  lemma {:induction false} VolumesAppend(a: seq<VolumeURL>, b: seq<VolumeURL>)
    ensures Volumes(a + b) == Volumes(a) + Volumes(b)
    decreases |b|
  {
    if b == [] {
      assert a + b == a;
    } else {
      var n := |b| - 1;
      assert (a + b)[..|a + b| - 1] == a + b[..n];
      assert (a + b)[|a + b| - 1] == b[n];
      VolumesAppend(a, b[..n]);
    }
  }

  /** The output lists, in order, the volume of each URL that contributes
      one: a single URL gives exactly its own volume. */
  lemma VolumesOfOne(url: VolumeURL)
    ensures Volumes([url]) == if Volume(url).Some? then [Volume(url).value] else []
  {
    assert [url][..0] == [];
  }

  /** Every listed volume comes from some URL and has a positive total. */
  lemma {:induction false} ListedVolumesArePositive(urls: seq<VolumeURL>)
    ensures forall i :: 0 <= i < |Volumes(urls)| ==> Volumes(urls)[i].totalGB > 0.0
    ensures forall v :: v in Volumes(urls) ==> exists j :: 0 <= j < |urls| && Volume(urls[j]) == Some(v)
    decreases |urls|
  {
    if urls != [] {
      var init := urls[..|urls| - 1];
      ListedVolumesArePositive(init);
      assert forall j :: 0 <= j < |init| ==> urls[j] == init[j];
    }
  }

  /** Enumeration failure: no volumes. */
  lemma FailureGivesNoVolumes()
    ensures Sample(None).volumes == []
  {
  }
}
