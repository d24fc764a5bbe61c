/**
 * The timeline's heatmap overlay: per-region summed durations scaled by
 * the largest sum, and a red radial patch per region whose centre alpha
 * follows that intensity.
 */
module HeatmapOverlay {
  import opened Wrappers
  import opened Seqs
  import opened Types
  import opened Grouping

  /** `Math.max(...Object.values(sums))`; `None` stands for the `-Infinity` of no values. */
  function MaxOfSums(order: seq<string>, sums: map<string, int>): (m: Option<int>)
    requires forall r :: r in order ==> r in sums
    ensures m.None? <==> order == []
    ensures m.Some? ==> (forall r :: r in order ==> sums[r] <= m.value) && exists r :: r in order && sums[r] == m.value
  {
    if order == [] then None
    else
      var rest := MaxOfSums(order[..|order| - 1], sums);
      var last := sums[order[|order| - 1]];
      assert forall r :: r in order ==> r in order[..|order| - 1] || r == order[|order| - 1];
      if rest.None? || last >= rest.value then Some(last) else rest
  }

  datatype HeatmapEntry = HeatmapEntry(region: string, totalDuration: int, normalizedIntensity: real)

  /** `maxDuration ? total / maxDuration : 0`: `-Infinity` is truthy but any total over it is (minus) zero. */
  function Normalize(total: int, max: Option<int>): real
  {
    match max
    case None => 0.0
    case Some(m) => if m == 0 then 0.0 else total as real / m as real
  }

  function EntryFor(region: RegionDefinition, t: Totals): HeatmapEntry
    requires forall r :: r in t.order ==> r in t.sums
  {
    var total := if region.name in t.sums then t.sums[region.name] else 0;
    HeatmapEntry(region.name, total, Normalize(total, MaxOfSums(t.order, t.sums)))
  }

  /** What `calculateHeatmapData` returns. */
  function HeatmapDataOf(activities: seq<ActivityRecord>, regions: seq<RegionDefinition>): seq<HeatmapEntry>
  {
    var t := TotalsBy(activities, RegionOf);
    TotalsByMeaning(activities, RegionOf);
    seq(|regions|, i requires 0 <= i < |regions| => EntryFor(regions[i], t))
  }

  /** `calculateHeatmapData`: the summing `reduce`, the maximum, then one entry per region. */
  method CalculateHeatmapData(activities: seq<ActivityRecord>, regions: seq<RegionDefinition>) returns (data: seq<HeatmapEntry>)
    ensures data == HeatmapDataOf(activities, regions)
  {
    var sums: map<string, int> := map[];
    var order: seq<string> := [];
    var i := 0;
    while i < |activities|
      invariant 0 <= i <= |activities|
      invariant Totals(sums, order) == TotalsBy(activities[..i], RegionOf)
    {
      var activity := activities[i];
      assert activities[..i + 1][..i] == activities[..i];
      if activity.region !in sums {
        sums := sums[activity.region := 0];
        order := order + [activity.region];
      }
      sums := sums[activity.region := sums[activity.region] + activity.duration];
      i := i + 1;
    }
    assert activities[..|activities|] == activities;
    TotalsByMeaning(activities, RegionOf);
    var t := Totals(sums, order);
    data := seq(|regions|, k requires 0 <= k < |regions| => EntryFor(regions[k], t));
  }

  /**
   * One entry per region, in order, holding the region's summed duration
   * (0 without activities); its intensity is that sum over the largest
   * sum of any region named by an activity, and 0 when that largest sum is
   * 0 or there are no activities.
   */
  lemma HeatmapDataMeaning(activities: seq<ActivityRecord>, regions: seq<RegionDefinition>, i: nat)
    requires i < |regions|
    ensures var d := HeatmapDataOf(activities, regions);
      var total := SumFor(activities, RegionOf, regions[i].name);
      var max := MaxSeen(activities);
      |d| == |regions|
      && d[i].region == regions[i].name
      && d[i].totalDuration == total
      && d[i].normalizedIntensity == (if max.None? || max.value == 0 then 0.0 else total as real / max.value as real)
  {
    TotalsByMeaning(activities, RegionOf);
    var t := TotalsBy(activities, RegionOf);
    if regions[i].name !in t.sums {
      UnseenSumZero(activities, RegionOf, regions[i].name);
    }
  }

  /** The largest per-region sum over the regions the activities name; `None` without activities. */
  function MaxSeen(activities: seq<ActivityRecord>): Option<int>
  {
    var t := TotalsBy(activities, RegionOf);
    TotalsByMeaning(activities, RegionOf);
    MaxOfSums(t.order, t.sums)
  }

  /**
   * The maximum ranges over every region some activity names, whether or
   * not the region is in the drawn list, and is attained by one of them.
   */
  lemma MaxSeenMeaning(activities: seq<ActivityRecord>)
    ensures MaxSeen(activities).None? <==> activities == []
    ensures MaxSeen(activities).Some? ==>
      (forall k :: 0 <= k < |activities| ==> SumFor(activities, RegionOf, activities[k].region) <= MaxSeen(activities).value)
      && exists k :: 0 <= k < |activities| && SumFor(activities, RegionOf, activities[k].region) == MaxSeen(activities).value
  {
    TotalsByMeaning(activities, RegionOf);
    var t := TotalsBy(activities, RegionOf);
    var m := MaxOfSums(t.order, t.sums);
    if activities != [] {
      var a := activities[0];
      assert Seen(activities, RegionOf, a.region);
      assert t.order != [];
    } else {
      assert t.sums == map[];
    }
    if m.Some? {
      forall k | 0 <= k < |activities| ensures SumFor(activities, RegionOf, activities[k].region) <= m.value {
        assert Seen(activities, RegionOf, activities[k].region);
      }
      var r :| r in t.order && t.sums[r] == m.value;
      var k :| 0 <= k < |activities| && activities[k].region == r;
      assert SumFor(activities, RegionOf, activities[k].region) == m.value;
    }
  }

  /** With non-negative durations every intensity lies in [0, 1]. */
  lemma IntensityInRange(activities: seq<ActivityRecord>, regions: seq<RegionDefinition>, i: nat)
    requires forall k :: 0 <= k < |activities| ==> activities[k].duration >= 0
    requires i < |regions|
    ensures 0.0 <= HeatmapDataOf(activities, regions)[i].normalizedIntensity <= 1.0
  {
    TotalsByMeaning(activities, RegionOf);
    var t := TotalsBy(activities, RegionOf);
    var m := MaxOfSums(t.order, t.sums);
    var name := regions[i].name;
    if m.Some? {
      var total := if name in t.sums then t.sums[name] else 0;
      SumForNonNegative(activities, RegionOf, name);
      var r :| r in t.order && t.sums[r] == m.value;
      SumForNonNegative(activities, RegionOf, r);
      assert 0 <= total <= m.value;
      NormalizeInRange(total, m.value);
    }
  }

  lemma NormalizeInRange(total: int, max: int)
    requires 0 <= total <= max
    ensures 0.0 <= Normalize(total, Some(max)) <= 1.0
  {
    if max != 0 {
      assert total as real <= max as real;
      assert total as real / max as real <= max as real / max as real;
    }
  }

  /** A radial red patch: centre, outer radius and centre alpha (the rim is transparent). */
  datatype OverlayPatch = OverlayPatch(rect: RegionDimensions, centerX: real, centerY: real, radius: real, alpha: real)

  function FindRegion(regions: seq<RegionDefinition>, name: string): (r: Option<RegionDefinition>)
    ensures r.None? <==> forall k :: 0 <= k < |regions| ==> regions[k].name != name
    ensures r.Some? ==> r.value in regions && r.value.name == name
  {
    if regions == [] then None
    else if regions[0].name == name then Some(regions[0])
    else
      var r := FindRegion(regions[1..], name);
      assert forall k :: 1 <= k < |regions| ==> regions[k] == regions[1..][k - 1];
      r
  }

  function PatchFor(region: RegionDefinition, intensity: real, width: real, height: real): OverlayPatch
  {
    var rect := PixelRect(region, width, height);
    OverlayPatch(
      rect,
      rect.x + rect.width / 2.0,
      rect.y + rect.height / 2.0,
      (if rect.width >= rect.height then rect.width else rect.height) / 2.0,
      intensity * 0.7)
  }

  /** The patch for the first `n` entries, skipping entries whose region is not in the list. */
  function PatchesOf(data: seq<HeatmapEntry>, n: nat, regions: seq<RegionDefinition>, width: real, height: real): seq<OverlayPatch>
    requires n <= |data|
  {
    if n == 0 then []
    else
      var previous := PatchesOf(data, n - 1, regions, width, height);
      match FindRegion(regions, data[n - 1].region)
      case None => previous
      case Some(region) => previous + [PatchFor(region, data[n - 1].normalizedIntensity, width, height)]
  }

  /** `drawHeatmap`: one patch per entry whose region is found, alpha `0.7 * intensity` at the centre. */
  method DrawHeatmap(data: seq<HeatmapEntry>, regions: seq<RegionDefinition>, width: real, height: real) returns (patches: seq<OverlayPatch>)
    ensures patches == PatchesOf(data, |data|, regions, width, height)
  {
    patches := [];
    var i := 0;
    while i < |data|
      invariant 0 <= i <= |data|
      invariant patches == PatchesOf(data, i, regions, width, height)
    {
      var region := FindRegion(regions, data[i].region);
      if region.Some? {
        patches := patches + [PatchFor(region.value, data[i].normalizedIntensity, width, height)];
      }
      i := i + 1;
    }
  }

  /** Entries built from the same region list are never skipped: one patch per entry. */
  lemma {:induction false} NoEntrySkipped(activities: seq<ActivityRecord>, regions: seq<RegionDefinition>, n: nat, width: real, height: real)
    requires n <= |regions|
    ensures |PatchesOf(HeatmapDataOf(activities, regions), n, regions, width, height)| == n
  {
    if n > 0 {
      NoEntrySkipped(activities, regions, n - 1, width, height);
      var d := HeatmapDataOf(activities, regions);
      assert d[n - 1].region == regions[n - 1].name;
      assert FindRegion(regions, d[n - 1].region).Some?;
    }
  }

  /** `renderHeatmap`: nothing while disabled; otherwise the patches of the computed data. */
  method RenderHeatmap(enabled: bool, activities: seq<ActivityRecord>, regions: seq<RegionDefinition>, width: real, height: real)
    returns (patches: seq<OverlayPatch>)
    ensures !enabled ==> patches == []
    ensures enabled ==> patches == PatchesOf(HeatmapDataOf(activities, regions), |regions|, regions, width, height)
    ensures enabled ==> |patches| == |regions|
  {
    if !enabled {
      return [];
    }
    var data := CalculateHeatmapData(activities, regions);
    patches := DrawHeatmap(data, regions, width, height);
    NoEntrySkipped(activities, regions, |regions|, width, height);
  }
}
