/**
 * The per-activity heatmap: records are filtered by excluded region,
 * optionally renamed to their combined region, folded into per-region
 * statistics for one activity, and each layout region is shaded by its
 * share of the busiest region.
 */
module ActivityHeatmap {
  import opened Wrappers
  import opened Seqs
  import opened Strs
  import opened Types
  import opened RegionStore
  import BaseCanvas
  import DateUtils

  /** Seconds a record must exceed to count as an instance when instances are shown. */
  const INSTANCE_DURATION_THRESHOLD: int := 5

  datatype Rgba = Rgba(r: int, g: int, b: int, a: real)

  const LOW: Rgba := Rgba(179, 214, 255, 0.4)
  const MEDIUM: Rgba := Rgba(255, 229, 179, 0.6)
  const HIGH: Rgba := Rgba(255, 179, 179, 0.8)

  /** Three colour bands: up to 0.3, up to 0.7, above. */
  function GetHeatmapColor(intensity: real): (c: Rgba)
    ensures c == LOW || c == MEDIUM || c == HIGH
    ensures c == LOW <==> intensity <= 0.3
    ensures c == HIGH <==> intensity > 0.7
  {
    if intensity <= 0.3 then LOW else if intensity <= 0.7 then MEDIUM else HIGH
  }

  /** A busier region is never drawn more transparent than a quieter one. */
  lemma HeatmapColorMonotone(i: real, j: real)
    requires i <= j
    ensures GetHeatmapColor(i).a <= GetHeatmapColor(j).a
  {
  }

  /** `processCombinedRegions`: every record's region becomes its first containing combination's name. */
  function ProcessCombinedRegions(data: seq<ActivityRecord>, combos: seq<Combination>): (r: seq<ActivityRecord>)
    ensures |r| == |data|
    ensures forall i :: 0 <= i < |data| ==> r[i] == data[i].(region := CombinedRegion(combos, data[i].region))
  {
    seq(|data|, i requires 0 <= i < |data| => data[i].(region := CombinedRegion(combos, data[i].region)))
  }

  /**
   * Combining keeps the order and every field but the region; a record in
   * no combination keeps its region, and under the store invariant a record
   * of a combined region is renamed to the one combination holding it.
   */
  lemma ProcessCombinedRegionsMeaning(data: seq<ActivityRecord>, combos: seq<Combination>, i: nat)
    requires i < |data|
    ensures var r := ProcessCombinedRegions(data, combos)[i];
      r.id == data[i].id && r.date == data[i].date && r.startTime == data[i].startTime
      && r.endTime == data[i].endTime && r.activity == data[i].activity && r.duration == data[i].duration
    ensures (forall j :: 0 <= j < |combos| ==> data[i].region !in combos[j].regions) ==>
      ProcessCombinedRegions(data, combos)[i] == data[i]
    ensures forall k :: WellFormed(combos) && 0 <= k < |combos| && data[i].region in combos[k].regions ==>
      ProcessCombinedRegions(data, combos)[i].region == combos[k].name
  {
    forall k | WellFormed(combos) && 0 <= k < |combos| && data[i].region in combos[k].regions {
      CombinedRegionUnique(combos, data[i].region, k);
    }
  }

  function NotExcluded(excluded: set<string>): ActivityRecord -> bool
  {
    (a: ActivityRecord) => a.region !in excluded
  }

  /** `processedData`: drop records of excluded regions (by raw name), then combine if asked. */
  function ProcessedData(data: seq<ActivityRecord>, excluded: set<string>, combos: seq<Combination>, useCombined: bool): (r: seq<ActivityRecord>)
    ensures |r| <= |data|
    ensures !useCombined ==> forall x :: x in r <==> x in data && x.region !in excluded
    ensures useCombined ==> r == ProcessCombinedRegions(Filter(data, NotExcluded(excluded)), combos)
  {
    var filtered := Filter(data, NotExcluded(excluded));
    if useCombined then ProcessCombinedRegions(filtered, combos) else filtered
  }

  /** Per-region statistics; a non-finite average or percentage (a division by zero) is `None`. */
  datatype RegionStats = RegionStats(
    duration: int,
    count: nat,
    avgDuration: Option<real>,
    percentage: Option<real>,
    activity: string,
    region: string)

  /** The fold's result; `order` is the insertion order of the region map. */
  datatype HeatData = HeatData(
    stats: map<string, RegionStats>,
    order: seq<string>,
    maxDuration: int,
    maxCount: nat,
    totalDuration: int,
    totalCount: nat)

  const EMPTY_HEAT: HeatData := HeatData(map[], [], 0, 0, 0, 0)

  /** `part / whole * 100`, or `None` where the division has no finite value. */
  function Ratio(part: real, whole: real): Option<real>
  {
    if whole == 0.0 then None else Some(part / whole * 100.0)
  }

  function Average(duration: int, count: nat): Option<real>
  {
    if count == 0 then None else Some(duration as real / count as real)
  }

  /** A record counts unless instances are shown and it lasts the threshold or less. */
  predicate Counted(rec: ActivityRecord, showInstances: bool)
  {
    !showInstances || rec.duration > INSTANCE_DURATION_THRESHOLD
  }

  function Inc(counted: bool): nat
  {
    if counted then 1 else 0
  }

  function Max(a: int, b: int): int
  {
    if a >= b then a else b
  }

  /** One iteration of the `forEach` in `calculateHeatData`. */
  function HeatStep(h: HeatData, rec: ActivityRecord, activity: string, showInstances: bool): HeatData
  {
    if rec.activity != activity then h
    else
      var counted := Counted(rec, showInstances);
      var totalDuration := h.totalDuration + rec.duration;
      var totalCount := h.totalCount + Inc(counted);
      var current :=
        if rec.region in h.stats then h.stats[rec.region]
        else RegionStats(0, 0, Some(0.0), Some(0.0), activity, rec.region);
      var duration := current.duration + rec.duration;
      var count := current.count + Inc(counted);
      var percentage :=
        if showInstances then Ratio(count as real, totalCount as real)
        else Ratio(duration as real, totalDuration as real);
      var updated := RegionStats(duration, count, Average(duration, count), percentage, current.activity, current.region);
      HeatData(
        h.stats[rec.region := updated],
        if rec.region in h.stats then h.order else h.order + [rec.region],
        Max(h.maxDuration, duration),
        Max(h.maxCount, count),
        totalDuration,
        totalCount)
  }

  /** The fold over all records, one step per record in order. */
  function HeatFold(records: seq<ActivityRecord>, activity: string, showInstances: bool): HeatData
    decreases |records|
  {
    if records == [] then EMPTY_HEAT
    else HeatStep(HeatFold(records[..|records| - 1], activity, showInstances), records[|records| - 1], activity, showInstances)
  }

  lemma HeatFoldStep(records: seq<ActivityRecord>, i: nat, activity: string, showInstances: bool)
    requires i < |records|
    ensures HeatFold(records[..i + 1], activity, showInstances) == HeatStep(HeatFold(records[..i], activity, showInstances), records[i], activity, showInstances)
  {
    assert records[..i + 1][..i] == records[..i];
  }

  /** `calculateHeatData`: one pass updating the region map, the totals and the maxima. */
  method CalculateHeatData(records: seq<ActivityRecord>, activity: string, showInstances: bool) returns (heat: HeatData)
    ensures heat == HeatFold(records, activity, showInstances)
  {
    var regionStats: map<string, RegionStats> := map[];
    var order: seq<string> := [];
    var maxDuration := 0;
    var maxCount: nat := 0;
    var totalDuration := 0;
    var totalCount: nat := 0;
    var i := 0;
    while i < |records|
      invariant 0 <= i <= |records|
      invariant HeatData(regionStats, order, maxDuration, maxCount, totalDuration, totalCount) == HeatFold(records[..i], activity, showInstances)
    {
      HeatFoldStep(records, i, activity, showInstances);
      regionStats, order, maxDuration, maxCount, totalDuration, totalCount :=
        AddRecord(regionStats, order, maxDuration, maxCount, totalDuration, totalCount, records[i], activity, showInstances);
      i := i + 1;
    }
    assert records[..|records|] == records;
    heat := HeatData(regionStats, order, maxDuration, maxCount, totalDuration, totalCount);
  }

  /** The body of the `forEach`: a record of the activity updates its region's entry, the totals and the maxima. */
  method AddRecord(regionStats: map<string, RegionStats>, order: seq<string>, maxDuration: int, maxCount: nat,
                   totalDuration: int, totalCount: nat, record: ActivityRecord, activity: string, showInstances: bool)
    returns (regionStats': map<string, RegionStats>, order': seq<string>, maxDuration': int, maxCount': nat,
             totalDuration': int, totalCount': nat)
    ensures HeatData(regionStats', order', maxDuration', maxCount', totalDuration', totalCount')
      == HeatStep(HeatData(regionStats, order, maxDuration, maxCount, totalDuration, totalCount), record, activity, showInstances)
  {
    regionStats', order', maxDuration', maxCount', totalDuration', totalCount' :=
      regionStats, order, maxDuration, maxCount, totalDuration, totalCount;
    if record.activity == activity {
      var counted := Counted(record, showInstances);
      totalDuration' := totalDuration + record.duration;
      totalCount' := totalCount + Inc(counted);
      var current := RegionStats(0, 0, Some(0.0), Some(0.0), activity, record.region);
      if record.region in regionStats {
        current := regionStats[record.region];
      } else {
        order' := order + [record.region];
      }
      var duration := current.duration + record.duration;
      var count := current.count + Inc(counted);
      var percentage :=
        if showInstances then Ratio(count as real, totalCount' as real)
        else Ratio(duration as real, totalDuration' as real);
      regionStats' := regionStats[record.region := RegionStats(duration, count, Average(duration, count), percentage, current.activity, current.region)];
      maxDuration' := Max(maxDuration, duration);
      maxCount' := Max(maxCount, count);
    }
  }

  // ---- What the fold computes ----

  /** The map's keys are its insertion order, each once; each entry is keyed by its own region. */
  ghost predicate Consistent(h: HeatData, activity: string)
  {
    Distinct(h.order)
    && (forall r :: r in h.stats <==> r in h.order)
    && (forall r :: r in h.stats ==> h.stats[r].region == r && h.stats[r].activity == activity)
  }

  /** Total duration of the records of `activity` in `region`. */
  function RegionDuration(records: seq<ActivityRecord>, activity: string, region: string): int
    decreases |records|
  {
    if records == [] then 0
    else
      var last := records[|records| - 1];
      RegionDuration(records[..|records| - 1], activity, region)
        + (if last.activity == activity && last.region == region then last.duration else 0)
  }

  /** Number of counted records of `activity` in `region`. */
  function RegionCount(records: seq<ActivityRecord>, activity: string, region: string, showInstances: bool): nat
    decreases |records|
  {
    if records == [] then 0
    else
      var last := records[|records| - 1];
      RegionCount(records[..|records| - 1], activity, region, showInstances)
        + (if last.activity == activity && last.region == region && Counted(last, showInstances) then 1 else 0)
  }

  /** Total duration of the records of `activity`. */
  function ActivityDuration(records: seq<ActivityRecord>, activity: string): int
    decreases |records|
  {
    if records == [] then 0
    else
      var last := records[|records| - 1];
      ActivityDuration(records[..|records| - 1], activity) + (if last.activity == activity then last.duration else 0)
  }

  /** Number of counted records of `activity`. */
  function ActivityCount(records: seq<ActivityRecord>, activity: string, showInstances: bool): nat
    decreases |records|
  {
    if records == [] then 0
    else
      var last := records[|records| - 1];
      ActivityCount(records[..|records| - 1], activity, showInstances)
        + (if last.activity == activity && Counted(last, showInstances) then 1 else 0)
  }

  /** Some record of `activity` lies in `region`. */
  ghost predicate Seen(records: seq<ActivityRecord>, activity: string, region: string)
  {
    exists i :: 0 <= i < |records| && records[i].activity == activity && records[i].region == region
  }

  lemma SeenStep(records: seq<ActivityRecord>, activity: string, r: string)
    requires records != []
    ensures var n := |records| - 1;
      Seen(records, activity, r) <==> Seen(records[..n], activity, r) || (records[n].activity == activity && records[n].region == r)
  {
    var n := |records| - 1;
    var p := records[..n];
    if Seen(records, activity, r) {
      var i :| 0 <= i < |records| && records[i].activity == activity && records[i].region == r;
      if i < n {
        assert p[i] == records[i];
      }
    }
    if Seen(p, activity, r) {
      var i :| 0 <= i < |p| && p[i].activity == activity && p[i].region == r;
      assert records[i] == p[i];
    }
  }

  /** The fold keeps one entry per region that has a record of the activity, keyed by that region, in first-seen order. */
  lemma {:induction false} HeatFoldKeys(records: seq<ActivityRecord>, activity: string, showInstances: bool)
    ensures Consistent(HeatFold(records, activity, showInstances), activity)
    ensures forall r :: r in HeatFold(records, activity, showInstances).stats <==> Seen(records, activity, r)
    decreases |records|
  {
    if records != [] {
      var n := |records| - 1;
      var p := records[..n];
      HeatFoldKeys(p, activity, showInstances);
      var h := HeatFold(p, activity, showInstances);
      var rec := records[n];
      forall r {
        SeenStep(records, activity, r);
      }
      if rec.activity == activity && rec.region !in h.stats {
        DistinctAppend(h.order, rec.region);
      }
    }
  }

  /** The totals are the activity's total duration and number of counted records. */
  lemma {:induction false} HeatFoldTotals(records: seq<ActivityRecord>, activity: string, showInstances: bool)
    ensures HeatFold(records, activity, showInstances).totalDuration == ActivityDuration(records, activity)
    ensures HeatFold(records, activity, showInstances).totalCount == ActivityCount(records, activity, showInstances)
    decreases |records|
  {
    if records != [] {
      HeatFoldTotals(records[..|records| - 1], activity, showInstances);
    }
  }

  /** Each region's entry holds the region's total duration and number of counted records. */
  lemma {:induction false} HeatFoldRegions(records: seq<ActivityRecord>, activity: string, showInstances: bool)
    ensures var h := HeatFold(records, activity, showInstances);
      forall r :: r in h.stats ==>
        h.stats[r].duration == RegionDuration(records, activity, r)
        && h.stats[r].count == RegionCount(records, activity, r, showInstances)
    decreases |records|
  {
    if records != [] {
      var n := |records| - 1;
      var p := records[..n];
      HeatFoldRegions(p, activity, showInstances);
      HeatFoldKeys(p, activity, showInstances);
      var h := HeatFold(p, activity, showInstances);
      var rec := records[n];
      if rec.activity == activity && rec.region !in h.stats {
        RegionTotalsUnseen(p, activity, rec.region, showInstances);
      }
    }
  }

  lemma {:induction false} RegionTotalsUnseen(records: seq<ActivityRecord>, activity: string, region: string, showInstances: bool)
    requires !Seen(records, activity, region)
    ensures RegionDuration(records, activity, region) == 0
    ensures RegionCount(records, activity, region, showInstances) == 0
    decreases |records|
  {
    if records != [] {
      SeenStep(records, activity, region);
      RegionTotalsUnseen(records[..|records| - 1], activity, region, showInstances);
    }
  }

  /** The maxima bound every region's figures, are never negative, and the count maximum is some region's. */
  lemma {:induction false} HeatFoldMaxima(records: seq<ActivityRecord>, activity: string, showInstances: bool)
    ensures var h := HeatFold(records, activity, showInstances);
      h.maxDuration >= 0
      && (forall r :: r in h.stats ==> h.stats[r].duration <= h.maxDuration && h.stats[r].count <= h.maxCount)
      && (h.maxCount == 0 || exists r :: r in h.stats && h.stats[r].count == h.maxCount)
    decreases |records|
  {
    if records != [] {
      var n := |records| - 1;
      var p := records[..n];
      HeatFoldMaxima(p, activity, showInstances);
      var h := HeatFold(p, activity, showInstances);
      var rec := records[n];
      if rec.activity == activity {
        var h2 := HeatStep(h, rec, activity, showInstances);
        if h2.maxCount != 0 && h2.maxCount != h2.stats[rec.region].count {
          var r :| r in h.stats && h.stats[r].count == h.maxCount;
          assert h2.stats[r].count == h2.maxCount;
        }
      }
    }
  }

  lemma DistinctAppend(s: seq<string>, x: string)
    requires Distinct(s) && x !in s
    ensures Distinct(s + [x])
  {
    var t := s + [x];
    forall i, j | 0 <= i < j < |t| ensures t[i] != t[j] {
      if j == |s| {
        assert t[i] == s[i];
      } else {
        assert t[i] == s[i] && t[j] == s[j];
      }
    }
  }

  /** With non-negative durations the largest duration is some region's (or 0 if none). */
  lemma {:induction false} MaxDurationAttained(records: seq<ActivityRecord>, activity: string, showInstances: bool)
    requires forall i :: 0 <= i < |records| ==> records[i].duration >= 0
    ensures var h := HeatFold(records, activity, showInstances);
      h.maxDuration == 0 || exists r :: r in h.stats && h.stats[r].duration == h.maxDuration
    decreases |records|
  {
    if records != [] {
      var n := |records| - 1;
      var p := records[..n];
      assert forall i :: 0 <= i < |p| ==> p[i] == records[i];
      MaxDurationAttained(p, activity, showInstances);
      var h := HeatFold(p, activity, showInstances);
      var rec := records[n];
      assert records == p + [rec];
      if rec.activity == activity {
        var h2 := HeatStep(h, rec, activity, showInstances);
        if h2.maxDuration != 0 && h2.maxDuration != h2.stats[rec.region].duration {
          assert h2.maxDuration == h.maxDuration;
          var r :| r in h.stats && h.stats[r].duration == h.maxDuration;
          assert h2.stats[r].duration == h2.maxDuration;
        }
      }
    }
  }

  // ---- Percentages: the running share and the final share ----

  /** The figure percentages and intensities are taken from. */
  function Metric(s: RegionStats, showInstances: bool): int
  {
    if showInstances then s.count else s.duration
  }

  function Total(h: HeatData, showInstances: bool): int
  {
    if showInstances then h.totalCount else h.totalDuration
  }

  /** A region's share of the final total, as a percentage. */
  function FinalShare(h: HeatData, r: string, showInstances: bool): Option<real>
    requires r in h.stats
  {
    Ratio(Metric(h.stats[r], showInstances) as real, Total(h, showInstances) as real)
  }

  /** The statistics with every percentage recomputed against the final total. */
  function FinalizeHeatData(h: HeatData, showInstances: bool): (f: HeatData)
    ensures f.stats.Keys == h.stats.Keys && f.order == h.order
    ensures f.maxDuration == h.maxDuration && f.maxCount == h.maxCount
    ensures f.totalDuration == h.totalDuration && f.totalCount == h.totalCount
    ensures forall r :: r in h.stats ==> f.stats[r] == h.stats[r].(percentage := FinalShare(h, r, showInstances))
  {
    h.(stats := map r | r in h.stats :: h.stats[r].(percentage := FinalShare(h, r, showInstances)))
  }

  /** The running share is the final one for the region of the last record, when that record is of the activity. */
  lemma LastRecordShareIsFinal(records: seq<ActivityRecord>, activity: string, showInstances: bool)
    requires records != [] && records[|records| - 1].activity == activity
    ensures var h := HeatFold(records, activity, showInstances);
      records[|records| - 1].region in h.stats
      && h.stats[records[|records| - 1].region].percentage == FinalShare(h, records[|records| - 1].region, showInstances)
  {
  }

  /**
   * As written a region keeps the share it had at its own last record:
   * with durations A 10, A 20 and B 30, region A reports 100% and B 50%,
   * while the final shares are 50% each.
   */
  lemma RunningShareCounterexample()
    ensures var records := [
        ActivityRecord("E-A", 0, 0, 10, "A", "Walk", 10),
        ActivityRecord("E-A", 0, 10, 30, "A", "Walk", 20),
        ActivityRecord("E-B", 0, 0, 30, "B", "Walk", 30)];
      var h := HeatFold(records, "Walk", false);
      h.stats["A"].percentage == Some(100.0) && h.stats["B"].percentage == Some(50.0)
      && FinalizeHeatData(h, false).stats["A"].percentage == Some(50.0)
      && FinalizeHeatData(h, false).stats["B"].percentage == Some(50.0)
  {
    var r0 := ActivityRecord("E-A", 0, 0, 10, "A", "Walk", 10);
    var r1 := ActivityRecord("E-A", 0, 10, 30, "A", "Walk", 20);
    var r2 := ActivityRecord("E-B", 0, 0, 30, "B", "Walk", 30);
    var records := [r0, r1, r2];
    HeatFoldStep(records, 0, "Walk", false);
    HeatFoldStep(records, 1, "Walk", false);
    HeatFoldStep(records, 2, "Walk", false);
    assert records[..0] == [];
    assert records[..3] == records;
    var h0 := HeatStep(EMPTY_HEAT, r0, "Walk", false);
    assert h0.stats["A"].duration == 10 && h0.totalDuration == 10;
    var h1 := HeatStep(h0, r1, "Walk", false);
    assert h1.stats["A"].duration == 30 && h1.totalDuration == 30;
    assert h1.stats["A"].percentage == Some(100.0);
    var h := HeatStep(h1, r2, "Walk", false);
    assert "B" != "A";
    assert h.totalDuration == 60 && h.stats["B"].duration == 30 && h.stats["A"] == h1.stats["A"];
    assert h == HeatFold(records, "Walk", false);
  }

  /** Sum of a figure over the regions of `order`. */
  function SumMetric(order: seq<string>, stats: map<string, RegionStats>, showInstances: bool): int
    requires forall r :: r in order ==> r in stats
  {
    if order == [] then 0
    else SumMetric(order[..|order| - 1], stats, showInstances) + Metric(stats[order[|order| - 1]], showInstances)
  }

  /** Sum of the finite percentages over the regions of `order`. */
  function SumPercentages(order: seq<string>, stats: map<string, RegionStats>): real
    requires forall r :: r in order ==> r in stats
  {
    if order == [] then 0.0
    else SumPercentages(order[..|order| - 1], stats) + stats[order[|order| - 1]].percentage.GetOr(0.0)
  }

  lemma {:induction false} SumMetricUpdate(order: seq<string>, stats: map<string, RegionStats>, x: string, v: RegionStats, showInstances: bool)
    requires forall r :: r in order ==> r in stats
    requires Distinct(order)
    ensures x in order ==>
      SumMetric(order, stats[x := v], showInstances) == SumMetric(order, stats, showInstances) - Metric(stats[x], showInstances) + Metric(v, showInstances)
    ensures x !in order ==> SumMetric(order, stats[x := v], showInstances) == SumMetric(order, stats, showInstances)
  {
    if order != [] {
      var p := order[..|order| - 1];
      assert forall r :: r in p ==> r in order;
      assert Distinct(p);
      SumMetricUpdate(p, stats, x, v, showInstances);
      if x == order[|order| - 1] {
        assert x !in p;
      }
    }
  }

  lemma SumMetricAppend(order: seq<string>, stats: map<string, RegionStats>, x: string, showInstances: bool)
    requires forall r :: r in order ==> r in stats
    requires x in stats
    ensures SumMetric(order + [x], stats, showInstances) == SumMetric(order, stats, showInstances) + Metric(stats[x], showInstances)
  {
    assert (order + [x])[..|order|] == order;
  }

  /** The sums of the region figures and the totals step together. */
  lemma SumsStep(h: HeatData, rec: ActivityRecord, activity: string, showInstances: bool, byCount: bool)
    requires Consistent(h, activity)
    requires SumMetric(h.order, h.stats, byCount) == Total(h, byCount)
    ensures var h2 := HeatStep(h, rec, activity, showInstances);
      (forall r :: r in h2.order ==> r in h2.stats) && SumMetric(h2.order, h2.stats, byCount) == Total(h2, byCount)
  {
    if rec.activity == activity {
      var h2 := HeatStep(h, rec, activity, showInstances);
      var v := h2.stats[rec.region];
      assert h2.stats == h.stats[rec.region := v];
      SumMetricUpdate(h.order, h.stats, rec.region, v, byCount);
      if rec.region !in h.stats {
        assert h2.order == h.order + [rec.region];
        SumMetricAppend(h.order, h2.stats, rec.region, byCount);
      }
    }
  }

  /** The regions' figures add up to the total: durations to `totalDuration`, counts to `totalCount`. */
  lemma {:induction false} HeatFoldSums(records: seq<ActivityRecord>, activity: string, showInstances: bool, byCount: bool)
    ensures var h := HeatFold(records, activity, showInstances);
      (forall r :: r in h.order ==> r in h.stats)
      && SumMetric(h.order, h.stats, byCount) == Total(h, byCount)
    decreases |records|
  {
    if records != [] {
      var n := |records| - 1;
      HeatFoldSums(records[..n], activity, showInstances, byCount);
      HeatFoldKeys(records[..n], activity, showInstances);
      SumsStep(HeatFold(records[..n], activity, showInstances), records[n], activity, showInstances, byCount);
    }
  }

  lemma {:induction false} SharesSum(order: seq<string>, h: HeatData, showInstances: bool)
    requires forall r :: r in order ==> r in h.stats
    requires Total(h, showInstances) != 0
    ensures forall r :: r in order ==> r in FinalizeHeatData(h, showInstances).stats
    ensures SumPercentages(order, FinalizeHeatData(h, showInstances).stats)
      == SumMetric(order, h.stats, showInstances) as real / Total(h, showInstances) as real * 100.0
  {
    if order != [] {
      var p := order[..|order| - 1];
      assert forall r :: r in p ==> r in order;
      SharesSum(p, h, showInstances);
      var t := Total(h, showInstances) as real;
      var a := SumMetric(p, h.stats, showInstances) as real;
      var b := Metric(h.stats[order[|order| - 1]], showInstances) as real;
      SharesAdd(a, b, t);
    }
  }

  lemma SharesAdd(a: real, b: real, t: real)
    requires t != 0.0
    ensures a / t * 100.0 + b / t * 100.0 == (a + b) / t * 100.0
  {
  }

  lemma WholeShare(t: real)
    requires t != 0.0
    ensures t / t * 100.0 == 100.0
  {
  }

  /** Once recomputed against the final total, the regions' percentages add up to 100. */
  lemma SharesSumTo100(h: HeatData, showInstances: bool)
    requires forall r :: r in h.order ==> r in h.stats
    requires SumMetric(h.order, h.stats, showInstances) == Total(h, showInstances) != 0
    ensures forall r :: r in h.order ==> r in FinalizeHeatData(h, showInstances).stats
    ensures SumPercentages(h.order, FinalizeHeatData(h, showInstances).stats) == 100.0
  {
    SharesSum(h.order, h, showInstances);
    WholeShare(Total(h, showInstances) as real);
  }

  /** For the fold: the final shares of the regions add up to 100 whenever the total is not 0. */
  lemma FinalSharesSumTo100(records: seq<ActivityRecord>, activity: string, showInstances: bool)
    requires Total(HeatFold(records, activity, showInstances), showInstances) != 0
    ensures var h := HeatFold(records, activity, showInstances);
      (forall r :: r in h.order ==> r in h.stats)
      && SumPercentages(h.order, FinalizeHeatData(h, showInstances).stats) == 100.0
  {
    HeatFoldSums(records, activity, showInstances, showInstances);
    SharesSumTo100(HeatFold(records, activity, showInstances), showInstances);
  }

  // ---- Rendering ----

  /** Shading strength: the region's figure over the largest, 0 when the largest is 0. */
  function Intensity(s: RegionStats, h: HeatData, showInstances: bool): real
  {
    if showInstances then (if h.maxCount > 0 then s.count as real / h.maxCount as real else 0.0)
    else (if h.maxDuration > 0 then s.duration as real / h.maxDuration as real else 0.0)
  }

  datatype HeatCell = HeatCell(region: string, dims: RegionDimensions, fill: Rgba, text: Option<string>)

  datatype TooltipEntry = TooltipEntry(dims: RegionDimensions, stats: RegionStats)

  function LabelText(s: RegionStats, showInstances: bool): string
  {
    if showInstances then NatToString(s.count) else DateUtils.FormatDuration(s.duration)
  }

  /** The cell drawn for a layout region that has statistics; a text only when its duration is positive. */
  function CellFor(region: RegionDefinition, h: HeatData, showInstances: bool, width: real, height: real): HeatCell
    requires region.name in h.stats
  {
    var s := h.stats[region.name];
    HeatCell(
      region.name,
      BaseCanvas.CalculateRegionDimensions(region, width, height),
      GetHeatmapColor(Intensity(s, h, showInstances)),
      if s.duration > 0 then Some(LabelText(s, showInstances)) else None)
  }

  /** The cells for the first `n` layout regions, skipping those without statistics. */
  function CellsOf(regions: seq<RegionDefinition>, n: nat, h: HeatData, showInstances: bool, width: real, height: real): seq<HeatCell>
    requires n <= |regions|
  {
    if n == 0 then []
    else
      var previous := CellsOf(regions, n - 1, h, showInstances, width, height);
      if regions[n - 1].name in h.stats then previous + [CellFor(regions[n - 1], h, showInstances, width, height)] else previous
  }

  /** The tooltip map after the first `n` layout regions. */
  function TooltipsOf(regions: seq<RegionDefinition>, n: nat, h: HeatData, width: real, height: real): map<string, TooltipEntry>
    requires n <= |regions|
  {
    if n == 0 then map[]
    else
      var previous := TooltipsOf(regions, n - 1, h, width, height);
      var r := regions[n - 1];
      if r.name in h.stats && h.stats[r.name].duration > 0
      then previous[r.name := TooltipEntry(BaseCanvas.CalculateRegionDimensions(r, width, height), h.stats[r.name])]
      else previous
  }

  /**
   * `renderHeatmap`: folds the records, then shades each layout region that
   * has statistics and labels and records a tooltip for those with a
   * positive duration. Tooltip percentages are the final shares.
   */
  method RenderHeatmap(records: seq<ActivityRecord>, activity: string, showInstances: bool, regions: seq<RegionDefinition>, width: real, height: real)
    returns (cells: seq<HeatCell>, tooltips: map<string, TooltipEntry>)
    ensures var h := FinalizeHeatData(HeatFold(records, activity, showInstances), showInstances);
      cells == CellsOf(regions, |regions|, h, showInstances, width, height)
      && tooltips == TooltipsOf(regions, |regions|, h, width, height)
  {
    var heat := CalculateHeatData(records, activity, showInstances);
    heat := FinalizeHeatData(heat, showInstances);
    cells := [];
    tooltips := map[];
    var i := 0;
    while i < |regions|
      invariant 0 <= i <= |regions|
      invariant cells == CellsOf(regions, i, heat, showInstances, width, height)
      invariant tooltips == TooltipsOf(regions, i, heat, width, height)
    {
      var region := regions[i];
      if region.name in heat.stats {
        var stats := heat.stats[region.name];
        var dimensions := BaseCanvas.CalculateRegionDimensions(region, width, height);
        var fill := GetHeatmapColor(Intensity(stats, heat, showInstances));
        if stats.duration > 0 {
          cells := cells + [HeatCell(region.name, dimensions, fill, Some(LabelText(stats, showInstances)))];
          tooltips := tooltips[region.name := TooltipEntry(dimensions, stats)];
        } else {
          cells := cells + [HeatCell(region.name, dimensions, fill, None)];
        }
      }
      i := i + 1;
    }
  }

  /** With non-negative durations every drawn region's intensity lies in [0, 1]. */
  lemma IntensityInRange(records: seq<ActivityRecord>, activity: string, showInstances: bool, r: string)
    requires forall i :: 0 <= i < |records| ==> records[i].duration >= 0
    requires r in HeatFold(records, activity, showInstances).stats
    ensures var h := HeatFold(records, activity, showInstances);
      0.0 <= Intensity(h.stats[r], h, showInstances) <= 1.0
  {
    var h := HeatFold(records, activity, showInstances);
    HeatFoldMaxima(records, activity, showInstances);
    HeatFoldRegions(records, activity, showInstances);
    RegionDurationNonNegative(records, activity, r);
    var s := h.stats[r];
    if showInstances && h.maxCount > 0 {
      DivAtMostOne(s.count as real, h.maxCount as real);
    }
    if !showInstances && h.maxDuration > 0 {
      DivAtMostOne(s.duration as real, h.maxDuration as real);
    }
  }

  lemma DivAtMostOne(a: real, b: real)
    requires 0.0 <= a <= b && b > 0.0
    ensures 0.0 <= a / b <= 1.0
  {
    assert a / b * b == a;
  }

  lemma {:induction false} RegionDurationNonNegative(records: seq<ActivityRecord>, activity: string, r: string)
    requires forall i :: 0 <= i < |records| ==> records[i].duration >= 0
    ensures RegionDuration(records, activity, r) >= 0
    decreases |records|
  {
    if records != [] {
      var p := records[..|records| - 1];
      assert forall i :: 0 <= i < |p| ==> p[i] == records[i];
      RegionDurationNonNegative(p, activity, r);
    }
  }

  /** A region gets a tooltip iff it is in the layout, has statistics and a positive duration. */
  lemma {:induction false} TooltipsMeaning(regions: seq<RegionDefinition>, n: nat, h: HeatData, width: real, height: real)
    requires n <= |regions|
    ensures forall name :: name in TooltipsOf(regions, n, h, width, height) <==>
      (exists k :: 0 <= k < n && regions[k].name == name) && name in h.stats && h.stats[name].duration > 0
    ensures forall name :: name in TooltipsOf(regions, n, h, width, height) ==>
      TooltipsOf(regions, n, h, width, height)[name].stats == h.stats[name]
  {
    if n > 0 {
      TooltipsMeaning(regions, n - 1, h, width, height);
    }
  }
}
