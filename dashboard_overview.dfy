/**
 * The dashboard's headline statistics for a set of dates: total hours,
 * average shift length (a shift is one employee on one date) and the
 * busiest region; with comparison on, the same for the comparison dates
 * and the percentage changes between the two.
 */
module DashboardOverview {
  import opened Wrappers
  import opened Seqs
  import opened Types
  import opened Grouping

  function InDates(dates: set<int>): ActivityRecord -> bool
  {
    (r: ActivityRecord) => r.date in dates
  }

  /** `${date}-${id}` as a pair: a fixed-width ISO date keeps the text key one-to-one. */
  type ShiftKey = (int, string)

  function ShiftKeyOf(r: ActivityRecord): ShiftKey
  {
    (r.date, r.id)
  }

  datatype Shift = Shift(duration: real, count: nat)

  /** The `shifts` accumulator with its keys in insertion order. */
  datatype Shifts = Shifts(byKey: map<ShiftKey, Shift>, order: seq<ShiftKey>)

  function AddShift(s: Shifts, r: ActivityRecord): Shifts
  {
    var k := ShiftKeyOf(r);
    var previous := if k in s.byKey then s.byKey[k] else Shift(0.0, 0);
    Shifts(
      s.byKey[k := Shift(previous.duration + RecordHours(r), previous.count + 1)],
      if k in s.byKey then s.order else s.order + [k])
  }

  function ShiftsOf(records: seq<ActivityRecord>): Shifts
    decreases |records|
  {
    if records == [] then Shifts(map[], [])
    else AddShift(ShiftsOf(records[..|records| - 1]), records[|records| - 1])
  }

  function ShiftHours(s: Shifts): ShiftKey -> real
  {
    k => if k in s.byKey then s.byKey[k].duration else 0.0
  }

  /** The `regionStats` accumulator: hours per region, regions in insertion order. */
  datatype RegionStats = RegionStats(hours: map<string, real>, order: seq<string>)

  function AddRegion(s: RegionStats, r: ActivityRecord): RegionStats
  {
    var previous := if r.region in s.hours then s.hours[r.region] else 0.0;
    RegionStats(
      s.hours[r.region := previous + RecordHours(r)],
      if r.region in s.hours then s.order else s.order + [r.region])
  }

  function RegionStatsOf(records: seq<ActivityRecord>): RegionStats
    decreases |records|
  {
    if records == [] then RegionStats(map[], [])
    else AddRegion(RegionStatsOf(records[..|records| - 1]), records[|records| - 1])
  }

  function RegionHours(s: RegionStats): string -> real
  {
    r => if r in s.hours then s.hours[r] else 0.0
  }

  datatype OccupiedRegion = OccupiedRegion(region: string, hours: real)

  /** The `reduce` from `{ region: '', hours: 0 }` that moves on only to strictly more hours. */
  function MaxRegion(order: seq<string>, hours: string -> real): OccupiedRegion
    decreases |order|
  {
    if order == [] then OccupiedRegion("", 0.0)
    else
      var m := MaxRegion(order[..|order| - 1], hours);
      var last := order[|order| - 1];
      if hours(last) > m.hours then OccupiedRegion(last, hours(last)) else m
  }

  /** `avgShiftDuration`; `None` for the `NaN` of dividing by no shifts. */
  datatype PeriodStats = PeriodStats(totalHours: real, avgShiftDuration: Option<real>, mostOccupiedRegion: OccupiedRegion)

  function AverageOf(s: Shifts): Option<real>
  {
    if |s.order| == 0 then None else Some(SumReal(s.order, ShiftHours(s)) / |s.order| as real)
  }

  /** What `calculatePeriodStats(dates)` returns. */
  function PeriodStatsOf(data: seq<ActivityRecord>, dates: set<int>): PeriodStats
  {
    var period := Filter(data, InDates(dates));
    var regions := RegionStatsOf(period);
    PeriodStats(SumReal(period, RecordHours), AverageOf(ShiftsOf(period)), MaxRegion(regions.order, RegionHours(regions)))
  }

  /** `calculatePeriodStats`: the filter, then one loop per `reduce`. */
  method CalculatePeriodStats(data: seq<ActivityRecord>, dates: set<int>) returns (stats: PeriodStats)
    ensures stats == PeriodStatsOf(data, dates)
  {
    var periodData := Filter(data, InDates(dates));
    var totalHours := SumHours(periodData);
    var shifts := CollectShifts(periodData);
    ShiftKeys(periodData);
    var avgShiftDuration := AverageShift(shifts);
    var regions := CollectRegions(periodData);
    RegionStatsMeaning(periodData);
    var max := MostOccupied(regions);
    stats := PeriodStats(totalHours, avgShiftDuration, max);
  }

  method SumHours(periodData: seq<ActivityRecord>) returns (totalHours: real)
    ensures totalHours == SumReal(periodData, RecordHours)
  {
    totalHours := 0.0;
    var i := 0;
    while i < |periodData|
      invariant 0 <= i <= |periodData|
      invariant totalHours == SumReal(periodData[..i], RecordHours)
    {
      assert periodData[..i + 1][..i] == periodData[..i];
      totalHours := totalHours + periodData[i].duration as real / 3600.0;
      i := i + 1;
    }
    assert periodData[..|periodData|] == periodData;
  }

  method CollectShifts(periodData: seq<ActivityRecord>) returns (shifts: Shifts)
    ensures shifts == ShiftsOf(periodData)
  {
    var byKey: map<ShiftKey, Shift> := map[];
    var keys: seq<ShiftKey> := [];
    var i := 0;
    while i < |periodData|
      invariant 0 <= i <= |periodData|
      invariant Shifts(byKey, keys) == ShiftsOf(periodData[..i])
    {
      var record := periodData[i];
      assert periodData[..i + 1][..i] == periodData[..i];
      var key := (record.date, record.id);
      if key !in byKey {
        byKey := byKey[key := Shift(0.0, 0)];
        keys := keys + [key];
      }
      byKey := byKey[key := Shift(byKey[key].duration + record.duration as real / 3600.0, byKey[key].count + 1)];
      i := i + 1;
    }
    assert periodData[..|periodData|] == periodData;
    shifts := Shifts(byKey, keys);
  }

  /** The sum over `Object.values(shifts)` divided by `Object.keys(shifts).length`. */
  method AverageShift(shifts: Shifts) returns (average: Option<real>)
    requires forall k :: k in shifts.order ==> k in shifts.byKey
    ensures average == AverageOf(shifts)
  {
    var shiftSum := 0.0;
    var j := 0;
    while j < |shifts.order|
      invariant 0 <= j <= |shifts.order|
      invariant shiftSum == SumReal(shifts.order[..j], ShiftHours(shifts))
    {
      assert shifts.order[..j + 1][..j] == shifts.order[..j];
      assert shifts.order[j] in shifts.byKey;
      shiftSum := shiftSum + shifts.byKey[shifts.order[j]].duration;
      j := j + 1;
    }
    assert shifts.order[..|shifts.order|] == shifts.order;
    average := if |shifts.order| == 0 then None else Some(shiftSum / |shifts.order| as real);
  }

  method CollectRegions(periodData: seq<ActivityRecord>) returns (regions: RegionStats)
    ensures regions == RegionStatsOf(periodData)
  {
    var hours: map<string, real> := map[];
    var regionOrder: seq<string> := [];
    var i := 0;
    while i < |periodData|
      invariant 0 <= i <= |periodData|
      invariant RegionStats(hours, regionOrder) == RegionStatsOf(periodData[..i])
    {
      var record := periodData[i];
      assert periodData[..i + 1][..i] == periodData[..i];
      if record.region !in hours {
        hours := hours[record.region := 0.0];
        regionOrder := regionOrder + [record.region];
      }
      hours := hours[record.region := hours[record.region] + record.duration as real / 3600.0];
      i := i + 1;
    }
    assert periodData[..|periodData|] == periodData;
    regions := RegionStats(hours, regionOrder);
  }

  /** The `reduce` over `Object.entries(regionStats)`. */
  method MostOccupied(regions: RegionStats) returns (max: OccupiedRegion)
    requires forall r :: r in regions.order ==> r in regions.hours
    ensures max == MaxRegion(regions.order, RegionHours(regions))
  {
    max := OccupiedRegion("", 0.0);
    var j := 0;
    while j < |regions.order|
      invariant 0 <= j <= |regions.order|
      invariant max == MaxRegion(regions.order[..j], RegionHours(regions))
    {
      assert regions.order[..j + 1][..j] == regions.order[..j];
      var region := regions.order[j];
      if regions.hours[region] > max.hours {
        max := OccupiedRegion(region, regions.hours[region]);
      }
      j := j + 1;
    }
    assert regions.order[..|regions.order|] == regions.order;
  }

  // ---- What the accumulators hold ----

  ghost predicate ShiftSeen(records: seq<ActivityRecord>, k: ShiftKey)
  {
    exists j :: 0 <= j < |records| && ShiftKeyOf(records[j]) == k
  }

  /** One shift per (date, employee) of the records, listed once each. */
  lemma {:induction false} ShiftKeys(records: seq<ActivityRecord>)
    ensures var s := ShiftsOf(records);
      Distinct(s.order)
      && (forall k :: k in s.byKey <==> k in s.order)
      && (forall k :: k in s.byKey <==> ShiftSeen(records, k))
    decreases |records|
  {
    if records != [] {
      var p := records[..|records| - 1];
      var k := ShiftKeyOf(records[|records| - 1]);
      ShiftKeys(p);
      forall x ensures ShiftSeen(records, x) <==> ShiftSeen(p, x) || x == k {
        if ShiftSeen(p, x) {
          var j :| 0 <= j < |p| && ShiftKeyOf(p[j]) == x;
          assert records[j] == p[j];
        }
        if ShiftSeen(records, x) && x != k {
          var j :| 0 <= j < |records| && ShiftKeyOf(records[j]) == x;
          assert p[j] == records[j];
        }
        assert ShiftKeyOf(records[|records| - 1]) == k;
      }
    }
  }

  /** The shifts' hours add up to the records' hours. */
  lemma {:induction false} ShiftHoursAddUp(records: seq<ActivityRecord>)
    ensures SumReal(ShiftsOf(records).order, ShiftHours(ShiftsOf(records))) == SumReal(records, RecordHours)
    decreases |records|
  {
    if records != [] {
      var p := records[..|records| - 1];
      var r := records[|records| - 1];
      ShiftHoursAddUp(p);
      ShiftKeys(p);
      var s := ShiftsOf(p);
      var t := AddShift(s, r);
      var k := ShiftKeyOf(r);
      AddShiftHours(s, r);
      if k in s.byKey {
        SumRealBump(s.order, ShiftHours(s), ShiftHours(t), k, RecordHours(r));
      } else {
        SumRealAgree(s.order, ShiftHours(s), ShiftHours(t));
        SumRealAppend(s.order, [k], ShiftHours(t));
        assert SumReal([k], ShiftHours(t)) == ShiftHours(t)(k) by {
          assert [k][..0] == [];
        }
        NotInOrderHasNoHours(s, k);
      }
    }
  }

  /** A record raises its own shift's hours by its hours and no other shift's. */
  lemma AddShiftHours(s: Shifts, r: ActivityRecord)
    ensures forall y :: ShiftHours(AddShift(s, r))(y) == ShiftHours(s)(y) + (if y == ShiftKeyOf(r) then RecordHours(r) else 0.0)
  {
  }

  lemma NotInOrderHasNoHours(s: Shifts, k: ShiftKey)
    requires k !in s.byKey
    ensures ShiftHours(s)(k) == 0.0
  {
  }

  /** One entry per region of the records, listed once each, holding that region's hours. */
  lemma {:induction false} RegionStatsMeaning(records: seq<ActivityRecord>)
    ensures var s := RegionStatsOf(records);
      Distinct(s.order)
      && (forall r :: r in s.hours <==> r in s.order)
      && (forall r :: r in s.hours <==> Seen(records, RegionOf, r))
      && (forall r :: r in s.hours ==> s.hours[r] == HoursFor(records, RegionOf, r))
    decreases |records|
  {
    if records != [] {
      var p := records[..|records| - 1];
      var r := records[|records| - 1];
      RegionStatsMeaning(p);
      SeenSnoc(records, RegionOf);
      if r.region !in RegionStatsOf(p).hours {
        UnseenNoHours(p, RegionOf, r.region);
      }
    }
  }

  lemma {:induction false} UnseenNoHours(records: seq<ActivityRecord>, key: ActivityRecord -> string, k: string)
    requires !Seen(records, key, k)
    ensures HoursFor(records, key, k) == 0.0
    decreases |records|
  {
    if records != [] {
      var p := records[..|records| - 1];
      forall i | 0 <= i < |p| ensures key(p[i]) != k {
        assert p[i] == records[i];
      }
      UnseenNoHours(p, key, k);
    }
  }

  /** `order[j]` is the first entry with the largest hours, `m` its entry. */
  ghost predicate FirstMaxAt(order: seq<string>, hours: string -> real, j: int, m: OccupiedRegion)
  {
    0 <= j < |order| && m == OccupiedRegion(order[j], hours(order[j]))
    && forall k :: 0 <= k < j ==> hours(order[k]) < m.hours
  }

  /**
   * The busiest region bounds every region's hours; it is `('', 0)` when no
   * region has positive hours, and otherwise the first region with the most
   * hours (a later tie does not replace it).
   */
  lemma {:induction false} MaxRegionMeaning(order: seq<string>, hours: string -> real)
    ensures var m := MaxRegion(order, hours);
      m.hours >= 0.0
      && (forall k :: 0 <= k < |order| ==> hours(order[k]) <= m.hours)
      && (m.hours == 0.0 ==> m == OccupiedRegion("", 0.0))
      && (m.hours > 0.0 ==> exists j :: FirstMaxAt(order, hours, j, m))
    decreases |order|
  {
    if order != [] {
      var p := order[..|order| - 1];
      MaxRegionMeaning(p, hours);
      var m := MaxRegion(p, hours);
      if m.hours > 0.0 && hours(order[|order| - 1]) <= m.hours {
        var j :| FirstMaxAt(p, hours, j, m);
        assert FirstMaxAt(order, hours, j, m);
      }
      if hours(order[|order| - 1]) > m.hours {
        assert FirstMaxAt(order, hours, |order| - 1, MaxRegion(order, hours));
      }
    }
  }

  /** Summing the records' hours one by one is converting their summed seconds. */
  lemma {:induction false} TotalHoursIsSeconds(records: seq<ActivityRecord>)
    ensures SumReal(records, RecordHours) == SumInt(records, DurationOf) as real / 3600.0
    decreases |records|
  {
    if records != [] {
      TotalHoursIsSeconds(records[..|records| - 1]);
    }
  }

  /** `totalHours` is the summed seconds of the records on the dates, over 3600. */
  lemma PeriodTotal(data: seq<ActivityRecord>, dates: set<int>)
    ensures PeriodStatsOf(data, dates).totalHours == SumInt(Filter(data, InDates(dates)), DurationOf) as real / 3600.0
  {
    TotalHoursIsSeconds(Filter(data, InDates(dates)));
  }

  /** The shifts of a period are its distinct (date, employee) pairs. */
  lemma ShiftCount(period: seq<ActivityRecord>)
    ensures |ShiftsOf(period).order| == |set j | 0 <= j < |period| :: ShiftKeyOf(period[j])|
    ensures |ShiftsOf(period).order| == 0 <==> period == []
  {
    ShiftKeys(period);
    var s := ShiftsOf(period);
    var shifts := set j | 0 <= j < |period| :: ShiftKeyOf(period[j]);
    assert (set x | x in s.order) == shifts by {
      forall x ensures x in s.order <==> x in shifts {
        assert x in s.order <==> ShiftSeen(period, x);
      }
    }
    DistinctCardinality(s.order);
    if period != [] {
      assert ShiftKeyOf(period[0]) in shifts;
    }
  }

  /**
   * The average shift is undefined without records, and is otherwise the
   * period's total hours over its number of distinct (date, employee) shifts.
   */
  lemma AverageShiftMeaning(data: seq<ActivityRecord>, dates: set<int>)
    ensures var period := Filter(data, InDates(dates));
      var stats := PeriodStatsOf(data, dates);
      var n := |set j | 0 <= j < |period| :: ShiftKeyOf(period[j])|;
      (stats.avgShiftDuration.None? <==> period == [])
      && (stats.avgShiftDuration.Some? ==> n > 0 && stats.avgShiftDuration.value == stats.totalHours / n as real)
  {
    var period := Filter(data, InDates(dates));
    ShiftCount(period);
    ShiftHoursAddUp(period);
  }

  /**
   * The busiest region of a period: `('', 0)` when no region of its records
   * has positive hours; otherwise a region of its records with the most
   * hours, the first such in first-seen order, with its hours.
   */
  lemma BusiestRegion(data: seq<ActivityRecord>, dates: set<int>)
    ensures var period := Filter(data, InDates(dates));
      var m := PeriodStatsOf(data, dates).mostOccupiedRegion;
      (forall j :: 0 <= j < |period| ==> HoursFor(period, RegionOf, period[j].region) <= m.hours)
      && (m.hours == 0.0 ==> m == OccupiedRegion("", 0.0))
      && (m.hours > 0.0 ==>
            Seen(period, RegionOf, m.region)
            && m.hours == HoursFor(period, RegionOf, m.region)
            && exists j :: FirstMaxAt(RegionStatsOf(period).order, RegionHours(RegionStatsOf(period)), j, m))
  {
    var period := Filter(data, InDates(dates));
    var s := RegionStatsOf(period);
    RegionStatsMeaning(period);
    MaxRegionMeaning(s.order, RegionHours(s));
    var m := MaxRegion(s.order, RegionHours(s));
    forall j | 0 <= j < |period| ensures HoursFor(period, RegionOf, period[j].region) <= m.hours {
      assert Seen(period, RegionOf, period[j].region);
      var k :| 0 <= k < |s.order| && s.order[k] == period[j].region;
    }
    if m.hours > 0.0 {
      var j :| FirstMaxAt(s.order, RegionHours(s), j, m);
      assert s.order[j] in s.hours;
    }
  }

  // ---- Trends ----

  /** `(a / b - 1) * 100`; `None` for the `NaN` or `Infinity` of a zero divisor. */
  function Change(a: real, b: real): (c: Option<real>)
    ensures c.None? <==> b == 0.0
    ensures c.Some? ==> c.value * b == (a - b) * 100.0
  {
    if b == 0.0 then None else Some((a / b - 1.0) * 100.0)
  }

  function ChangeOf(a: Option<real>, b: Option<real>): Option<real>
  {
    if a.None? || b.None? then None else Change(a.value, b.value)
  }

  /** `regionOccupancy` is `None` (undefined) unless both periods share the busiest region. */
  datatype Trends = Trends(hours: Option<real>, shiftDuration: Option<real>, regionOccupancy: Option<Option<real>>)

  function TrendsOf(selected: PeriodStats, comparison: PeriodStats): Trends
  {
    Trends(
      Change(selected.totalHours, comparison.totalHours),
      ChangeOf(selected.avgShiftDuration, comparison.avgShiftDuration),
      if selected.mostOccupiedRegion.region == comparison.mostOccupiedRegion.region
      then Some(Change(selected.mostOccupiedRegion.hours, comparison.mostOccupiedRegion.hours))
      else None)
  }

  datatype Overview = Overview(selected: PeriodStats, comparison: Option<PeriodStats>, trends: Option<Trends>, totalEmployees: nat)

  /** The `stats` memo. */
  method Stats(data: seq<ActivityRecord>, selectedDates: set<int>, comparisonDates: set<int>, comparisonEnabled: bool, metadata: Metadata)
    returns (stats: Overview)
    ensures stats.selected == PeriodStatsOf(data, selectedDates)
    ensures stats.comparison.Some? <==> comparisonEnabled
    ensures stats.comparison.Some? ==> stats.comparison.value == PeriodStatsOf(data, comparisonDates)
    ensures stats.trends.Some? <==> comparisonEnabled
    ensures stats.trends.Some? ==> stats.trends.value == TrendsOf(stats.selected, stats.comparison.value)
    ensures stats.totalEmployees == metadata.uniqueEmployees
  {
    var selectedStats := CalculatePeriodStats(data, selectedDates);
    var comparisonStats: Option<PeriodStats> := None;
    if comparisonEnabled {
      var c := CalculatePeriodStats(data, comparisonDates);
      comparisonStats := Some(c);
    }
    var trends := if comparisonStats.Some? then Some(TrendsOf(selectedStats, comparisonStats.value)) else None;
    stats := Overview(selectedStats, comparisonStats, trends, metadata.uniqueEmployees);
  }

  /** The region trend exists exactly when both periods have the same busiest region. */
  lemma RegionTrendOnlyForSameRegion(selected: PeriodStats, comparison: PeriodStats)
    ensures TrendsOf(selected, comparison).regionOccupancy.Some? <==>
      selected.mostOccupiedRegion.region == comparison.mostOccupiedRegion.region
    ensures TrendsOf(selected, comparison).hours.Some? <==> comparison.totalHours != 0.0
  {
  }
}
