/**
 * The region bar of the dashboard: hours spent per region over the
 * records whose activity is not hidden, shaded by the share of an
 * eight-hour shift, busiest region first.
 */
module RegionHeatmap {
  import opened Seqs
  import opened Types
  import opened Grouping
  import opened DataProcessing

  /** Eight hours, the duration that saturates the shading. */
  const SATURATION_SECONDS: int := 8 * 3600

  datatype RegionEntry = RegionEntry(region: string, hours: real, intensity: real)

  function HoursOf(e: RegionEntry): real { e.hours }

  function RegionEntryFor(region: string, duration: int): RegionEntry
  {
    var share := duration as real / SATURATION_SECONDS as real;
    RegionEntry(region, duration as real / 3600.0, if share < 1.0 then share else 1.0)
  }

  /** One entry per key of the summary, in `Object.entries` order. */
  function EntriesOf(t: Totals): seq<RegionEntry>
    requires forall k :: k in t.order ==> k in t.sums
  {
    seq(|t.order|, i requires 0 <= i < |t.order| => RegionEntryFor(t.order[i], t.sums[t.order[i]]))
  }

  /** The summary of the visible records per region. */
  function SummaryOf(data: seq<ActivityRecord>, hidden: set<string>): (t: Totals)
    ensures forall k :: k in t.order <==> k in t.sums
    ensures Distinct(t.order)
    ensures forall k :: k in t.sums <==> Seen(Filter(data, IsVisible(hidden)), RegionOf, k)
    ensures forall k :: k in t.sums ==> t.sums[k] == SumFor(Filter(data, IsVisible(hidden)), RegionOf, k)
  {
    TotalsByMeaning(Filter(data, IsVisible(hidden)), RegionOf);
    TotalsWhereIsFiltered(data, IsVisible(hidden), RegionOf);
    TotalsWhere(data, IsVisible(hidden), RegionOf)
  }

  /** What the memoised `regionData` holds. */
  function RegionDataOf(data: seq<ActivityRecord>, hidden: set<string>): seq<RegionEntry>
  {
    SortDesc(EntriesOf(SummaryOf(data, hidden)), HoursOf)
  }

  /** `regionData`: the summing loop, skipping hidden activities, then the entries sorted by hours. */
  method RegionData(data: seq<ActivityRecord>, hidden: set<string>) returns (entries: seq<RegionEntry>)
    ensures entries == RegionDataOf(data, hidden)
  {
    var summary: map<string, int> := map[];
    var order: seq<string> := [];
    var i := 0;
    while i < |data|
      invariant 0 <= i <= |data|
      invariant Totals(summary, order) == TotalsWhere(data[..i], IsVisible(hidden), RegionOf)
    {
      var record := data[i];
      assert data[..i + 1][..i] == data[..i];
      if record.activity !in hidden {
        if record.region !in summary {
          summary := summary[record.region := 0];
          order := order + [record.region];
        }
        summary := summary[record.region := summary[record.region] + record.duration];
      }
      i := i + 1;
    }
    assert data[..|data|] == data;
    assert Totals(summary, order) == SummaryOf(data, hidden);
    entries := SortDesc(EntriesOf(Totals(summary, order)), HoursOf);
  }

  /** A region is seen when some visible record names it. */
  ghost predicate VisibleIn(data: seq<ActivityRecord>, hidden: set<string>, region: string)
  {
    exists k :: 0 <= k < |data| && data[k].activity !in hidden && data[k].region == region
  }

  lemma SeenVisible(data: seq<ActivityRecord>, hidden: set<string>, region: string)
    ensures Seen(Filter(data, IsVisible(hidden)), RegionOf, region) <==> VisibleIn(data, hidden, region)
  {
    var f := Filter(data, IsVisible(hidden));
    if Seen(f, RegionOf, region) {
      var i :| 0 <= i < |f| && RegionOf(f[i]) == region;
      assert f[i] in data;
      var k :| 0 <= k < |data| && data[k] == f[i];
    }
    if VisibleIn(data, hidden, region) {
      var k :| 0 <= k < |data| && data[k].activity !in hidden && data[k].region == region;
      assert data[k] in f;
      var i :| 0 <= i < |f| && f[i] == data[k];
    }
  }

  /** Sorting only reorders: the entries are those of the summary. */
  lemma SameEntries(data: seq<ActivityRecord>, hidden: set<string>)
    ensures forall e :: e in RegionDataOf(data, hidden) <==> e in EntriesOf(SummaryOf(data, hidden))
  {
    var r := RegionDataOf(data, hidden);
    var entries := EntriesOf(SummaryOf(data, hidden));
    forall e ensures e in r <==> e in entries {
      assert e in r <==> e in multiset(r);
      assert e in entries <==> e in multiset(entries);
    }
  }

  /**
   * Every entry is a region some visible record names, with hours its
   * summed seconds over 3600 and intensity its share of eight hours capped
   * at 1; the entries run busiest first.
   */
  lemma RegionDataMeaning(data: seq<ActivityRecord>, hidden: set<string>, e: RegionEntry)
    requires e in RegionDataOf(data, hidden)
    ensures VisibleIn(data, hidden, e.region)
    ensures e == RegionEntryFor(e.region, SumFor(Filter(data, IsVisible(hidden)), RegionOf, e.region))
    ensures SortedDesc(RegionDataOf(data, hidden), HoursOf)
  {
    SameEntries(data, hidden);
    var entries := EntriesOf(SummaryOf(data, hidden));
    var i :| 0 <= i < |entries| && entries[i] == e;
    SeenVisible(data, hidden, e.region);
  }

  /** Every region some visible record names has an entry. */
  lemma EveryVisibleRegionListed(data: seq<ActivityRecord>, hidden: set<string>, k: nat)
    requires k < |data| && data[k].activity !in hidden
    ensures exists e :: e in RegionDataOf(data, hidden) && e.region == data[k].region
  {
    SameEntries(data, hidden);
    SeenVisible(data, hidden, data[k].region);
    var t := SummaryOf(data, hidden);
    var i :| 0 <= i < |t.order| && t.order[i] == data[k].region;
    assert EntriesOf(t)[i].region == data[k].region;
  }

  /** No two entries share a region: one entry per region seen. */
  lemma RegionsListedOnce(data: seq<ActivityRecord>, hidden: set<string>, i: nat, j: nat)
    requires i < j < |RegionDataOf(data, hidden)|
    ensures RegionDataOf(data, hidden)[i].region != RegionDataOf(data, hidden)[j].region
  {
    var t := SummaryOf(data, hidden);
    var entries := EntriesOf(t);
    var r := RegionDataOf(data, hidden);
    assert Distinct(entries) by {
      forall a, b | 0 <= a < b < |entries| ensures entries[a] != entries[b] {
        assert entries[a].region == t.order[a] && entries[b].region == t.order[b];
      }
    }
    DistinctByMultiset(entries, r);
    assert r[i] != r[j];
    assert r[i] in multiset(entries) && r[j] in multiset(entries);
    var a :| 0 <= a < |entries| && entries[a] == r[i];
    var b :| 0 <= b < |entries| && entries[b] == r[j];
    assert t.order[a] != t.order[b];
  }

  /** With non-negative durations every intensity lies in [0, 1]. */
  lemma IntensityInRange(data: seq<ActivityRecord>, hidden: set<string>, e: RegionEntry)
    requires forall k :: 0 <= k < |data| ==> data[k].duration >= 0
    requires e in RegionDataOf(data, hidden)
    ensures 0.0 <= e.intensity <= 1.0
  {
    RegionDataMeaning(data, hidden, e);
    var visible := Filter(data, IsVisible(hidden));
    VisibleNonNegative(data, hidden);
    SumForNonNegative(visible, RegionOf, e.region);
    EntryIntensityInRange(e.region, SumFor(visible, RegionOf, e.region));
  }

  lemma EntryIntensityInRange(region: string, duration: int)
    requires duration >= 0
    ensures 0.0 <= RegionEntryFor(region, duration).intensity <= 1.0
  {
    assert duration as real / SATURATION_SECONDS as real >= 0.0;
  }

  lemma VisibleNonNegative(data: seq<ActivityRecord>, hidden: set<string>)
    requires forall k :: 0 <= k < |data| ==> data[k].duration >= 0
    ensures forall k :: 0 <= k < |Filter(data, IsVisible(hidden))| ==> Filter(data, IsVisible(hidden))[k].duration >= 0
  {
    var visible := Filter(data, IsVisible(hidden));
    forall k | 0 <= k < |visible| ensures visible[k].duration >= 0 {
      assert visible[k] in data;
    }
  }

  /** A record of a hidden activity changes nothing. */
  lemma HiddenNeverContributes(data: seq<ActivityRecord>, hidden: set<string>, r: ActivityRecord)
    requires r.activity in hidden
    ensures RegionDataOf(data + [r], hidden) == RegionDataOf(data, hidden)
  {
    FilterAppend(data, [r], IsVisible(hidden));
    assert Filter([r], IsVisible(hidden)) == [];
    assert Filter(data, IsVisible(hidden)) + [] == Filter(data, IsVisible(hidden));
  }
}
