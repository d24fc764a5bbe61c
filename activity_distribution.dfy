/**
 * The activity bar chart: hours per activity over the records whose
 * activity is not hidden, largest first.
 */
module ActivityDistribution {
  import opened Seqs
  import opened Types
  import opened Grouping
  import opened DataProcessing

  datatype ActivityEntry = ActivityEntry(activity: string, hours: real)

  function EntryHours(e: ActivityEntry): real { e.hours }

  /** The summary of the visible records per activity. */
  function SummaryOf(data: seq<ActivityRecord>, hidden: set<string>): (t: Totals)
    ensures forall k :: k in t.order <==> k in t.sums
    ensures Distinct(t.order)
    ensures forall k :: k in t.sums <==> Seen(Filter(data, IsVisible(hidden)), ActivityOf, k)
    ensures forall k :: k in t.sums ==> t.sums[k] == SumFor(Filter(data, IsVisible(hidden)), ActivityOf, k)
  {
    TotalsByMeaning(Filter(data, IsVisible(hidden)), ActivityOf);
    TotalsWhereIsFiltered(data, IsVisible(hidden), ActivityOf);
    TotalsWhere(data, IsVisible(hidden), ActivityOf)
  }

  function EntriesOf(t: Totals): seq<ActivityEntry>
    requires forall k :: k in t.order ==> k in t.sums
  {
    seq(|t.order|, i requires 0 <= i < |t.order| => ActivityEntry(t.order[i], t.sums[t.order[i]] as real / 3600.0))
  }

  /** What the memoised `activityData` holds. */
  function ActivityDataOf(data: seq<ActivityRecord>, hidden: set<string>): seq<ActivityEntry>
  {
    SortDesc(EntriesOf(SummaryOf(data, hidden)), EntryHours)
  }

  /** `activityData`: the summing loop over the visible records, then the entries sorted by hours. */
  method ActivityData(data: seq<ActivityRecord>, hidden: set<string>) returns (entries: seq<ActivityEntry>)
    ensures entries == ActivityDataOf(data, hidden)
  {
    var summary: map<string, int> := map[];
    var order: seq<string> := [];
    var i := 0;
    while i < |data|
      invariant 0 <= i <= |data|
      invariant Totals(summary, order) == TotalsWhere(data[..i], IsVisible(hidden), ActivityOf)
    {
      var record := data[i];
      assert data[..i + 1][..i] == data[..i];
      if record.activity !in hidden {
        if record.activity !in summary {
          summary := summary[record.activity := 0];
          order := order + [record.activity];
        }
        summary := summary[record.activity := summary[record.activity] + record.duration];
      }
      i := i + 1;
    }
    assert data[..|data|] == data;
    assert Totals(summary, order) == SummaryOf(data, hidden);
    entries := SortDesc(EntriesOf(Totals(summary, order)), EntryHours);
  }

  /** Sorting only reorders: the entries are those of the summary. */
  lemma SameEntries(data: seq<ActivityRecord>, hidden: set<string>)
    ensures forall e :: e in ActivityDataOf(data, hidden) <==> e in EntriesOf(SummaryOf(data, hidden))
  {
    var r := ActivityDataOf(data, hidden);
    var entries := EntriesOf(SummaryOf(data, hidden));
    forall e ensures e in r <==> e in entries {
      assert e in r <==> e in multiset(r);
      assert e in entries <==> e in multiset(entries);
    }
  }

  /** An entry of the summary is a key of the summary, with its summed seconds in hours. */
  lemma EntryOfSummary(data: seq<ActivityRecord>, hidden: set<string>, e: ActivityEntry)
    requires e in ActivityDataOf(data, hidden)
    ensures e.activity in SummaryOf(data, hidden).sums
    ensures e.hours == SummaryOf(data, hidden).sums[e.activity] as real / 3600.0
  {
    SameEntries(data, hidden);
    var entries := EntriesOf(SummaryOf(data, hidden));
    var i :| 0 <= i < |entries| && entries[i] == e;
  }

  /**
   * Every entry is a non-hidden activity some record carries (the entries
   * run largest first by the contract of `SortDesc`).
   */
  lemma ActivityDataMeaning(data: seq<ActivityRecord>, hidden: set<string>, e: ActivityEntry)
    requires e in ActivityDataOf(data, hidden)
    ensures e.activity !in hidden
    ensures exists k :: 0 <= k < |data| && data[k].activity == e.activity
  {
    EntryOfSummary(data, hidden, e);
    var visible := Filter(data, IsVisible(hidden));
    assert Seen(visible, ActivityOf, e.activity);
    var j :| 0 <= j < |visible| && ActivityOf(visible[j]) == e.activity;
    assert visible[j] in data;
  }

  /** An entry's hours are its activity's record hours summed, over all records. */
  lemma ActivityHours(data: seq<ActivityRecord>, hidden: set<string>, e: ActivityEntry)
    requires e in ActivityDataOf(data, hidden)
    ensures e.hours == HoursFor(data, ActivityOf, e.activity)
  {
    ActivityDataMeaning(data, hidden, e);
    EntryOfSummary(data, hidden, e);
    VisibleSum(data, hidden, e.activity);
    HoursForIsSum(data, ActivityOf, e.activity);
  }

  /** For a non-hidden activity, summing the visible records is summing all of them. */
  lemma {:induction false} VisibleSum(data: seq<ActivityRecord>, hidden: set<string>, activity: string)
    requires activity !in hidden
    ensures SumFor(Filter(data, IsVisible(hidden)), ActivityOf, activity) == SumFor(data, ActivityOf, activity)
    decreases |data|
  {
    if data != [] {
      var p := data[..|data| - 1];
      var last := data[|data| - 1];
      VisibleSum(p, hidden, activity);
      assert data == p + [last];
      FilterAppend(p, [last], IsVisible(hidden));
      var f := Filter(p, IsVisible(hidden));
      var own := if last.activity == activity then last.duration else 0;
      assert SumFor(data, ActivityOf, activity) == SumFor(p, ActivityOf, activity) + own;
      if last.activity !in hidden {
        assert Filter([last], IsVisible(hidden)) == [last];
        var g := f + [last];
        assert g[..|g| - 1] == f && g[|g| - 1] == last;
        assert SumFor(g, ActivityOf, activity) == SumFor(f, ActivityOf, activity) + own;
      } else {
        assert Filter([last], IsVisible(hidden)) == [];
        assert f + [] == f;
        assert own == 0;
      }
    }
  }

  /** Every non-hidden activity of some record has an entry. */
  lemma EveryVisibleActivityListed(data: seq<ActivityRecord>, hidden: set<string>, k: nat)
    requires k < |data| && data[k].activity !in hidden
    ensures exists e :: e in ActivityDataOf(data, hidden) && e.activity == data[k].activity
  {
    SameEntries(data, hidden);
    var visible := Filter(data, IsVisible(hidden));
    assert data[k] in visible;
    var j :| 0 <= j < |visible| && visible[j] == data[k];
    assert Seen(visible, ActivityOf, data[k].activity);
    var t := SummaryOf(data, hidden);
    var i :| 0 <= i < |t.order| && t.order[i] == data[k].activity;
    assert EntriesOf(t)[i].activity == data[k].activity;
  }

  /** No two entries share an activity. */
  lemma ActivitiesListedOnce(data: seq<ActivityRecord>, hidden: set<string>, i: nat, j: nat)
    requires i < j < |ActivityDataOf(data, hidden)|
    ensures ActivityDataOf(data, hidden)[i].activity != ActivityDataOf(data, hidden)[j].activity
  {
    var t := SummaryOf(data, hidden);
    var entries := EntriesOf(t);
    var r := ActivityDataOf(data, hidden);
    assert Distinct(entries) by {
      forall a, b | 0 <= a < b < |entries| ensures entries[a] != entries[b] {
        assert entries[a].activity == t.order[a] && entries[b].activity == t.order[b];
      }
    }
    DistinctByMultiset(entries, r);
    assert r[i] != r[j];
    assert r[i] in multiset(entries) && r[j] in multiset(entries);
    var a :| 0 <= a < |entries| && entries[a] == r[i];
    var b :| 0 <= b < |entries| && entries[b] == r[j];
    assert t.order[a] != t.order[b];
  }
}
