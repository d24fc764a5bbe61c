/**
 * Dataset summaries computed once after loading: the distinct employees,
 * activities, regions and dates, the per-date metrics (hours worked,
 * employees present and missing), the summary record and the
 * hidden-activity filter.
 */
module DataProcessing {
  import opened Wrappers
  import opened Seqs
  import opened Types

  function OnDate(date: int): ActivityRecord -> bool
  {
    (r: ActivityRecord) => r.date == date
  }

  /** One field of every record, in record order. */
  function Column<T>(data: seq<ActivityRecord>, f: ActivityRecord -> T): (c: seq<T>)
    ensures |c| == |data| && forall k :: 0 <= k < |data| ==> c[k] == f(data[k])
  {
    seq(|data|, k requires 0 <= k < |data| => f(data[k]))
  }

  /** Adding one record to a `Set` filled in record order. */
  lemma DedupColumnStep<T(!new)>(data: seq<ActivityRecord>, i: nat, f: ActivityRecord -> T)
    requires i < |data|
    ensures var d := Dedup(Column(data[..i], f));
      Dedup(Column(data[..i + 1], f)) == if f(data[i]) in d then d else d + [f(data[i])]
  {
    var c := Column(data[..i + 1], f);
    assert c[..i] == Column(data[..i], f);
  }

  /** `set.add(f(record))` for record `i`, on a set kept as its values in insertion order. */
  method AddValue<T(==,!new)>(values: seq<T>, data: seq<ActivityRecord>, i: nat, f: ActivityRecord -> T) returns (r: seq<T>)
    requires i < |data| && values == Dedup(Column(data[..i], f))
    ensures r == Dedup(Column(data[..i + 1], f))
  {
    DedupColumnStep(data, i, f);
    var value := f(data[i]);
    if value in values {
      r := values;
    } else {
      r := values + [value];
    }
  }

  datatype BasicMetadata = BasicMetadata(employeeCount: nat, activities: seq<string>, regions: seq<string>, dates: seq<int>)

  /**
   * `processBasicMetadata`: four `Set`s filled in record order; the
   * employee count is the size of the first and the dates are sorted.
   */
  method ProcessBasicMetadata(data: seq<ActivityRecord>) returns (basic: BasicMetadata)
    ensures basic.employeeCount == |Dedup(Column(data, IdOf))|
    ensures basic.activities == Dedup(Column(data, ActivityOf))
    ensures basic.regions == Dedup(Column(data, RegionOf))
    ensures basic.dates == SortInts(Dedup(Column(data, DateOf)))
  {
    var employees: seq<string> := [];
    var activities: seq<string> := [];
    var regions: seq<string> := [];
    var dates: seq<int> := [];
    var i := 0;
    while i < |data|
      invariant 0 <= i <= |data|
      invariant employees == Dedup(Column(data[..i], IdOf))
      invariant activities == Dedup(Column(data[..i], ActivityOf))
      invariant regions == Dedup(Column(data[..i], RegionOf))
      invariant dates == Dedup(Column(data[..i], DateOf))
    {
      employees := AddValue(employees, data, i, IdOf);
      activities := AddValue(activities, data, i, ActivityOf);
      regions := AddValue(regions, data, i, RegionOf);
      dates := AddValue(dates, data, i, DateOf);
      i := i + 1;
    }
    assert data[..|data|] == data;
    basic := BasicMetadata(|employees|, activities, regions, SortInts(dates));
  }

  /** The `BasicMetadata` of a dataset, as `ProcessBasicMetadata` computes it. */
  function BasicOf(data: seq<ActivityRecord>): BasicMetadata
  {
    BasicMetadata(
      |Dedup(Column(data, IdOf))|,
      Dedup(Column(data, ActivityOf)),
      Dedup(Column(data, RegionOf)),
      SortInts(Dedup(Column(data, DateOf))))
  }

  /** The employee count is the number of distinct record ids. */
  lemma EmployeeCountMeaning(data: seq<ActivityRecord>)
    ensures BasicOf(data).employeeCount == |set k | 0 <= k < |data| :: data[k].id|
  {
    var ids := Column(data, IdOf);
    DedupDistinct(ids);
    DistinctCardinality(Dedup(ids));
    ColumnMembers(data, IdOf);
    assert (set x | x in Dedup(ids)) == set k | 0 <= k < |data| :: data[k].id;
  }

  /** Activities and regions are listed once each: exactly those some record names. */
  lemma ActivitiesAndRegionsMeaning(data: seq<ActivityRecord>)
    ensures var b := BasicOf(data);
      Distinct(b.activities) && (forall a :: a in b.activities <==> exists k :: 0 <= k < |data| && data[k].activity == a)
      && Distinct(b.regions) && (forall r :: r in b.regions <==> exists k :: 0 <= k < |data| && data[k].region == r)
  {
    ColumnMembers(data, ActivityOf);
    ColumnMembers(data, RegionOf);
    DedupDistinct(Column(data, ActivityOf));
    DedupDistinct(Column(data, RegionOf));
  }

  /** The dates are the distinct record dates, ascending. */
  lemma DatesMeaning(data: seq<ActivityRecord>)
    ensures var b := BasicOf(data);
      Distinct(b.dates) && SortedInts(b.dates) && (forall d :: d in b.dates <==> exists k :: 0 <= k < |data| && data[k].date == d)
  {
    ColumnMembers(data, DateOf);
    var ds := Dedup(Column(data, DateOf));
    DedupDistinct(Column(data, DateOf));
    DistinctByMultiset(ds, SortInts(ds));
    forall d ensures d in SortInts(ds) <==> d in ds {
      assert d in SortInts(ds) <==> d in multiset(SortInts(ds));
    }
  }

  lemma ColumnMembers<T(!new)>(data: seq<ActivityRecord>, f: ActivityRecord -> T)
    ensures forall x :: x in Dedup(Column(data, f)) <==> exists k :: 0 <= k < |data| && f(data[k]) == x
  {
    var c := Column(data, f);
    forall x | x in c ensures exists k :: 0 <= k < |data| && f(data[k]) == x {
      var k :| 0 <= k < |c| && c[k] == x;
    }
  }

  datatype DateMetrics = DateMetrics(employeeCount: nat, totalDuration: int, missingEmployees: seq<string>)

  /** Seconds recorded on `date`. */
  function DurationOn(data: seq<ActivityRecord>, date: int): int
    decreases |data|
  {
    if data == [] then 0
    else
      var last := data[|data| - 1];
      DurationOn(data[..|data| - 1], date) + (if last.date == date then last.duration else 0)
  }

  /** The ids present on `date`, each once, in first-seen order. */
  function PresentOn(data: seq<ActivityRecord>, date: int): seq<string>
    decreases |data|
  {
    if data == [] then []
    else
      var present := PresentOn(data[..|data| - 1], date);
      var last := data[|data| - 1];
      if last.date == date && last.id !in present then present + [last.id] else present
  }

  function Absent(employees: seq<string>, present: seq<string>): seq<string>
  {
    Filter(employees, id => id !in present)
  }

  /** The metrics of one listed date. */
  function MetricsFor(data: seq<ActivityRecord>, employees: seq<string>, date: int): DateMetrics
  {
    var present := PresentOn(data, date);
    if present == [] then DateMetrics(0, 0, [])
    else DateMetrics(|present|, DurationOn(data, date), Absent(employees, present))
  }

  predicate AllDatesListed(data: seq<ActivityRecord>, dates: seq<int>)
  {
    forall k :: 0 <= k < |data| ==> data[k].date in dates
  }

  /**
   * `processDateMetrics`: zeroed metrics for every listed date, then the
   * durations and present ids per record, then counts and missing
   * employees per date that has records. A record dated outside `dates`
   * makes the property access throw; that is `None` here.
   */
  method ProcessDateMetrics(data: seq<ActivityRecord>, dates: seq<int>, employees: seq<string>)
    returns (result: Option<map<int, DateMetrics>>)
    ensures result.None? <==> !AllDatesListed(data, dates)
    ensures result.Some? ==>
      (forall d :: d in result.value <==> d in dates)
      && forall d :: d in result.value ==> result.value[d] == MetricsFor(data, employees, d)
  {
    var metrics := InitialMetrics(dates);
    var accumulated := AddRecords(data, dates, metrics);
    if accumulated.None? {
      return None;
    }
    var (summed, present, seen) := accumulated.value;
    assert Accumulated(data, dates, summed, present, seen);
    var final := AddPresence(data, employees, summed, present, seen);
    return Some(final);
  }

  /** Every listed date starts with zero counts and an empty missing list. */
  method InitialMetrics(dates: seq<int>) returns (metrics: map<int, DateMetrics>)
    ensures forall d :: d in metrics <==> d in dates
    ensures forall d :: d in metrics ==> metrics[d] == DateMetrics(0, 0, [])
  {
    metrics := map[];
    var j := 0;
    while j < |dates|
      invariant 0 <= j <= |dates|
      invariant forall d :: d in metrics <==> d in dates[..j]
      invariant forall d :: d in metrics ==> metrics[d] == DateMetrics(0, 0, [])
    {
      assert dates[..j + 1] == dates[..j] + [dates[j]];
      metrics := metrics[dates[j] := DateMetrics(0, 0, [])];
      j := j + 1;
    }
    assert dates[..|dates|] == dates;
  }

  /**
   * What the record pass has built after the records `data`: every listed
   * date's summed duration, the `Map` of present ids per date that has
   * records, and that `Map`'s dates in insertion order.
   */
  ghost predicate Accumulated(data: seq<ActivityRecord>, dates: seq<int>,
                              metrics: map<int, DateMetrics>, present: map<int, seq<string>>, seen: seq<int>)
  {
    (forall k :: 0 <= k < |data| ==> data[k].date in dates)
    && (forall d :: d in metrics <==> d in dates)
    && (forall d :: d in metrics ==> metrics[d] == DateMetrics(0, DurationOn(data, d), []))
    && (forall d :: d in present <==> d in seen)
    && (forall d :: d in present ==> d in dates)
    && (forall d :: d in present ==> present[d] == PresentOn(data, d) && present[d] != [])
    && (forall d :: d !in present ==> PresentOn(data, d) == [])
  }

  /**
   * The record pass: each record adds its duration to its date's entry and
   * its id to the date's `Set` of present ids; `seen` lists the dates of
   * that `Map` in insertion order.
   */
  method AddRecords(data: seq<ActivityRecord>, dates: seq<int>, metrics0: map<int, DateMetrics>)
    returns (result: Option<(map<int, DateMetrics>, map<int, seq<string>>, seq<int>)>)
    requires forall d :: d in metrics0 <==> d in dates
    requires forall d :: d in metrics0 ==> metrics0[d] == DateMetrics(0, 0, [])
    ensures result.None? <==> !AllDatesListed(data, dates)
    ensures result.Some? ==> Accumulated(data, dates, result.value.0, result.value.1, result.value.2)
  {
    var metrics := metrics0;
    var present: map<int, seq<string>> := map[];
    var seen: seq<int> := [];
    var i := 0;
    assert Accumulated(data[..0], dates, metrics, present, seen);
    while i < |data|
      invariant 0 <= i <= |data|
      invariant Accumulated(data[..i], dates, metrics, present, seen)
    {
      var record := data[i];
      if record.date !in metrics {
        assert data[i].date !in dates;
        return None;
      }
      metrics, present, seen := AddRecord(data, i, dates, metrics, present, seen);
      i := i + 1;
    }
    assert data[..|data|] == data;
    assert AllDatesListed(data, dates);
    return Some((metrics, present, seen));
  }

  /** The `forEach` callback of the record pass, for record `i`. */
  method AddRecord(data: seq<ActivityRecord>, i: nat, dates: seq<int>,
                   metrics: map<int, DateMetrics>, present: map<int, seq<string>>, seen: seq<int>)
    returns (metrics': map<int, DateMetrics>, present': map<int, seq<string>>, seen': seq<int>)
    requires i < |data|
    requires Accumulated(data[..i], dates, metrics, present, seen)
    requires data[i].date in metrics
    ensures Accumulated(data[..i + 1], dates, metrics', present', seen')
  {
    var record := data[i];
    var oldIds := if record.date in present then present[record.date] else [];
    var ids := if record.id !in oldIds then oldIds + [record.id] else oldIds;
    seen' := if record.date !in present then seen + [record.date] else seen;
    present' := present[record.date := ids];
    metrics' := metrics[record.date := metrics[record.date].(totalDuration := metrics[record.date].totalDuration + record.duration)];
    AccumulateStep(data, i, dates, metrics, present, seen);
  }

  /** One record more: the updates of the record pass keep `Accumulated`. */
  lemma AccumulateStep(data: seq<ActivityRecord>, i: nat, dates: seq<int>,
                       metrics: map<int, DateMetrics>, present: map<int, seq<string>>, seen: seq<int>)
    requires i < |data|
    requires Accumulated(data[..i], dates, metrics, present, seen)
    requires data[i].date in metrics
    ensures var r := data[i];
      var oldIds := if r.date in present then present[r.date] else [];
      var ids := if r.id !in oldIds then oldIds + [r.id] else oldIds;
      Accumulated(data[..i + 1], dates,
        metrics[r.date := metrics[r.date].(totalDuration := metrics[r.date].totalDuration + r.duration)],
        present[r.date := ids],
        if r.date !in present then seen + [r.date] else seen)
  {
    var p := data[..i + 1];
    assert p[..i] == data[..i];
    forall k | 0 <= k < i + 1 ensures p[k].date in dates {
      if k < i {
        assert p[k] == data[..i][k];
      }
    }
  }

  /** The presence pass: counts and missing employees for every date that has records. */
  method AddPresence(data: seq<ActivityRecord>, employees: seq<string>, metrics0: map<int, DateMetrics>,
                     present: map<int, seq<string>>, seen: seq<int>)
    returns (metrics: map<int, DateMetrics>)
    requires forall d :: d in present <==> d in seen
    requires forall d :: d in present ==> present[d] == PresentOn(data, d) && present[d] != []
    requires forall d :: d !in present ==> PresentOn(data, d) == []
    requires forall d :: d in metrics0 ==> metrics0[d] == DateMetrics(0, DurationOn(data, d), [])
    requires forall d :: d in seen ==> d in metrics0
    ensures forall d :: d in metrics <==> d in metrics0
    ensures forall d :: d in metrics ==> metrics[d] == MetricsFor(data, employees, d)
  {
    metrics := metrics0;
    var n := 0;
    while n < |seen|
      invariant 0 <= n <= |seen|
      invariant forall d :: d in metrics <==> d in metrics0
      invariant forall d :: d in metrics && d in seen[..n] ==> metrics[d] == MetricsFor(data, employees, d)
      invariant forall d :: d in metrics && d !in seen[..n] ==> metrics[d] == metrics0[d]
    {
      var date := seen[n];
      assert seen[..n + 1] == seen[..n] + [date];
      var m := metrics[date];
      metrics := metrics[date := m.(employeeCount := |present[date]|, missingEmployees := Absent(employees, present[date]))];
      n := n + 1;
    }
    assert seen[..|seen|] == seen;
    forall d | d in metrics && d !in seen ensures metrics[d] == MetricsFor(data, employees, d) {
      UnseenDateHasNoDuration(data, d);
    }
  }

  lemma {:induction false} UnseenDateHasNoDuration(data: seq<ActivityRecord>, date: int)
    requires PresentOn(data, date) == []
    ensures DurationOn(data, date) == 0
    decreases |data|
  {
    if data != [] {
      var p := data[..|data| - 1];
      assert data == p + [data[|data| - 1]];
      PresentNeverShrinks(p, data[|data| - 1], date);
      UnseenDateHasNoDuration(p, date);
    }
  }

  lemma PresentNeverShrinks(p: seq<ActivityRecord>, r: ActivityRecord, date: int)
    ensures |PresentOn(p + [r], date)| >= |PresentOn(p, date)|
  {
    assert (p + [r])[..|p|] == p;
  }

  ghost predicate RecordedOn(data: seq<ActivityRecord>, date: int, id: string)
  {
    exists k :: 0 <= k < |data| && data[k].date == date && data[k].id == id
  }

  /**
   * The ids present on a date are listed once each, exactly those of the
   * records on that date; so an entry's `employeeCount` is the number of
   * distinct ids recorded that day.
   */
  lemma {:induction false} PresentOnMeaning(data: seq<ActivityRecord>, date: int)
    ensures Distinct(PresentOn(data, date))
    ensures forall id :: id in PresentOn(data, date) <==> RecordedOn(data, date, id)
    decreases |data|
  {
    if data != [] {
      var p := data[..|data| - 1];
      var last := data[|data| - 1];
      PresentOnMeaning(p, date);
      forall id ensures RecordedOn(data, date, id) <==> RecordedOn(p, date, id) || (last.date == date && last.id == id) {
        if RecordedOn(p, date, id) {
          var k :| 0 <= k < |p| && p[k].date == date && p[k].id == id;
          assert data[k] == p[k];
        }
        if RecordedOn(data, date, id) {
          var k :| 0 <= k < |data| && data[k].date == date && data[k].id == id;
          if k < |p| {
            assert p[k] == data[k];
          }
        }
      }
    }
  }

  /** An entry's `employeeCount` is the number of distinct ids recorded on its date. */
  lemma EmployeeCountIsDistinctIds(data: seq<ActivityRecord>, employees: seq<string>, date: int)
    ensures MetricsFor(data, employees, date).employeeCount == |set id | id in PresentOn(data, date)|
  {
    PresentOnMeaning(data, date);
    DistinctCardinality(PresentOn(data, date));
  }

  /** `DurationOn` is the sum of the durations of the records dated `date`. */
  lemma {:induction false} DurationOnIsSum(data: seq<ActivityRecord>, date: int)
    ensures DurationOn(data, date) == SumInt(Filter(data, OnDate(date)), DurationOf)
    decreases |data|
  {
    if data != [] {
      var p := data[..|data| - 1];
      var last := data[|data| - 1];
      DurationOnIsSum(p, date);
      assert data == p + [last];
      FilterAppend(p, [last], OnDate(date));
      SumIntAppend(Filter(p, OnDate(date)), Filter([last], OnDate(date)), DurationOf);
      assert Filter([last], OnDate(date)) == if last.date == date then [last] else [];
      assert SumInt([last], DurationOf) == last.duration by {
        assert [last][..0] == [];
      }
    }
  }

  /**
   * The missing employees of a date with records are the employees of the
   * full list, in its order, with no record that day.
   */
  lemma MissingMeaning(data: seq<ActivityRecord>, employees: seq<string>, date: int)
    requires PresentOn(data, date) != []
    ensures var missing := MetricsFor(data, employees, date).missingEmployees;
      |missing| <= |employees|
      && forall id :: id in missing <==> id in employees && !RecordedOn(data, date, id)
  {
    PresentOnMeaning(data, date);
  }

  /** `createMetadata`; `dateRange` of an empty dataset reads past the array: `None` bounds. */
  function CreateMetadata(data: seq<ActivityRecord>, basic: BasicMetadata): Metadata
  {
    Metadata(
      |data|,
      if basic.dates == [] then None else Some(basic.dates[0]),
      if basic.dates == [] then None else Some(basic.dates[|basic.dates| - 1]),
      basic.employeeCount,
      |basic.regions|,
      basic.activities,
      basic.employeeCount)
  }

  /**
   * Over the dataset's own basic metadata the date range runs from the
   * earliest record date to the latest, and the expected employee count
   * is the number of distinct ids.
   */
  lemma CreateMetadataMeaning(data: seq<ActivityRecord>)
    ensures var m := CreateMetadata(data, BasicOf(data));
      m.totalRecords == |data|
      && m.expectedEmployeeCount == m.uniqueEmployees == |set k | 0 <= k < |data| :: data[k].id|
      && (m.dateStart.None? <==> data == []) && (m.dateEnd.None? <==> data == [])
      && (m.dateStart.Some? ==>
        (exists k :: 0 <= k < |data| && data[k].date == m.dateStart.value)
        && forall k :: 0 <= k < |data| ==> m.dateStart.value <= data[k].date)
      && (m.dateEnd.Some? ==>
        (exists k :: 0 <= k < |data| && data[k].date == m.dateEnd.value)
        && forall k :: 0 <= k < |data| ==> data[k].date <= m.dateEnd.value)
  {
    EmployeeCountMeaning(data);
    DatesMeaning(data);
    var ds := BasicOf(data).dates;
    if data != [] {
      assert data[0].date in ds;
      DateBounds(data, ds);
      assert ds[0] in ds && ds[|ds| - 1] in ds;
    }
  }

  lemma DateBounds(data: seq<ActivityRecord>, ds: seq<int>)
    requires ds != [] && SortedInts(ds)
    requires forall d :: d in ds <==> exists k :: 0 <= k < |data| && data[k].date == d
    ensures forall k :: 0 <= k < |data| ==> ds[0] <= data[k].date <= ds[|ds| - 1]
  {
    forall k | 0 <= k < |data| ensures ds[0] <= data[k].date <= ds[|ds| - 1] {
      assert data[k].date in ds;
      var j :| 0 <= j < |ds| && ds[j] == data[k].date;
      assert ds[0] <= ds[j] <= ds[|ds| - 1];
    }
  }

  function IsVisible(hidden: set<string>): ActivityRecord -> bool
  {
    (r: ActivityRecord) => r.activity !in hidden
  }

  /** `filterData`: the records whose activity is not hidden, in order. */
  function FilterData(data: seq<ActivityRecord>, hidden: set<string>): (r: seq<ActivityRecord>)
    ensures |r| <= |data|
    ensures forall x :: x in r <==> x in data && x.activity !in hidden
  {
    Filter(data, IsVisible(hidden))
  }

  /**
   * Filtering is done record by record: it distributes over concatenation,
   * so the kept records keep their relative order, and nothing hidden
   * means nothing removed.
   */
  lemma FilterDataOrder(a: seq<ActivityRecord>, b: seq<ActivityRecord>, hidden: set<string>)
    ensures FilterData(a + b, hidden) == FilterData(a, hidden) + FilterData(b, hidden)
    ensures FilterData(a, {}) == a
    ensures FilterData(FilterData(a, hidden), hidden) == FilterData(a, hidden)
  {
    FilterAppend(a, b, IsVisible(hidden));
    FilterAll(a, IsVisible({}));
    FilterIdempotent(a, IsVisible(hidden));
  }
}
