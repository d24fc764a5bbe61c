/**
 * The dashboard's filter state and the `filteredData` memo that applies
 * the date range, employee and region filters to the loaded records.
 */
module Dashboard {
  import opened Wrappers
  import opened Seqs
  import opened Types

  const DEFAULT_HIDDEN_ACTIVITIES: set<string> := {"Sit", "Unknown"}

  /** The initial filter settings: `Sit` and `Unknown` hidden, no date range, no employee or region selection. */
  function InitialFilterSettings(): FilterSettings
  {
    FilterSettings(DEFAULT_HIDDEN_ACTIVITIES, None, {}, {})
  }

  function InDateRange(range: Option<DateRange>): ActivityRecord -> bool
  {
    (r: ActivityRecord) => range.None? || !(r.date < range.value.start || r.date > range.value.end)
  }

  function BySelectedEmployees(selected: set<string>): ActivityRecord -> bool
  {
    (r: ActivityRecord) => !(|selected| > 0 && r.id !in selected)
  }

  function BySelectedRegions(selected: set<string>): ActivityRecord -> bool
  {
    (r: ActivityRecord) => !(|selected| > 0 && r.region !in selected)
  }

  /** The `records.filter` callback: the three early returns in order. */
  function KeepRecord(settings: FilterSettings): ActivityRecord -> bool
  {
    (r: ActivityRecord) =>
      InDateRange(settings.selectedDateRange)(r)
      && BySelectedEmployees(settings.selectedEmployees)(r)
      && BySelectedRegions(settings.selectedRegions)(r)
  }

  /** `filteredData`: nothing without data; otherwise the data with its records filtered. */
  function FilteredData(data: Option<WarehouseData>, settings: FilterSettings): (r: Option<WarehouseData>)
    ensures r.None? <==> data.None?
    ensures r.Some? ==> r.value.metadata == data.value.metadata && |r.value.records| <= |data.value.records|
  {
    match data
    case None => None
    case Some(d) => Some(d.(records := Filter(d.records, KeepRecord(settings))))
  }

  /**
   * A record is kept iff its date lies in the range (inclusive) when one is
   * set, its employee is selected when any is, and its region is selected
   * when any is; hidden activities play no part here.
   */
  lemma KeptRecords(data: WarehouseData, settings: FilterSettings, r: ActivityRecord)
    ensures var kept := FilteredData(Some(data), settings).value.records;
      r in kept <==>
        r in data.records
        && (settings.selectedDateRange.Some? ==> settings.selectedDateRange.value.start <= r.date <= settings.selectedDateRange.value.end)
        && (|settings.selectedEmployees| > 0 ==> r.id in settings.selectedEmployees)
        && (|settings.selectedRegions| > 0 ==> r.region in settings.selectedRegions)
  {
    assert KeepRecord(settings)(r) <==>
      InDateRange(settings.selectedDateRange)(r)
      && BySelectedEmployees(settings.selectedEmployees)(r)
      && BySelectedRegions(settings.selectedRegions)(r);
  }

  /** Filtering by all three at once is filtering by date, then by employee, then by region. */
  lemma FiltersCompose(records: seq<ActivityRecord>, settings: FilterSettings)
    ensures Filter(records, KeepRecord(settings)) ==
      Filter(Filter(Filter(records, InDateRange(settings.selectedDateRange)), BySelectedEmployees(settings.selectedEmployees)),
        BySelectedRegions(settings.selectedRegions))
  {
    var dateAndEmployee := (r: ActivityRecord) =>
      InDateRange(settings.selectedDateRange)(r) && BySelectedEmployees(settings.selectedEmployees)(r);
    FilterBoth(records, InDateRange(settings.selectedDateRange), BySelectedEmployees(settings.selectedEmployees), dateAndEmployee);
    FilterBoth(records, dateAndEmployee, BySelectedRegions(settings.selectedRegions), KeepRecord(settings));
  }

  /** With no date range and no selection every record is kept, as with the initial settings. */
  lemma NoFilterKeepsAll(data: WarehouseData, hidden: set<string>)
    ensures FilteredData(Some(data), FilterSettings(hidden, None, {}, {})) == Some(data)
    ensures FilteredData(Some(data), InitialFilterSettings()) == Some(data)
  {
    var none: set<string> := {};
    assert |none| == 0;
    forall r ensures KeepRecord(FilterSettings(hidden, None, none, none))(r) {
      assert BySelectedEmployees(none)(r) && BySelectedRegions(none)(r);
    }
    FilterAll(data.records, KeepRecord(FilterSettings(hidden, None, none, none)));
    assert forall r :: KeepRecord(InitialFilterSettings())(r);
    FilterAll(data.records, KeepRecord(InitialFilterSettings()));
  }

  /** The hidden activities do not change which records are kept. */
  lemma HiddenIgnored(data: Option<WarehouseData>, settings: FilterSettings, hidden: set<string>)
    ensures FilteredData(data, settings.(hiddenActivities := hidden)) == FilteredData(data, settings)
  {
    assert KeepRecord(settings.(hiddenActivities := hidden)) == KeepRecord(settings);
  }
}
