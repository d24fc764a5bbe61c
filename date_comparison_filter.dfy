/**
 * The date picker of the comparison filter: which dates are offered,
 * grouped under a week label and flagged when employees are missing, and
 * how a click adds or removes a date, capped at two dates in comparison
 * mode.
 */
module DateComparisonFilter {
  import opened Wrappers
  import opened Seqs
  import opened DataProcessing

  /**
   * `handleDateToggle`: in comparison mode, once two or more dates are
   * selected, an unselected date is refused; otherwise a selected date is
   * removed (every copy of it) and an unselected one appended.
   */
  function HandleDateToggle(comparisonMode: bool, selected: seq<string>, date: string): (r: seq<string>)
    ensures comparisonMode && |selected| >= 2 && date !in selected ==> r == selected
    ensures date in selected ==> r == Without(selected, date)
    ensures date !in selected && !(comparisonMode && |selected| >= 2) ==> r == selected + [date]
  {
    if comparisonMode && |selected| >= 2 && date !in selected then selected
    else if date in selected then Without(selected, date)
    else selected + [date]
  }

  /** In comparison mode a selection of at most two dates stays at most two dates. */
  lemma ComparisonSelectionCapped(selected: seq<string>, date: string)
    requires |selected| <= 2
    ensures |HandleDateToggle(true, selected, date)| <= 2
  {
  }

  /** Adding an unselected date and clicking it again gives the selection back. */
  lemma ToggleTwiceRestores(comparisonMode: bool, selected: seq<string>, date: string)
    requires date !in selected && !(comparisonMode && |selected| >= 2)
    ensures HandleDateToggle(comparisonMode, HandleDateToggle(comparisonMode, selected, date), date) == selected
  {
    WithoutOfAppended(selected, date);
  }

  /** One offered date: its metrics and whether some employee is missing that day. */
  datatype DateEntry = DateEntry(date: string, metrics: DateMetrics, hasIncompleteData: bool)

  /** The offered dates per week label, with the labels in first-seen order. */
  datatype DateGroups = DateGroups(byKey: map<string, seq<DateEntry>>, order: seq<string>)

  /**
   * A date is offered when it has metrics, a non-zero total duration and
   * parses as a calendar date; `parse` stands for the date library's
   * `yyyy-MM-dd` parser and yields a day number.
   */
  predicate Offered(dateMetrics: map<string, DateMetrics>, parse: string -> Option<int>, date: string)
  {
    date in dateMetrics && dateMetrics[date].totalDuration != 0 && parse(date).Some?
  }

  function EntryOf(date: string, metrics: DateMetrics, expectedEmployeeCount: int): DateEntry
  {
    DateEntry(date, metrics, metrics.employeeCount < expectedEmployeeCount)
  }

  /** The week label of an offered date; `weekKey` stands for the `'Week of' MMM d` formatter. */
  function KeyOf(parse: string -> Option<int>, weekKey: int -> string, date: string): string
    requires parse(date).Some?
  {
    weekKey(parse(date).value)
  }

  /** The groups `groupedDates` has built after the first dates of the list. */
  function GroupsOf(dates: seq<string>, dateMetrics: map<string, DateMetrics>, expectedEmployeeCount: int,
                    parse: string -> Option<int>, weekKey: int -> string): DateGroups
  {
    if dates == [] then DateGroups(map[], [])
    else
      var g := GroupsOf(dates[..|dates| - 1], dateMetrics, expectedEmployeeCount, parse, weekKey);
      var date := dates[|dates| - 1];
      if !Offered(dateMetrics, parse, date) then g
      else
        var key := KeyOf(parse, weekKey, date);
        var entry := EntryOf(date, dateMetrics[date], expectedEmployeeCount);
        if key in g.byKey then DateGroups(g.byKey[key := g.byKey[key] + [entry]], g.order)
        else DateGroups(g.byKey[key := [entry]], g.order + [key])
  }

  /** The reference: the entries of the offered dates carrying week label `key`, in list order. */
  function EntriesFor(dates: seq<string>, dateMetrics: map<string, DateMetrics>, expectedEmployeeCount: int,
                      parse: string -> Option<int>, weekKey: int -> string, key: string): seq<DateEntry>
  {
    if dates == [] then []
    else
      var rest := EntriesFor(dates[..|dates| - 1], dateMetrics, expectedEmployeeCount, parse, weekKey, key);
      var date := dates[|dates| - 1];
      if Offered(dateMetrics, parse, date) && KeyOf(parse, weekKey, date) == key
      then rest + [EntryOf(date, dateMetrics[date], expectedEmployeeCount)]
      else rest
  }

  /**
   * `groupedDates`: a label is present exactly when some offered date
   * carries it, its group lists those dates' entries in list order, and
   * the label list names each present label once.
   */
  lemma {:induction false} GroupsMeaning(dates: seq<string>, dateMetrics: map<string, DateMetrics>, expectedEmployeeCount: int,
                                         parse: string -> Option<int>, weekKey: int -> string)
    ensures var g := GroupsOf(dates, dateMetrics, expectedEmployeeCount, parse, weekKey);
      Distinct(g.order)
      && (forall key :: key in g.order <==> key in g.byKey)
      && (forall key :: key in g.byKey <==> EntriesFor(dates, dateMetrics, expectedEmployeeCount, parse, weekKey, key) != [])
      && (forall key :: key in g.byKey ==> g.byKey[key] == EntriesFor(dates, dateMetrics, expectedEmployeeCount, parse, weekKey, key))
  {
    if dates != [] {
      var p := dates[..|dates| - 1];
      GroupsMeaning(p, dateMetrics, expectedEmployeeCount, parse, weekKey);
    }
  }

  /**
   * Every listed entry is an offered date of the list, carries that date's
   * metrics and label, and is flagged incomplete exactly when fewer
   * employees than expected were present.
   */
  lemma {:induction false} EntriesMeaning(dates: seq<string>, dateMetrics: map<string, DateMetrics>, expectedEmployeeCount: int,
                                          parse: string -> Option<int>, weekKey: int -> string, key: string)
    ensures forall e :: e in EntriesFor(dates, dateMetrics, expectedEmployeeCount, parse, weekKey, key) ==>
      e.date in dates && Offered(dateMetrics, parse, e.date) && KeyOf(parse, weekKey, e.date) == key
      && e.metrics == dateMetrics[e.date]
      && (e.hasIncompleteData <==> e.metrics.employeeCount < expectedEmployeeCount)
  {
    if dates != [] {
      var p := dates[..|dates| - 1];
      EntriesMeaning(p, dateMetrics, expectedEmployeeCount, parse, weekKey, key);
      assert forall d :: d in p ==> d in dates;
    }
  }

  /** Every offered date of the list appears in the group of its label. */
  lemma {:induction false} OfferedDatesListed(dates: seq<string>, dateMetrics: map<string, DateMetrics>, expectedEmployeeCount: int,
                                              parse: string -> Option<int>, weekKey: int -> string, date: string)
    requires date in dates && Offered(dateMetrics, parse, date)
    ensures EntryOf(date, dateMetrics[date], expectedEmployeeCount)
      in EntriesFor(dates, dateMetrics, expectedEmployeeCount, parse, weekKey, KeyOf(parse, weekKey, date))
  {
    var p := dates[..|dates| - 1];
    if dates[|dates| - 1] != date {
      assert date in p;
      OfferedDatesListed(p, dateMetrics, expectedEmployeeCount, parse, weekKey, date);
    }
  }

  /** `groupedDates` as the source writes it: one pass that appends into the label's group. */
  method GroupedDates(dates: seq<string>, dateMetrics: map<string, DateMetrics>, expectedEmployeeCount: int,
                      parse: string -> Option<int>, weekKey: int -> string) returns (groups: DateGroups)
    ensures groups == GroupsOf(dates, dateMetrics, expectedEmployeeCount, parse, weekKey)
  {
    var byKey: map<string, seq<DateEntry>> := map[];
    var order: seq<string> := [];
    var i := 0;
    while i < |dates|
      invariant 0 <= i <= |dates|
      invariant DateGroups(byKey, order) == GroupsOf(dates[..i], dateMetrics, expectedEmployeeCount, parse, weekKey)
    {
      var date := dates[i];
      assert dates[..i + 1][..i] == dates[..i];
      if date in dateMetrics && dateMetrics[date].totalDuration != 0 {
        var parsed := parse(date);
        if parsed.Some? {
          var key := weekKey(parsed.value);
          var entry := EntryOf(date, dateMetrics[date], expectedEmployeeCount);
          if key in byKey {
            byKey := byKey[key := byKey[key] + [entry]];
          } else {
            byKey := byKey[key := [entry]];
            order := order + [key];
          }
        }
      }
      i := i + 1;
    }
    assert dates[..|dates|] == dates;
    groups := DateGroups(byKey, order);
  }
}
