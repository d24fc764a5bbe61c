/**
 * The settings panel's date list: one row per date that has activity,
 * flagged when employees are missing, with a switch for the selected
 * period and, when comparison is on, a second switch for the comparison
 * period.
 */
module DateSelection {
  import opened Wrappers
  import opened Seqs
  import opened Strs
  import opened DateUtils
  import opened DataProcessing

  /** `hasIncompleteData`: the date has metrics and fewer employees than expected were present. */
  predicate HasIncompleteData(dateMetrics: map<string, DateMetrics>, expectedEmployeeCount: int, date: string)
  {
    date in dateMetrics && dateMetrics[date].employeeCount < expectedEmployeeCount
  }

  /**
   * `getMissingEmployeesText`: nothing when the date has no metrics or
   * nobody is missing; otherwise the missing employees joined by `, `,
   * which the translated message then embeds.
   */
  function MissingEmployeesText(dateMetrics: map<string, DateMetrics>, date: string): (r: Option<string>)
    ensures r.None? <==> date !in dateMetrics || dateMetrics[date].missingEmployees == []
  {
    if date !in dateMetrics || dateMetrics[date].missingEmployees == [] then None
    else Some(JoinWithComma(dateMetrics[date].missingEmployees))
  }

  /**
   * The text names exactly the missing employees: split at commas it gives
   * them back in order, each after the first behind its space (for
   * employee ids without commas).
   */
  lemma MissingTextNamesEmployees(dateMetrics: map<string, DateMetrics>, date: string)
    requires date in dateMetrics && dateMetrics[date].missingEmployees != []
    requires forall k :: 0 <= k < |dateMetrics[date].missingEmployees| ==> ',' !in dateMetrics[date].missingEmployees[k]
    ensures MissingEmployeesText(dateMetrics, date).Some?
    ensures Split(MissingEmployeesText(dateMetrics, date).value, ',') == CommaPieces(dateMetrics[date].missingEmployees)
  {
    JoinWithCommaSplits(dateMetrics[date].missingEmployees);
  }

  /** A row is drawn for a date with metrics whose total duration is not zero. */
  predicate Shown(dateMetrics: map<string, DateMetrics>, date: string)
  {
    date in dateMetrics && dateMetrics[date].totalDuration != 0
  }

  /** The first line of the warning tooltip: the missing names, or else how many are missing. */
  datatype Headline = MissingNames(text: string) | MissingCount(count: int)

  /**
   * One drawn row: the warning tooltip (present only when incomplete), the
   * primary switch's state and the comparison switch's state (absent when
   * comparison is off).
   */
  datatype DateRow = DateRow(
    date: string,
    warning: Option<Headline>,
    present: nat,
    selected: bool,
    comparison: Option<bool>)

  function RowOf(dateMetrics: map<string, DateMetrics>, selectedDates: set<string>, comparisonDates: set<string>,
                 isComparisonEnabled: bool, expectedEmployeeCount: int, date: string): DateRow
    requires date in dateMetrics
  {
    var metrics := dateMetrics[date];
    var missingText := MissingEmployeesText(dateMetrics, date);
    var warning :=
      if !HasIncompleteData(dateMetrics, expectedEmployeeCount, date) then None
      else if missingText.Some? then Some(MissingNames(missingText.value))
      else Some(MissingCount(expectedEmployeeCount - metrics.employeeCount));
    DateRow(date, warning, metrics.employeeCount, date in selectedDates,
      if isComparisonEnabled then Some(date in comparisonDates) else None)
  }

  /** The rows `dates.map(...)` draws, the `null`s of hidden dates left out. */
  function Rows(dates: seq<string>, dateMetrics: map<string, DateMetrics>, selectedDates: set<string>, comparisonDates: set<string>,
                isComparisonEnabled: bool, expectedEmployeeCount: int): seq<DateRow>
  {
    if dates == [] then []
    else
      var rest := Rows(dates[1..], dateMetrics, selectedDates, comparisonDates, isComparisonEnabled, expectedEmployeeCount);
      if Shown(dateMetrics, dates[0])
      then [RowOf(dateMetrics, selectedDates, comparisonDates, isComparisonEnabled, expectedEmployeeCount, dates[0])] + rest
      else rest
  }

  function RowDates(rows: seq<DateRow>): (r: seq<string>)
    ensures |r| == |rows|
    ensures forall k :: 0 <= k < |rows| ==> r[k] == rows[k].date
  {
    if rows == [] then [] else [rows[0].date] + RowDates(rows[1..])
  }

  /** The rows follow the date list, keeping exactly the dates with metrics and a non-zero duration. */
  lemma {:induction false} RowsAreShownDates(dates: seq<string>, dateMetrics: map<string, DateMetrics>, selectedDates: set<string>,
                                             comparisonDates: set<string>, isComparisonEnabled: bool, expectedEmployeeCount: int)
    ensures RowDates(Rows(dates, dateMetrics, selectedDates, comparisonDates, isComparisonEnabled, expectedEmployeeCount))
      == Filter(dates, d => Shown(dateMetrics, d))
  {
    if dates != [] {
      RowsAreShownDates(dates[1..], dateMetrics, selectedDates, comparisonDates, isComparisonEnabled, expectedEmployeeCount);
    }
  }

  /**
   * Every drawn row belongs to a shown date; it warns exactly when the date
   * is incomplete, naming the missing employees comma-joined (the text of
   * `getMissingEmployeesText`) when they are listed and otherwise counting
   * them; its switches show membership of the two date
   * sets, and the comparison switch exists only while comparison is on.
   */
  lemma {:induction false} RowsMeaning(dates: seq<string>, dateMetrics: map<string, DateMetrics>, selectedDates: set<string>,
                                       comparisonDates: set<string>, isComparisonEnabled: bool, expectedEmployeeCount: int)
    ensures forall row :: row in Rows(dates, dateMetrics, selectedDates, comparisonDates, isComparisonEnabled, expectedEmployeeCount) ==>
      row.date in dates && Shown(dateMetrics, row.date)
      && (row.warning.Some? <==> HasIncompleteData(dateMetrics, expectedEmployeeCount, row.date))
      && (row.warning.Some? && dateMetrics[row.date].missingEmployees != [] ==>
            row.warning.value == MissingNames(JoinWithComma(dateMetrics[row.date].missingEmployees)))
      && (row.warning.Some? && dateMetrics[row.date].missingEmployees == [] ==>
            row.warning.value == MissingCount(expectedEmployeeCount - row.present) && row.warning.value.count > 0)
      && row.present == dateMetrics[row.date].employeeCount
      && (row.selected <==> row.date in selectedDates)
      && (row.comparison.Some? <==> isComparisonEnabled)
      && (row.comparison.Some? ==> (row.comparison.value <==> row.date in comparisonDates))
  {
    if dates != [] {
      RowsMeaning(dates[1..], dateMetrics, selectedDates, comparisonDates, isComparisonEnabled, expectedEmployeeCount);
      assert forall d :: d in dates[1..] ==> d in dates;
    }
  }

  /** What a switch hands to `onDateToggle`: the row's date and which period it belongs to. */
  datatype DateToggle = DateToggle(date: string, isComparison: bool)

  /**
   * Flipping one of a row's switches: the primary switch toggles the
   * selected period, the comparison switch — when drawn — the comparison
   * period; a switch that is not drawn cannot be flipped.
   */
  function FlipSwitch(row: DateRow, comparisonSwitch: bool): (r: Option<DateToggle>)
    ensures !comparisonSwitch ==> r == Some(DateToggle(row.date, false))
    ensures comparisonSwitch ==> (r.Some? <==> row.comparison.Some?)
    ensures comparisonSwitch && r.Some? ==> r.value == DateToggle(row.date, true)
  {
    if !comparisonSwitch then Some(DateToggle(row.date, false))
    else if row.comparison.Some? then Some(DateToggle(row.date, true))
    else None
  }

  /** With comparison off no row's switch ever toggles the comparison period. */
  lemma NoComparisonToggleWhenDisabled(dates: seq<string>, dateMetrics: map<string, DateMetrics>, selectedDates: set<string>,
                                       comparisonDates: set<string>, expectedEmployeeCount: int, row: DateRow, comparisonSwitch: bool)
    requires row in Rows(dates, dateMetrics, selectedDates, comparisonDates, false, expectedEmployeeCount)
    ensures FlipSwitch(row, comparisonSwitch).Some? ==> !FlipSwitch(row, comparisonSwitch).value.isComparison
  {
    RowsMeaning(dates, dateMetrics, selectedDates, comparisonDates, false, expectedEmployeeCount);
  }
}
