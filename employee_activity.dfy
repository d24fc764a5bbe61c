/**
 * The employee-activity bar chart: per employee and activity, the hours
 * of the visible records on the selected dates and, when comparison is on,
 * on the comparison dates; one chart row per employee and a legend over
 * the activities of the selected period.
 */
module EmployeeActivity {
  import opened Wrappers
  import opened Seqs
  import opened Types
  import opened Grouping
  import opened DataProcessing

  /** `{ selected, comparison? }`. */
  datatype ActivityData = ActivityData(selected: real, comparison: Option<real>)

  /**
   * `summary[id][activity]`, the employees in first-seen order (the order
   * `Object.entries` lists them), and the `activitySet` in insertion order.
   */
  datatype Summary = Summary(cells: map<string, map<string, ActivityData>>, employees: seq<string>, activities: seq<string>)

  function CellOf(s: Summary, id: string, activity: string): Option<ActivityData>
  {
    if id in s.cells && activity in s.cells[id] then Some(s.cells[id][activity]) else None
  }

  /** The records a pass over `dates` looks at. */
  function InPeriod(hidden: set<string>, dates: set<int>): ActivityRecord -> bool
  {
    (r: ActivityRecord) => r.activity !in hidden && r.date in dates
  }

  function EmployeeIn(hidden: set<string>, dates: set<int>, id: string): ActivityRecord -> bool
  {
    (r: ActivityRecord) => r.activity !in hidden && r.date in dates && r.id == id
  }

  function PairIn(hidden: set<string>, dates: set<int>, id: string, activity: string): ActivityRecord -> bool
  {
    (r: ActivityRecord) => r.activity !in hidden && r.date in dates && r.id == id && r.activity == activity
  }

  /** Some visible record of employee `id` doing `activity` falls on one of `dates`. */
  predicate HasPair(data: seq<ActivityRecord>, hidden: set<string>, dates: set<int>, id: string, activity: string)
  {
    Filter(data, PairIn(hidden, dates, id, activity)) != []
  }

  predicate HasEmployee(data: seq<ActivityRecord>, hidden: set<string>, dates: set<int>, id: string)
  {
    Filter(data, EmployeeIn(hidden, dates, id)) != []
  }

  /** The reference value: hours of the visible records of `id` doing `activity` on `dates`. */
  function PairHours(data: seq<ActivityRecord>, hidden: set<string>, dates: set<int>, id: string, activity: string): real
  {
    SumReal(Filter(data, PairIn(hidden, dates, id, activity)), RecordHours)
  }

  /** The first pass: create the employee and the `{ selected: 0 }` cell if needed, add the hours, note the activity. */
  function AddSelected(s: Summary, r: ActivityRecord): Summary
  {
    var row := if r.id in s.cells then s.cells[r.id] else map[];
    var cell := if r.activity in row then row[r.activity] else ActivityData(0.0, None);
    Summary(
      s.cells[r.id := row[r.activity := cell.(selected := cell.selected + RecordHours(r))]],
      if r.id in s.cells then s.employees else s.employees + [r.id],
      if r.activity in s.activities then s.activities else s.activities + [r.activity])
  }

  /**
   * The second pass: a new cell starts as `{ selected: 0, comparison: 0 }`;
   * a comparison that is missing or 0 (`!comparison`) restarts at 0; then
   * the hours are added. The activity list is not touched.
   */
  function AddComparison(s: Summary, r: ActivityRecord): Summary
  {
    var row := if r.id in s.cells then s.cells[r.id] else map[];
    var cell := if r.activity in row then row[r.activity] else ActivityData(0.0, Some(0.0));
    var base := if cell.comparison.None? || cell.comparison.value == 0.0 then 0.0 else cell.comparison.value;
    Summary(
      s.cells[r.id := row[r.activity := cell.(comparison := Some(base + RecordHours(r)))]],
      if r.id in s.cells then s.employees else s.employees + [r.id],
      s.activities)
  }

  function SelectedPass(data: seq<ActivityRecord>, hidden: set<string>, dates: set<int>): Summary
    decreases |data|
  {
    if data == [] then Summary(map[], [], [])
    else
      var s := SelectedPass(data[..|data| - 1], hidden, dates);
      var r := data[|data| - 1];
      if InPeriod(hidden, dates)(r) then AddSelected(s, r) else s
  }

  function ComparisonPass(s0: Summary, data: seq<ActivityRecord>, hidden: set<string>, dates: set<int>): Summary
    decreases |data|
  {
    if data == [] then s0
    else
      var s := ComparisonPass(s0, data[..|data| - 1], hidden, dates);
      var r := data[|data| - 1];
      if InPeriod(hidden, dates)(r) then AddComparison(s, r) else s
  }

  /** The summary after the selected pass and, when comparison is on, the comparison pass. */
  function SummaryOf(data: seq<ActivityRecord>, hidden: set<string>, selectedDates: set<int>, comparisonDates: set<int>, comparisonEnabled: bool): Summary
  {
    var s := SelectedPass(data, hidden, selectedDates);
    if comparisonEnabled then ComparisonPass(s, data, hidden, comparisonDates) else s
  }

  /**
   * A chart row: the employee and its numeric fields, `selected[a]` being
   * the field `${a}_selected` and `comparison[a]` the field `${a}_comparison`
   * (the field names never collide, see `FieldNamesDistinct`).
   */
  datatype ChartRow = ChartRow(employee: string, selected: map<string, real>, comparison: map<string, real>)

  function FieldName(activity: string, suffix: string): string
  {
    activity + "_" + suffix
  }

  function RowOf(s: Summary, id: string, comparisonEnabled: bool): ChartRow
  {
    var cells := if id in s.cells then s.cells[id] else map[];
    ChartRow(
      id,
      map a | a in cells :: cells[a].selected,
      map a | a in cells && comparisonEnabled && cells[a].comparison.Some? :: cells[a].comparison.value)
  }

  function RowsOf(s: Summary, comparisonEnabled: bool): seq<ChartRow>
  {
    seq(|s.employees|, i requires 0 <= i < |s.employees| => RowOf(s, s.employees[i], comparisonEnabled))
  }

  /**
   * The `processedData` memo: the two `forEach` passes over the records,
   * then one row per employee; the exact hours stand for the `toFixed(2)` values.
   */
  method ProcessData(data: seq<ActivityRecord>, hidden: set<string>, selectedDates: set<int>, comparisonDates: set<int>, comparisonEnabled: bool)
    returns (employeeData: seq<ChartRow>, activities: seq<string>)
    ensures employeeData == RowsOf(SummaryOf(data, hidden, selectedDates, comparisonDates, comparisonEnabled), comparisonEnabled)
    ensures activities == SummaryOf(data, hidden, selectedDates, comparisonDates, comparisonEnabled).activities
  {
    var cells: map<string, map<string, ActivityData>> := map[];
    var employees: seq<string> := [];
    activities := [];
    var i := 0;
    while i < |data|
      invariant 0 <= i <= |data|
      invariant Summary(cells, employees, activities) == SelectedPass(data[..i], hidden, selectedDates)
    {
      var record := data[i];
      assert data[..i + 1][..i] == data[..i];
      if record.activity !in hidden && record.date in selectedDates {
        var row := if record.id in cells then cells[record.id] else map[];
        if record.id !in cells {
          employees := employees + [record.id];
        }
        var cell := if record.activity in row then row[record.activity] else ActivityData(0.0, None);
        cells := cells[record.id := row[record.activity := cell.(selected := cell.selected + RecordHours(record))]];
        if record.activity !in activities {
          activities := activities + [record.activity];
        }
      }
      i := i + 1;
    }
    assert data[..|data|] == data;
    if comparisonEnabled {
      ghost var s0 := Summary(cells, employees, activities);
      i := 0;
      while i < |data|
        invariant 0 <= i <= |data|
        invariant Summary(cells, employees, activities) == ComparisonPass(s0, data[..i], hidden, comparisonDates)
      {
        var record := data[i];
        assert data[..i + 1][..i] == data[..i];
        if record.activity !in hidden && record.date in comparisonDates {
          var row := if record.id in cells then cells[record.id] else map[];
          if record.id !in cells {
            employees := employees + [record.id];
          }
          var cell := if record.activity in row then row[record.activity] else ActivityData(0.0, Some(0.0));
          if cell.comparison.None? || cell.comparison.value == 0.0 {
            cell := cell.(comparison := Some(0.0));
          }
          cells := cells[record.id := row[record.activity := cell.(comparison := Some(cell.comparison.value + RecordHours(record)))]];
        }
        i := i + 1;
      }
      assert data[..|data|] == data;
    }
    employeeData := RowsOf(Summary(cells, employees, activities), comparisonEnabled);
  }

  // ---- What the passes compute ----

  lemma SumRealSnoc(s: seq<ActivityRecord>, r: ActivityRecord)
    ensures SumReal(s + [r], RecordHours) == SumReal(s, RecordHours) + RecordHours(r)
  {
    assert (s + [r])[..|s|] == s;
  }

  /** The records `p + [r]` select are those `p` selects, then `r` if it qualifies. */
  lemma FilterSnoc(p: seq<ActivityRecord>, r: ActivityRecord, keep: ActivityRecord -> bool)
    ensures Filter(p + [r], keep) == Filter(p, keep) + (if keep(r) then [r] else [])
  {
    FilterAppend(p, [r], keep);
    assert [r][1..] == [];
  }

  /** One selected record adds its hours to its own cell, which starts at 0; every other cell stays. */
  lemma AddSelectedCell(s: Summary, r: ActivityRecord, id: string, activity: string)
    ensures CellOf(AddSelected(s, r), id, activity) == SelectedBump(CellOf(s, id, activity), r, id, activity)
  {
  }

  /**
   * How one selected record moves the cell of (`id`, `activity`): its own
   * cell, created at 0 if missing, gains its hours; any other cell stays.
   */
  function SelectedBump(c: Option<ActivityData>, r: ActivityRecord, id: string, activity: string): Option<ActivityData>
  {
    if id == r.id && activity == r.activity then
      var cell := if c.Some? then c.value else ActivityData(0.0, None);
      Some(cell.(selected := cell.selected + RecordHours(r)))
    else c
  }

  /** What the selected pass leaves in the cell of (`id`, `activity`). */
  function SelectedExpected(data: seq<ActivityRecord>, hidden: set<string>, dates: set<int>, id: string, activity: string): Option<ActivityData>
  {
    if HasPair(data, hidden, dates, id, activity) then Some(ActivityData(PairHours(data, hidden, dates, id, activity), None)) else None
  }

  /** One more record moves the expected cell exactly as `AddSelected` moves the actual one. */
  lemma SelectedExpectedStep(p: seq<ActivityRecord>, r: ActivityRecord, hidden: set<string>, dates: set<int>, id: string, activity: string)
    requires InPeriod(hidden, dates)(r)
    ensures SelectedExpected(p + [r], hidden, dates, id, activity) == SelectedBump(SelectedExpected(p, hidden, dates, id, activity), r, id, activity)
  {
    var keep := PairIn(hidden, dates, id, activity);
    if keep(r) {
      PairSnoc(p, r, hidden, dates, id, activity);
      if !HasPair(p, hidden, dates, id, activity) {
        assert PairHours(p, hidden, dates, id, activity) == 0.0;
      }
    } else {
      FilterSnoc(p, r, keep);
      assert Filter(p + [r], keep) == Filter(p, keep);
    }
  }

  lemma SelectedSkipStep(p: seq<ActivityRecord>, r: ActivityRecord, hidden: set<string>, dates: set<int>, id: string, activity: string)
    requires !InPeriod(hidden, dates)(r)
    ensures SelectedExpected(p + [r], hidden, dates, id, activity) == SelectedExpected(p, hidden, dates, id, activity)
  {
    var keep := PairIn(hidden, dates, id, activity);
    FilterSnoc(p, r, keep);
    assert Filter(p + [r], keep) == Filter(p, keep);
  }

  /** After the selected pass a cell exists exactly for the pairs with records, holding their hours and no comparison. */
  lemma {:induction false} SelectedCell(data: seq<ActivityRecord>, hidden: set<string>, dates: set<int>, id: string, activity: string)
    ensures CellOf(SelectedPass(data, hidden, dates), id, activity) == SelectedExpected(data, hidden, dates, id, activity)
    decreases |data|
  {
    if data != [] {
      var p := data[..|data| - 1];
      var r := data[|data| - 1];
      assert data == p + [r];
      SelectedCell(p, hidden, dates, id, activity);
      var s := SelectedPass(p, hidden, dates);
      if InPeriod(hidden, dates)(r) {
        assert SelectedPass(data, hidden, dates) == AddSelected(s, r);
        AddSelectedCell(s, r, id, activity);
        SelectedExpectedStep(p, r, hidden, dates, id, activity);
      } else {
        assert SelectedPass(data, hidden, dates) == s;
        SelectedSkipStep(p, r, hidden, dates, id, activity);
      }
    }
  }

  /** Employees are listed once each, exactly those with a cell. */
  ghost predicate EmployeesListed(s: Summary)
  {
    Distinct(s.employees) && forall id :: id in s.cells <==> id in s.employees
  }

  /** Registering an employee: a new one is appended once, and an employee list kept this way stays repeat-free. */
  lemma ListedStep(s: Summary, t: Summary, id: string)
    requires EmployeesListed(s)
    requires forall other :: other in t.cells <==> other in s.cells || other == id
    requires t.employees == if id in s.cells then s.employees else s.employees + [id]
    ensures EmployeesListed(t)
  {
  }

  /** A record of employee `id` on `dates` makes the employee seen; any other record changes nothing. */
  lemma HasEmployeeStep(p: seq<ActivityRecord>, r: ActivityRecord, hidden: set<string>, dates: set<int>, id: string)
    ensures HasEmployee(p + [r], hidden, dates, id) <==> HasEmployee(p, hidden, dates, id) || EmployeeIn(hidden, dates, id)(r)
  {
    FilterSnoc(p, r, EmployeeIn(hidden, dates, id));
  }

  /** The selected pass keeps the employee list, and lists exactly the employees with records. */
  lemma {:induction false} SelectedEmployees(data: seq<ActivityRecord>, hidden: set<string>, dates: set<int>)
    ensures EmployeesListed(SelectedPass(data, hidden, dates))
    ensures forall id :: id in SelectedPass(data, hidden, dates).cells <==> HasEmployee(data, hidden, dates, id)
    decreases |data|
  {
    if data != [] {
      var p := data[..|data| - 1];
      var r := data[|data| - 1];
      assert data == p + [r];
      SelectedEmployees(p, hidden, dates);
      var s := SelectedPass(p, hidden, dates);
      if InPeriod(hidden, dates)(r) {
        ListedStep(s, AddSelected(s, r), r.id);
      }
      forall id ensures HasEmployee(data, hidden, dates, id) <==> HasEmployee(p, hidden, dates, id) || EmployeeIn(hidden, dates, id)(r) {
        HasEmployeeStep(p, r, hidden, dates, id);
      }
    }
  }

  /** The activity list is the distinct activities of the selected period, in first-seen order. */
  lemma {:induction false} SelectedActivities(data: seq<ActivityRecord>, hidden: set<string>, dates: set<int>)
    ensures SelectedPass(data, hidden, dates).activities == Dedup(Column(Filter(data, InPeriod(hidden, dates)), ActivityOf))
    decreases |data|
  {
    if data != [] {
      var p := data[..|data| - 1];
      var r := data[|data| - 1];
      assert data == p + [r];
      SelectedActivities(p, hidden, dates);
      FilterSnoc(p, r, InPeriod(hidden, dates));
      var f := Filter(p, InPeriod(hidden, dates));
      var s := SelectedPass(p, hidden, dates);
      if InPeriod(hidden, dates)(r) {
        assert Filter(data, InPeriod(hidden, dates)) == f + [r];
        ColumnSnoc(f, r);
        assert AddSelected(s, r).activities == if r.activity in s.activities then s.activities else s.activities + [r.activity];
      } else {
        assert Filter(data, InPeriod(hidden, dates)) == f;
      }
    }
  }

  /** Adding a record to a list adds its activity to the `Set` of activities, once. */
  lemma ColumnSnoc(f: seq<ActivityRecord>, r: ActivityRecord)
    ensures var d := Dedup(Column(f, ActivityOf));
      Dedup(Column(f + [r], ActivityOf)) == if r.activity in d then d else d + [r.activity]
  {
    var c := Column(f + [r], ActivityOf);
    assert c[..|c| - 1] == Column(f, ActivityOf);
  }

  /** No cell carries a comparison value yet. */
  ghost predicate NoComparison(s: Summary)
  {
    forall id, activity :: CellOf(s, id, activity).Some? ==> CellOf(s, id, activity).value.comparison.None?
  }

  lemma SelectedHasNoComparison(data: seq<ActivityRecord>, hidden: set<string>, dates: set<int>)
    ensures NoComparison(SelectedPass(data, hidden, dates))
  {
    forall id, activity | CellOf(SelectedPass(data, hidden, dates), id, activity).Some?
      ensures CellOf(SelectedPass(data, hidden, dates), id, activity).value.comparison.None?
    {
      SelectedCell(data, hidden, dates, id, activity);
    }
  }

  /** One comparison record restarts a missing or zero comparison at 0 and adds its hours; every other cell stays. */
  lemma AddComparisonCell(s: Summary, r: ActivityRecord, id: string, activity: string)
    ensures CellOf(AddComparison(s, r), id, activity) ==
      if id == r.id && activity == r.activity then
        var c := CellOf(s, id, activity);
        var cell := if c.Some? then c.value else ActivityData(0.0, Some(0.0));
        var base := if cell.comparison.None? || cell.comparison.value == 0.0 then 0.0 else cell.comparison.value;
        Some(cell.(comparison := Some(base + RecordHours(r))))
      else CellOf(s, id, activity)
  {
  }

  /** What the comparison pass leaves in the cell of (`id`, `activity`), starting from `s0`. */
  function ComparisonExpected(s0: Summary, data: seq<ActivityRecord>, hidden: set<string>, dates: set<int>, id: string, activity: string): Option<ActivityData>
  {
    if HasPair(data, hidden, dates, id, activity) then
      Some(ActivityData(
        if CellOf(s0, id, activity).Some? then CellOf(s0, id, activity).value.selected else 0.0,
        Some(PairHours(data, hidden, dates, id, activity))))
    else CellOf(s0, id, activity)
  }

  /** One more record moves the expected cell exactly as `AddComparison` moves the actual one. */
  lemma ComparisonExpectedStep(s0: Summary, p: seq<ActivityRecord>, r: ActivityRecord, hidden: set<string>, dates: set<int>, id: string, activity: string)
    requires NoComparison(s0)
    requires InPeriod(hidden, dates)(r)
    ensures ComparisonExpected(s0, p + [r], hidden, dates, id, activity) ==
      if id == r.id && activity == r.activity then
        var c := ComparisonExpected(s0, p, hidden, dates, id, activity);
        var cell := if c.Some? then c.value else ActivityData(0.0, Some(0.0));
        var base := if cell.comparison.None? || cell.comparison.value == 0.0 then 0.0 else cell.comparison.value;
        Some(cell.(comparison := Some(base + RecordHours(r))))
      else ComparisonExpected(s0, p, hidden, dates, id, activity)
  {
    var keep := PairIn(hidden, dates, id, activity);
    FilterSnoc(p, r, keep);
    if keep(r) {
      assert CellOf(s0, id, activity).Some? ==> CellOf(s0, id, activity).value.comparison.None?;
      ComparisonExpectedHit(s0, p, r, hidden, dates, id, activity);
    } else {
      assert Filter(p + [r], keep) == Filter(p, keep);
    }
  }

  /** A record of the cell's own pair adds its hours to the expected comparison value. */
  lemma ComparisonExpectedHit(s0: Summary, p: seq<ActivityRecord>, r: ActivityRecord, hidden: set<string>, dates: set<int>, id: string, activity: string)
    requires CellOf(s0, id, activity).Some? ==> CellOf(s0, id, activity).value.comparison.None?
    requires PairIn(hidden, dates, id, activity)(r)
    ensures var c := ComparisonExpected(s0, p, hidden, dates, id, activity);
      var cell := if c.Some? then c.value else ActivityData(0.0, Some(0.0));
      var base := if cell.comparison.None? || cell.comparison.value == 0.0 then 0.0 else cell.comparison.value;
      ComparisonExpected(s0, p + [r], hidden, dates, id, activity) == Some(cell.(comparison := Some(base + RecordHours(r))))
  {
    PairSnoc(p, r, hidden, dates, id, activity);
    var h := PairHours(p, hidden, dates, id, activity);
    var c0 := CellOf(s0, id, activity);
    var sel := if c0.Some? then c0.value.selected else 0.0;
    var hasPair := HasPair(p, hidden, dates, id, activity);
    assert !hasPair ==> h == 0.0;
    BumpCell(ComparisonExpected(s0, p, hidden, dates, id, activity), c0, hasPair, sel, h, RecordHours(r));
  }

  /** A record of the pair makes the pair present and adds its hours to the pair's total. */
  lemma PairSnoc(p: seq<ActivityRecord>, r: ActivityRecord, hidden: set<string>, dates: set<int>, id: string, activity: string)
    requires PairIn(hidden, dates, id, activity)(r)
    ensures HasPair(p + [r], hidden, dates, id, activity)
    ensures PairHours(p + [r], hidden, dates, id, activity) == PairHours(p, hidden, dates, id, activity) + RecordHours(r)
  {
    var keep := PairIn(hidden, dates, id, activity);
    FilterSnoc(p, r, keep);
    SumRealSnoc(Filter(p, keep), r);
  }

  /** The cell arithmetic of one comparison record, on values alone. */
  lemma BumpCell(c: Option<ActivityData>, c0: Option<ActivityData>, hasPair: bool, sel: real, h: real, x: real)
    requires c0.Some? ==> c0.value.comparison.None?
    requires sel == if c0.Some? then c0.value.selected else 0.0
    requires c == if hasPair then Some(ActivityData(sel, Some(h))) else c0
    requires !hasPair ==> h == 0.0
    ensures var cell := if c.Some? then c.value else ActivityData(0.0, Some(0.0));
      var base := if cell.comparison.None? || cell.comparison.value == 0.0 then 0.0 else cell.comparison.value;
      Some(cell.(comparison := Some(base + x))) == Some(ActivityData(sel, Some(h + x)))
  {
  }

  lemma ComparisonSkipStep(s0: Summary, p: seq<ActivityRecord>, r: ActivityRecord, hidden: set<string>, dates: set<int>, id: string, activity: string)
    requires !InPeriod(hidden, dates)(r)
    ensures ComparisonExpected(s0, p + [r], hidden, dates, id, activity) == ComparisonExpected(s0, p, hidden, dates, id, activity)
  {
    var keep := PairIn(hidden, dates, id, activity);
    FilterSnoc(p, r, keep);
    assert Filter(p + [r], keep) == Filter(p, keep);
  }

  /**
   * The comparison pass gives every pair with comparison records its
   * comparison hours, keeping the selected hours (0 for a pair first seen
   * here), and leaves the other cells as they were.
   */
  lemma {:induction false} ComparisonCell(s0: Summary, data: seq<ActivityRecord>, hidden: set<string>, dates: set<int>, id: string, activity: string)
    requires NoComparison(s0)
    ensures CellOf(ComparisonPass(s0, data, hidden, dates), id, activity) == ComparisonExpected(s0, data, hidden, dates, id, activity)
    decreases |data|
  {
    if data != [] {
      var p := data[..|data| - 1];
      var r := data[|data| - 1];
      assert data == p + [r];
      ComparisonCell(s0, p, hidden, dates, id, activity);
      var s := ComparisonPass(s0, p, hidden, dates);
      if InPeriod(hidden, dates)(r) {
        AddComparisonCell(s, r, id, activity);
        ComparisonExpectedStep(s0, p, r, hidden, dates, id, activity);
      } else {
        ComparisonSkipStep(s0, p, r, hidden, dates, id, activity);
      }
    }
  }

  /** The comparison pass keeps the employee list, adding the employees first seen there. */
  lemma {:induction false} ComparisonEmployees(s0: Summary, data: seq<ActivityRecord>, hidden: set<string>, dates: set<int>)
    requires EmployeesListed(s0)
    ensures EmployeesListed(ComparisonPass(s0, data, hidden, dates))
    ensures forall id :: id in ComparisonPass(s0, data, hidden, dates).cells <==> id in s0.cells || HasEmployee(data, hidden, dates, id)
    ensures ComparisonPass(s0, data, hidden, dates).activities == s0.activities
    decreases |data|
  {
    if data != [] {
      var p := data[..|data| - 1];
      var r := data[|data| - 1];
      assert data == p + [r];
      ComparisonEmployees(s0, p, hidden, dates);
      forall id ensures Filter(data, EmployeeIn(hidden, dates, id)) == Filter(p, EmployeeIn(hidden, dates, id)) + (if EmployeeIn(hidden, dates, id)(r) then [r] else []) {
        FilterSnoc(p, r, EmployeeIn(hidden, dates, id));
      }
    }
  }

  /**
   * The summary's cell for (`id`, `activity`): present iff a visible record
   * of the pair falls on a selected date, or comparison is on and one falls
   * on a comparison date; `selected` is the selected-period hours (0 for a
   * pair seen only in comparison); `comparison` is present only when
   * comparison is on and the pair has comparison records, and is their hours.
   */
  lemma SummaryCell(data: seq<ActivityRecord>, hidden: set<string>, selectedDates: set<int>, comparisonDates: set<int>, comparisonEnabled: bool, id: string, activity: string)
    ensures var c := CellOf(SummaryOf(data, hidden, selectedDates, comparisonDates, comparisonEnabled), id, activity);
      var inComparison := comparisonEnabled && HasPair(data, hidden, comparisonDates, id, activity);
      (c.Some? <==> HasPair(data, hidden, selectedDates, id, activity) || inComparison)
      && (c.Some? ==> c.value.selected == PairHours(data, hidden, selectedDates, id, activity))
      && (c.Some? ==> (c.value.comparison.Some? <==> inComparison))
      && (c.Some? && inComparison ==> c.value.comparison.value == PairHours(data, hidden, comparisonDates, id, activity))
  {
    SelectedCell(data, hidden, selectedDates, id, activity);
    if comparisonEnabled {
      SelectedHasNoComparison(data, hidden, selectedDates);
      ComparisonCell(SelectedPass(data, hidden, selectedDates), data, hidden, comparisonDates, id, activity);
    }
  }

  /**
   * The chart lists each employee once, exactly those with a selected
   * record or (with comparison on) a comparison record, and the activity
   * list is that of the selected period alone.
   */
  lemma SummaryEmployees(data: seq<ActivityRecord>, hidden: set<string>, selectedDates: set<int>, comparisonDates: set<int>, comparisonEnabled: bool)
    ensures var s := SummaryOf(data, hidden, selectedDates, comparisonDates, comparisonEnabled);
      Distinct(s.employees)
      && (forall id :: id in s.employees <==>
            HasEmployee(data, hidden, selectedDates, id) || (comparisonEnabled && HasEmployee(data, hidden, comparisonDates, id)))
      && s.activities == Dedup(Column(Filter(data, InPeriod(hidden, selectedDates)), ActivityOf))
  {
    SelectedEmployees(data, hidden, selectedDates);
    SelectedActivities(data, hidden, selectedDates);
    if comparisonEnabled {
      ComparisonEmployees(SelectedPass(data, hidden, selectedDates), data, hidden, comparisonDates);
    }
  }

  /**
   * Row `i` has a `_selected` field for every activity of its employee and a
   * `_comparison` field only with comparison on and comparison records,
   * each holding the hours of its period.
   */
  lemma RowFields(data: seq<ActivityRecord>, hidden: set<string>, selectedDates: set<int>, comparisonDates: set<int>, comparisonEnabled: bool, i: nat, activity: string)
    requires i < |SummaryOf(data, hidden, selectedDates, comparisonDates, comparisonEnabled).employees|
    ensures var row := RowsOf(SummaryOf(data, hidden, selectedDates, comparisonDates, comparisonEnabled), comparisonEnabled)[i];
      var id := row.employee;
      var inComparison := comparisonEnabled && HasPair(data, hidden, comparisonDates, id, activity);
      (activity in row.selected <==> HasPair(data, hidden, selectedDates, id, activity) || inComparison)
      && (activity in row.selected ==> row.selected[activity] == PairHours(data, hidden, selectedDates, id, activity))
      && (activity in row.comparison <==> inComparison)
      && (activity in row.comparison ==> row.comparison[activity] == PairHours(data, hidden, comparisonDates, id, activity))
  {
    var s := SummaryOf(data, hidden, selectedDates, comparisonDates, comparisonEnabled);
    SummaryEmployees(data, hidden, selectedDates, comparisonDates, comparisonEnabled);
    SummaryCell(data, hidden, selectedDates, comparisonDates, comparisonEnabled, s.employees[i], activity);
    if comparisonEnabled {
      SelectedHasNoComparison(data, hidden, selectedDates);
    }
  }

  /** `${a}_selected` and `${b}_comparison` never coincide, and each suffix names one activity. */
  lemma FieldNamesDistinct(a: string, b: string)
    ensures FieldName(a, "selected") != FieldName(b, "comparison")
    ensures FieldName(a, "selected") == FieldName(b, "selected") ==> a == b
    ensures FieldName(a, "comparison") == FieldName(b, "comparison") ==> a == b
  {
    var x := FieldName(a, "selected");
    var y := FieldName(b, "comparison");
    assert x[|x| - 1] == 'd' && y[|y| - 1] == 'n';
    if FieldName(a, "selected") == FieldName(b, "selected") {
      assert a == FieldName(a, "selected")[..|a|];
    }
    if FieldName(a, "comparison") == FieldName(b, "comparison") {
      assert a == FieldName(a, "comparison")[..|a|];
    }
  }

  // ---- Legend ----

  /**
   * A legend item (`label` is a Dafny keyword, hence `activityLabel`);
   * `color` is `None` for the `undefined` of an empty colour list, and the
   * comparison colour is then the text `undefined88` that the template
   * string makes of it.
   */
  datatype LegendItem = LegendItem(activityLabel: string, color: Option<string>, inactive: bool, comparisonColor: Option<string>)

  function ColorAt(colors: seq<string>, index: nat): Option<string>
  {
    if |colors| == 0 then None else Some(colors[index % |colors|])
  }

  /** The legend: one item per activity, colours reused cyclically, a translucent comparison colour with comparison on. */
  function LegendItems(activities: seq<string>, colors: seq<string>, inactive: set<string>, comparisonEnabled: bool): (items: seq<LegendItem>)
    ensures |items| == |activities|
  {
    seq(|activities|, i requires 0 <= i < |activities| =>
      LegendItem(
        activities[i],
        ColorAt(colors, i),
        activities[i] in inactive,
        if comparisonEnabled then Some((if |colors| == 0 then "undefined" else colors[i % |colors|]) + "88") else None))
  }

  /**
   * Item `i` is labelled by activity `i` and is inactive iff the activity is;
   * the first `|colors|` items take the colours in order, and an item shares
   * its colour with the one `|colors|` places later; with comparison on the
   * comparison colour is the item's colour with alpha `88` appended.
   */
  lemma LegendColors(activities: seq<string>, colors: seq<string>, inactive: set<string>, comparisonEnabled: bool, i: nat)
    requires i < |activities|
    ensures var items := LegendItems(activities, colors, inactive, comparisonEnabled);
      items[i].activityLabel == activities[i]
      && (items[i].inactive <==> activities[i] in inactive)
      && (i < |colors| ==> items[i].color == Some(colors[i]))
      && (|colors| > 0 && i + |colors| < |activities| ==> items[i + |colors|].color == items[i].color)
      && (items[i].comparisonColor.Some? <==> comparisonEnabled)
      && (comparisonEnabled && i < |colors| ==> items[i].comparisonColor == Some(colors[i] + "88"))
      && (comparisonEnabled && |colors| == 0 ==> items[i].comparisonColor == Some("undefined88"))
  {
    if |colors| > 0 {
      ModuloShift(i, |colors|);
    } else {
      assert "undefined" + "88" == "undefined88";
    }
  }

  lemma ModuloShift(i: nat, n: nat)
    requires n > 0
    ensures (i + n) % n == i % n
    ensures i < n ==> i % n == i
  {
    var q, m := i / n, i % n;
    assert i == q * n + m;
    assert i + n == (q + 1) * n + m;
    ModuloUnique(i + n, n, q + 1, m);
    if i < n {
      ModuloUnique(i, n, 0, i);
    }
  }
}
