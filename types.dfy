/**
 * Records shared by the dashboard: layout regions and labels, activity
 * records, canvas rectangles and the dataset summary.  Dates are day
 * numbers (an ISO `yyyy-MM-dd` string orders like its day number) and
 * times of day and durations are whole seconds.
 */
module Types {
  import opened Wrappers

  /** A layout region: a rectangle in coordinates normalised to [0, 1]. */
  datatype RegionDefinition = RegionDefinition(
    name: string,
    topLeftX: real,
    topLeftY: real,
    bottomRightX: real,
    bottomRightY: real,
    labelUuid: string)

  datatype RegionLabel = RegionLabel(uuid: string, name: string, color: string)

  datatype LayoutMetadata = LayoutMetadata(
    regions: seq<RegionDefinition>,
    labels: seq<RegionLabel>,
    widthPixel: real,
    heightPixel: real)

  datatype HumanActivity = HumanActivity(activityName: string, durationMinutes: real)

  /** One observed activity of one employee in one region. */
  datatype ActivityRecord = ActivityRecord(
    id: string,
    date: int,
    startTime: int,
    endTime: int,
    region: string,
    activity: string,
    duration: int)

  function IdOf(r: ActivityRecord): string { r.id }
  function ActivityOf(r: ActivityRecord): string { r.activity }
  function RegionOf(r: ActivityRecord): string { r.region }
  function DateOf(r: ActivityRecord): int { r.date }
  function DurationOf(r: ActivityRecord): int { r.duration }

  datatype CanvasSize = CanvasSize(width: real, height: real)

  /** A pixel rectangle. */
  datatype RegionDimensions = RegionDimensions(x: real, y: real, width: real, height: real)

  datatype CanvasRegionData = CanvasRegionData(x: real, y: real, width: real, height: real, color: string, name: string)

  /** Summary of a loaded dataset. */
  datatype Metadata = Metadata(
    totalRecords: nat,
    dateStart: Option<int>,
    dateEnd: Option<int>,
    uniqueEmployees: nat,
    uniqueRegions: nat,
    uniqueActivities: seq<string>,
    expectedEmployeeCount: nat)

  /** A loaded dataset. */
  datatype WarehouseData = WarehouseData(metadata: Metadata, records: seq<ActivityRecord>)

  /** An inclusive range of day numbers. */
  datatype DateRange = DateRange(start: int, end: int)

  /** The dashboard's filters, with the fields `Dashboard` initialises. */
  datatype FilterSettings = FilterSettings(
    hiddenActivities: set<string>,
    selectedDateRange: Option<DateRange>,
    selectedEmployees: set<string>,
    selectedRegions: set<string>)

  const SECONDS_PER_DAY: int := 86400
  /** Milliseconds between two animation steps. */
  const FRAME_INTERVAL: real := 1000.0 / 60.0
  const ALL_EMPLOYEES: string := "all"
  const CANVAS_DEFAULT_WIDTH: real := 800.0
  const CANVAS_DEFAULT_HEIGHT: real := 600.0

  /** Indicator colour per employee letter (the part of the id after the first `-`). */
  const EMPLOYEE_COLORS: seq<(string, string)> := [
    ("A", "#E63946"), ("B", "#2A9D8F"), ("C", "#4361EE"), ("D", "#FFB703"), ("E", "#9B5DE5"),
    ("F", "#00B4D8"), ("G", "#FB8500"), ("H", "#2B9348"), ("I", "#F72585"), ("J", "#7209B7")]

  /** The value stored under `key` in a table of pairs, the first match winning. */
  function Lookup(table: seq<(string, string)>, key: string): (r: Option<string>)
    ensures r.None? <==> forall i :: 0 <= i < |table| ==> table[i].0 != key
    ensures r.Some? ==>
      exists i :: 0 <= i < |table| && table[i] == (key, r.value) && forall j :: 0 <= j < i ==> table[j].0 != key
  {
    if table == [] then None
    else if table[0].0 == key then Some(table[0].1)
    else
      var r := Lookup(table[1..], key);
      assert forall i :: 1 <= i < |table| ==> table[i] == table[1..][i - 1];
      if r.Some? then
        var i :| 0 <= i < |table[1..]| && table[1..][i] == (key, r.value) && forall j :: 0 <= j < i ==> table[1..][j].0 != key;
        assert table[i + 1] == table[1..][i];
        r
      else r
  }

  /** The standard pixel formula: a normalised rectangle scaled to a canvas of `width` by `height`. */
  function PixelRect(r: RegionDefinition, width: real, height: real): (d: RegionDimensions)
    ensures d.x == r.topLeftX * width && d.y == r.topLeftY * height
    ensures d.x + d.width == r.bottomRightX * width
    ensures d.y + d.height == r.bottomRightY * height
  {
    RegionDimensions(
      r.topLeftX * width,
      r.topLeftY * height,
      (r.bottomRightX - r.topLeftX) * width,
      (r.bottomRightY - r.topLeftY) * height)
  }

  /** JavaScript `a % b` for `b > 0`: the remainder takes the sign of `a` and differs from `a` by a multiple of `b`. */
  function JsRem(a: int, b: int): (r: int)
    requires b > 0
    ensures -b < r < b
    ensures a >= 0 ==> r == a % b
    ensures a < 0 ==> -b < r <= 0
    ensures (a - r) % b == 0
  {
    if a >= 0 then
      ModuloUnique(a - a % b, b, a / b, 0);
      a % b
    else
      NegativeRemainder(a, b);
      -((-a) % b)
  }

  lemma NegativeRemainder(a: int, b: int)
    requires b > 0 && a < 0
    ensures 0 <= (-a) % b < b
    ensures (a - -((-a) % b)) % b == 0
  {
    var x := -a;
    var q := x / b;
    var m := x % b;
    assert x == q * b + m;
    assert a - -m == (-q) * b + 0 by {
      assert (-q) * b == -(q * b);
    }
    ModuloUnique(a - -m, b, -q, 0);
  }

  /** A remainder is fixed by any quotient-remainder decomposition. */
  lemma ModuloUnique(a: int, n: int, q: int, m: int)
    requires n > 0 && 0 <= m < n && a == q * n + m
    ensures a % n == m
  {
    var q', m' := a / n, a % n;
    assert a == q' * n + m';
    assert (q - q') * n == m' - m;
    if q > q' {
      AtLeastOnce(q - q', n);
    } else if q < q' {
      AtLeastOnce(q' - q, n);
    }
  }

  lemma AtLeastOnce(d: int, n: int)
    requires d >= 1 && n > 0
    ensures d * n >= n
  {
    assert d * n == n + (d - 1) * n;
  }
}
