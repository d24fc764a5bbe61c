/**
 * The timeline's warehouse canvas: per-region drawing data with label
 * colours, the name-keyed region map refreshed on every render, and which
 * regions are highlighted and carry an employee indicator.
 */
module TimelineCanvas {
  import opened Wrappers
  import opened Seqs
  import opened Strs
  import opened Types
  import opened BaseCanvas

  const FALLBACK_COLOR: string := "#ccc"

  /** `labels.find(l => l.uuid === uuid)?.color`. */
  function LabelColor(labels: seq<RegionLabel>, uuid: string): (c: Option<string>)
    ensures c.None? <==> forall i :: 0 <= i < |labels| ==> labels[i].uuid != uuid
    ensures c.Some? ==>
      exists i :: 0 <= i < |labels| && labels[i].uuid == uuid && labels[i].color == c.value
        && forall j :: 0 <= j < i ==> labels[j].uuid != uuid
  {
    if labels == [] then None
    else if labels[0].uuid == uuid then Some(labels[0].color)
    else
      var c := LabelColor(labels[1..], uuid);
      assert forall i :: 1 <= i < |labels| ==> labels[i] == labels[1..][i - 1];
      if c.Some? then
        var i :| 0 <= i < |labels[1..]| && labels[1..][i].uuid == uuid && labels[1..][i].color == c.value
          && forall j :: 0 <= j < i ==> labels[1..][j].uuid != uuid;
        assert labels[i + 1] == labels[1..][i];
        c
      else c
  }

  /** The region's pixel rectangle with its label's colour, `#ccc` when there is no label or its colour is empty. */
  function CalculateRegionData(region: RegionDefinition, labels: seq<RegionLabel>, canvasWidth: real, canvasHeight: real): CanvasRegionData
  {
    var px := PixelRect(region, canvasWidth, canvasHeight);
    var found := LabelColor(labels, region.labelUuid);
    CanvasRegionData(px.x, px.y, px.width, px.height, if found.Some? && found.value != "" then found.value else FALLBACK_COLOR, region.name)
  }

  /**
   * The timeline draws a region where the shared canvas does, in the
   * colour of the first label with the region's label id when that colour
   * is non-empty and in `#ccc` otherwise.
   */
  lemma RegionDataMeaning(region: RegionDefinition, labels: seq<RegionLabel>, canvasWidth: real, canvasHeight: real)
    ensures var d := CalculateRegionData(region, labels, canvasWidth, canvasHeight);
      var px := BaseCanvas.CalculateRegionDimensions(region, canvasWidth, canvasHeight);
      d.x == px.x && d.y == px.y && d.width == px.width && d.height == px.height && d.name == region.name
      && (d.color != FALLBACK_COLOR ==> exists i :: 0 <= i < |labels| && labels[i].uuid == region.labelUuid && labels[i].color == d.color)
      && ((forall i :: 0 <= i < |labels| ==> labels[i].uuid != region.labelUuid) ==> d.color == FALLBACK_COLOR)
  {
  }

  /** The map after `set(region.name, data(region))` for the first `n` regions: a later region overwrites an earlier one of the same name. */
  function RegionMap(regions: seq<RegionDefinition>, n: nat, data: RegionDefinition -> CanvasRegionData): map<string, CanvasRegionData>
    requires n <= |regions|
  {
    if n == 0 then map[]
    else RegionMap(regions, n - 1, data)[regions[n - 1].name := data(regions[n - 1])]
  }

  /** `calculateRegionData` for one layout, as a function of the region. */
  function RegionDataFor(labels: seq<RegionLabel>, canvasWidth: real, canvasHeight: real): RegionDefinition -> CanvasRegionData
  {
    region => CalculateRegionData(region, labels, canvasWidth, canvasHeight)
  }

  /** The map's keys are exactly the names of the first `n` regions. */
  lemma {:induction false} RegionMapKeys(regions: seq<RegionDefinition>, n: nat, data: RegionDefinition -> CanvasRegionData)
    requires n <= |regions|
    ensures forall name :: name in RegionMap(regions, n, data) <==> exists k :: 0 <= k < n && regions[k].name == name
  {
    if n > 0 {
      RegionMapKeys(regions, n - 1, data);
      forall name | exists k :: 0 <= k < n && regions[k].name == name
        ensures name in RegionMap(regions, n, data)
      {
        var k :| 0 <= k < n && regions[k].name == name;
        if k < n - 1 {
          assert name in RegionMap(regions, n - 1, data);
        }
      }
    }
  }

  /** A region that no later region shares a name with is the one the map holds under that name. */
  lemma {:induction false} RegionMapLastWins(regions: seq<RegionDefinition>, n: nat, data: RegionDefinition -> CanvasRegionData, k: nat)
    requires k < n <= |regions|
    requires forall j :: k < j < n ==> regions[j].name != regions[k].name
    ensures regions[k].name in RegionMap(regions, n, data)
    ensures RegionMap(regions, n, data)[regions[k].name] == data(regions[k])
  {
    if k < n - 1 {
      assert regions[n - 1].name != regions[k].name;
      RegionMapLastWins(regions, n - 1, data, k);
    }
  }

  /** The employee letter: the second `-`-separated part of the id, if any. */
  function EmployeeKey(id: string): Option<string>
  {
    var parts := Split(id, '-');
    if |parts| >= 2 then Some(parts[1]) else None
  }

  /** `EMPLOYEE_COLORS[id.split('-')[1]] || '#ccc'`. */
  function EmployeeColor(id: string): (c: string)
    ensures EmployeeKey(id).None? ==> c == FALLBACK_COLOR
    ensures EmployeeKey(id).Some? && Lookup(EMPLOYEE_COLORS, EmployeeKey(id).value).Some? ==> c == Lookup(EMPLOYEE_COLORS, EmployeeKey(id).value).value
    ensures EmployeeKey(id).Some? && Lookup(EMPLOYEE_COLORS, EmployeeKey(id).value).None? ==> c == FALLBACK_COLOR
  {
    EmployeeColorsSet();
    match EmployeeKey(id)
    case None => FALLBACK_COLOR
    case Some(key) =>
      match Lookup(EMPLOYEE_COLORS, key)
      case Some(c) => if c != "" then c else FALLBACK_COLOR
      case None => FALLBACK_COLOR
  }

  /** Every employee in the colour table has a colour. */
  lemma EmployeeColorsSet()
    ensures forall i :: 0 <= i < |EMPLOYEE_COLORS| ==> EMPLOYEE_COLORS[i].1 != ""
  {
  }

  /** An id such as `E-A` gets employee A's colour; an id without a dash gets the fallback. */
  lemma EmployeeColorExamples()
    ensures EmployeeColor("E-A") == "#E63946"
    ensures EmployeeColor("worker7") == FALLBACK_COLOR
  {
    assert Split("E-A", '-') == ["E", "A"] by {
      assert Split("", '-') == [""];
      assert "A"[1..] == "";
      assert "A"[0] == 'A';
      assert ['A'] + ""[..] == "A";
      assert [""][1..] == [];
      assert Split("A", '-') == [['A'] + Split("", '-')[0]] + Split("", '-')[1..];
      assert Split("A", '-') == ["A"];
      assert "-A"[1..] == "A";
      assert "-A"[0] == '-';
      assert Split("-A", '-') == [""] + Split("A", '-');
      assert Split("-A", '-') == ["", "A"];
      assert "E-A"[1..] == "-A";
      assert "E-A"[0] == 'E';
      assert Split("E-A", '-') == [['E'] + Split("-A", '-')[0]] + Split("-A", '-')[1..];
      assert ['E'] + "" == "E";
      assert ["", "A"][1..] == ["A"];
    }
    SplitWithoutSeparator("worker7", '-');
  }

  datatype EmployeeMark = EmployeeMark(id: string, color: string)

  /** An indicator: its centre and the employees shown in it. */
  datatype Indicator = Indicator(center: Point, employees: seq<EmployeeMark>)

  /** What one region gets in a render. */
  datatype RegionDraw = RegionDraw(name: string, isActive: bool, isHovered: bool, indicator: Option<Indicator>)

  function InRegion(name: string): ActivityRecord -> bool
  {
    (a: ActivityRecord) => a.region == name
  }

  function Marks(activities: seq<ActivityRecord>): (m: seq<EmployeeMark>)
    ensures |m| == |activities|
    ensures forall i :: 0 <= i < |activities| ==> m[i] == EmployeeMark(activities[i].id, EmployeeColor(activities[i].id))
  {
    seq(|activities|, i requires 0 <= i < |activities| => EmployeeMark(activities[i].id, EmployeeColor(activities[i].id)))
  }

  /** `currentActivities.some(a => a.region === name)`. */
  predicate IsActive(activities: seq<ActivityRecord>, name: string)
  {
    exists i :: 0 <= i < |activities| && activities[i].region == name
  }

  /** The draw decision for one region given the current activities. */
  function RegionDrawFor(data: CanvasRegionData, activities: seq<ActivityRecord>, hasHoverListener: bool): RegionDraw
  {
    var here := Filter(activities, InRegion(data.name));
    var isActive := IsActive(activities, data.name);
    RegionDraw(
      data.name, isActive, hasHoverListener,
      if isActive && |here| > 0
      then Some(Indicator(Point(data.x + data.width / 2.0, data.y + data.height / 2.0), Marks(here)))
      else None)
  }

  /** The draw decisions for the first `n` regions, in layout order. */
  function RenderAll(regions: seq<RegionDefinition>, n: nat, draw: RegionDefinition -> RegionDraw): (r: seq<RegionDraw>)
    requires n <= |regions|
    ensures |r| == n
  {
    if n == 0 then []
    else RenderAll(regions, n - 1, draw) + [draw(regions[n - 1])]
  }

  /** The draw decision for one region of a layout, as a function of the region. */
  function DrawFor(labels: seq<RegionLabel>, canvasWidth: real, canvasHeight: real, activities: seq<ActivityRecord>, hasHoverListener: bool): RegionDefinition -> RegionDraw
  {
    region => RegionDrawFor(CalculateRegionData(region, labels, canvasWidth, canvasHeight), activities, hasHoverListener)
  }

  /** One decision per region, each the region's own. */
  lemma {:induction false} RenderAllPerRegion(regions: seq<RegionDefinition>, n: nat, draw: RegionDefinition -> RegionDraw)
    requires n <= |regions|
    ensures forall k :: 0 <= k < n ==> RenderAll(regions, n, draw)[k] == draw(regions[k])
  {
    if n > 0 {
      RenderAllPerRegion(regions, n - 1, draw);
    }
  }

  class TimelineCanvasView {
    /** `regionsRef`: region name to drawing data. */
    var regions: map<string, CanvasRegionData>

    constructor ()
      ensures regions == map[]
    {
      regions := map[];
    }

    /**
     * `handleRender`: clears and refills the region map from the layout and
     * decides, region by region, the highlight and the indicator.
     */
    method HandleRender(layout: LayoutMetadata, canvasWidth: real, canvasHeight: real, activities: seq<ActivityRecord>, hasHoverListener: bool)
      returns (draws: seq<RegionDraw>)
      modifies this
      ensures regions == RegionMap(layout.regions, |layout.regions|, RegionDataFor(layout.labels, canvasWidth, canvasHeight))
      ensures draws == RenderAll(layout.regions, |layout.regions|, DrawFor(layout.labels, canvasWidth, canvasHeight, activities, hasHoverListener))
    {
      draws := Refill(layout.regions, RegionDataFor(layout.labels, canvasWidth, canvasHeight),
                      DrawFor(layout.labels, canvasWidth, canvasHeight, activities, hasHoverListener));
    }

    /**
     * The `forEach` over the regions: each region's data goes into the map
     * under its name and its draw decision is made.
     */
    method Refill(layoutRegions: seq<RegionDefinition>, data: RegionDefinition -> CanvasRegionData, draw: RegionDefinition -> RegionDraw)
      returns (draws: seq<RegionDraw>)
      modifies this
      ensures regions == RegionMap(layoutRegions, |layoutRegions|, data)
      ensures draws == RenderAll(layoutRegions, |layoutRegions|, draw)
    {
      regions := map[];
      draws := [];
      var i := 0;
      while i < |layoutRegions|
        invariant 0 <= i <= |layoutRegions|
        invariant regions == RegionMap(layoutRegions, i, data)
        invariant draws == RenderAll(layoutRegions, i, draw)
      {
        var region := layoutRegions[i];
        regions := regions[region.name := data(region)];
        draws := draws + [draw(region)];
        i := i + 1;
      }
    }
  }

  /**
   * A region is active iff some current activity names it, hovered
   * exactly when a hover listener exists, and an active region's
   * indicator sits at its centre with one mark per activity in that
   * region, in activity order, carrying that activity's employee id and
   * colour.
   */
  lemma RegionDrawMeaning(data: CanvasRegionData, activities: seq<ActivityRecord>, hasHoverListener: bool)
    ensures var d := RegionDrawFor(data, activities, hasHoverListener);
      d.name == data.name
      && (d.isActive <==> IsActive(activities, data.name))
      && d.isHovered == hasHoverListener
      && (d.indicator.Some? <==> d.isActive)
      && (d.indicator.Some? ==>
            d.indicator.value.center == Point(data.x + data.width / 2.0, data.y + data.height / 2.0)
            && var here := Filter(activities, InRegion(data.name));
            |d.indicator.value.employees| == |here|
            && forall k :: 0 <= k < |here| ==>
                 here[k].region == data.name
                 && d.indicator.value.employees[k] == EmployeeMark(here[k].id, EmployeeColor(here[k].id)))
  {
    var here := Filter(activities, InRegion(data.name));
    if IsActive(activities, data.name) {
      var i :| 0 <= i < |activities| && activities[i].region == data.name;
      assert activities[i] in here;
    }
  }
}
