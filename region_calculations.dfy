/**
 * Region geometry of an extended layout: pixel rectangles, the bounding
 * box of a combination, and the rewrite of a layout's region list that
 * replaces the members of each combination by one merged region.
 */
module RegionCalculations {
  import opened Wrappers
  import opened Seqs
  import opened Types
  import opened RegionStore

  /** A layout region with its evaluation metadata; `originalRegions` is present on merged regions only. */
  datatype RegionMetadata = RegionMetadata(
    def: RegionDefinition,
    excludeFromEval: bool,
    specialActivities: seq<HumanActivity>,
    regionId: int,
    uuid: string,
    originalRegions: Option<seq<string>>)

  datatype Beacon = Beacon(uuid: string, id: int, positionX: real, positionY: real, regionUuid: string, comment: Option<string>)

  datatype DynamicBeacon = DynamicBeacon(uuid: string, id: int, comment: string, distanceThresholdRssi: real)

  datatype ExtendedLayout = ExtendedLayout(
    regions: seq<RegionMetadata>,
    labels: seq<RegionLabel>,
    beacons: seq<Beacon>,
    dynamicBeacons: seq<DynamicBeacon>,
    widthPixel: real,
    heightPixel: real)

  datatype ExtendedProcessMetadata = ExtendedProcessMetadata(
    layout: ExtendedLayout,
    humanActivities: seq<HumanActivity>,
    timestamp: string,
    version: string)

  /** The layout regions whose name is listed, in layout order. */
  function GetRegionsFromMetadata(metadata: ExtendedProcessMetadata, names: seq<string>): (r: seq<RegionMetadata>)
    ensures r == Filter(metadata.layout.regions, (x: RegionMetadata) => x.def.name in names)
    ensures forall x :: x in r <==> x in metadata.layout.regions && x.def.name in names
    ensures |r| <= |metadata.layout.regions|
  {
    KeepNamed(metadata.layout.regions, names)
  }

  /** `regions.filter(region => names.includes(region.name))`. */
  function KeepNamed(regions: seq<RegionMetadata>, names: seq<string>): (r: seq<RegionMetadata>)
    ensures r == Filter(regions, (x: RegionMetadata) => x.def.name in names)
    ensures forall x :: x in r <==> x in regions && x.def.name in names
    ensures |r| <= |regions|
  {
    if regions == [] then []
    else if regions[0].def.name in names then [regions[0]] + KeepNamed(regions[1..], names)
    else KeepNamed(regions[1..], names)
  }

  /** Only listed names survive, and a list naming every region keeps the layout order. */
  lemma GetRegionsKeepsOrder(metadata: ExtendedProcessMetadata, names: seq<string>)
    requires forall x :: x in metadata.layout.regions ==> x.def.name in names
    ensures GetRegionsFromMetadata(metadata, names) == metadata.layout.regions
  {
    KeepAllNamed(metadata.layout.regions, names);
  }

  lemma {:induction false} KeepAllNamed(regions: seq<RegionMetadata>, names: seq<string>)
    requires forall x :: x in regions ==> x.def.name in names
    ensures KeepNamed(regions, names) == regions
  {
    if regions != [] {
      KeepAllNamed(regions[1..], names);
    }
  }

  lemma {:induction false} KeepNoneNamed(regions: seq<RegionMetadata>, names: seq<string>)
    requires forall x :: x in regions ==> x.def.name !in names
    ensures KeepNamed(regions, names) == []
  {
    if regions != [] {
      KeepNoneNamed(regions[1..], names);
    }
  }

  /** The pixel rectangle: corners map to corners scaled by the canvas size. */
  function CalculateRegionDimensions(region: RegionMetadata, canvasWidth: real, canvasHeight: real): (d: RegionDimensions)
    ensures d == PixelRect(region.def, canvasWidth, canvasHeight)
    ensures d.x == region.def.topLeftX * canvasWidth && d.y == region.def.topLeftY * canvasHeight
    ensures d.x + d.width == region.def.bottomRightX * canvasWidth
    ensures d.y + d.height == region.def.bottomRightY * canvasHeight
  {
    RegionDimensions(
      region.def.topLeftX * canvasWidth,
      region.def.topLeftY * canvasHeight,
      (region.def.bottomRightX - region.def.topLeftX) * canvasWidth,
      (region.def.bottomRightY - region.def.topLeftY) * canvasHeight)
  }

  /** A rectangle with bottom-right beyond top-left has a positive pixel size on a non-empty canvas. */
  lemma PixelRectPositive(r: RegionDefinition, width: real, height: real)
    requires r.bottomRightX > r.topLeftX && r.bottomRightY > r.topLeftY
    requires width > 0.0 && height > 0.0
    ensures PixelRect(r, width, height).width > 0.0 && PixelRect(r, width, height).height > 0.0
  {
    var d := PixelRect(r, width, height);
    assert d.width == (r.bottomRightX - r.topLeftX) * width && d.height == (r.bottomRightY - r.topLeftY) * height;
    ProductPositive(r.bottomRightX - r.topLeftX, width);
    ProductPositive(r.bottomRightY - r.topLeftY, height);
  }

  lemma ProductPositive(a: real, b: real)
    requires a > 0.0 && b > 0.0
    ensures a * b > 0.0
  {
  }

  function MinOf(s: seq<real>): (m: real)
    requires |s| > 0
    ensures m in s && forall i :: 0 <= i < |s| ==> m <= s[i]
  {
    if |s| == 1 then s[0]
    else
      var rest := MinOf(s[1..]);
      assert forall i :: 1 <= i < |s| ==> s[i] == s[1..][i - 1];
      if s[0] <= rest then s[0] else rest
  }

  function MaxOf(s: seq<real>): (m: real)
    requires |s| > 0
    ensures m in s && forall i :: 0 <= i < |s| ==> s[i] <= m
  {
    if |s| == 1 then s[0]
    else
      var rest := MaxOf(s[1..]);
      assert forall i :: 1 <= i < |s| ==> s[i] == s[1..][i - 1];
      if s[0] >= rest then s[0] else rest
  }

  /**
   * The region that stands for a combination: the bounding box of its
   * members, the combination's name, label, exclusion flag and special
   * activities of the first member, id -1 and the member names.  An empty
   * member list is an error (`None`).
   */
  function CalculateCombinedRegionDimensions(regions: seq<RegionMetadata>, combinationName: string, uuid: string): (r: Option<RegionMetadata>)
    ensures r.None? <==> regions == []
    ensures r.Some? ==>
      var c := r.value;
      && c.def.name == combinationName
      && c.def.labelUuid == regions[0].def.labelUuid
      && c.excludeFromEval == regions[0].excludeFromEval
      && c.specialActivities == regions[0].specialActivities
      && c.regionId == -1
      && c.uuid == uuid
      && c.originalRegions == Some(seq(|regions|, i requires 0 <= i < |regions| => regions[i].def.name))
      && (forall i :: 0 <= i < |regions| ==>
            c.def.topLeftX <= regions[i].def.topLeftX && c.def.topLeftY <= regions[i].def.topLeftY
            && regions[i].def.bottomRightX <= c.def.bottomRightX && regions[i].def.bottomRightY <= c.def.bottomRightY)
      && (exists i :: 0 <= i < |regions| && c.def.topLeftX == regions[i].def.topLeftX)
      && (exists i :: 0 <= i < |regions| && c.def.topLeftY == regions[i].def.topLeftY)
      && (exists i :: 0 <= i < |regions| && c.def.bottomRightX == regions[i].def.bottomRightX)
      && (exists i :: 0 <= i < |regions| && c.def.bottomRightY == regions[i].def.bottomRightY)
  {
    if regions == [] then None
    else
      var tlx := seq(|regions|, i requires 0 <= i < |regions| => regions[i].def.topLeftX);
      var tly := seq(|regions|, i requires 0 <= i < |regions| => regions[i].def.topLeftY);
      var brx := seq(|regions|, i requires 0 <= i < |regions| => regions[i].def.bottomRightX);
      var bry := seq(|regions|, i requires 0 <= i < |regions| => regions[i].def.bottomRightY);
      var base := regions[0];
      var minX, minY, maxX, maxY := MinOf(tlx), MinOf(tly), MaxOf(brx), MaxOf(bry);
      assert forall i :: 0 <= i < |regions| ==>
        minX <= regions[i].def.topLeftX && minY <= regions[i].def.topLeftY
        && regions[i].def.bottomRightX <= maxX && regions[i].def.bottomRightY <= maxY by {
        forall i | 0 <= i < |regions|
          ensures minX <= regions[i].def.topLeftX && minY <= regions[i].def.topLeftY
          ensures regions[i].def.bottomRightX <= maxX && regions[i].def.bottomRightY <= maxY
        {
          assert tlx[i] == regions[i].def.topLeftX && tly[i] == regions[i].def.topLeftY;
          assert brx[i] == regions[i].def.bottomRightX && bry[i] == regions[i].def.bottomRightY;
        }
      }
      Some(RegionMetadata(
        RegionDefinition(combinationName, minX, minY, maxX, maxY, base.def.labelUuid),
        base.excludeFromEval,
        base.specialActivities,
        -1,
        uuid,
        Some(seq(|regions|, i requires 0 <= i < |regions| => regions[i].def.name))))
  }

  /** A combination of one region has exactly that region's rectangle. */
  lemma CombinedOfOneIsMember(m: RegionMetadata, combinationName: string, uuid: string)
    ensures var r := CalculateCombinedRegionDimensions([m], combinationName, uuid);
      r.Some?
      && r.value.def.topLeftX == m.def.topLeftX && r.value.def.topLeftY == m.def.topLeftY
      && r.value.def.bottomRightX == m.def.bottomRightX && r.value.def.bottomRightY == m.def.bottomRightY
  {
    var r := CalculateCombinedRegionDimensions([m], combinationName, uuid);
    assert [m][0] == m;
  }

  /** `regions.filter(region => !names.includes(region.name))`. */
  function DropNamed(regions: seq<RegionMetadata>, names: seq<string>): (r: seq<RegionMetadata>)
    ensures r == Filter(regions, (x: RegionMetadata) => x.def.name !in names)
    ensures forall x :: x in r <==> x in regions && x.def.name !in names
    ensures |r| <= |regions|
  {
    if regions == [] then []
    else if regions[0].def.name !in names then [regions[0]] + DropNamed(regions[1..], names)
    else DropNamed(regions[1..], names)
  }

  /** The largest region id, taking -1 for no regions (the source takes -Infinity there). */
  function MaxRegionId(regions: seq<RegionMetadata>): (m: int)
    ensures forall i :: 0 <= i < |regions| ==> regions[i].regionId <= m
    ensures regions == [] ==> m == -1
    ensures regions != [] ==> exists i :: 0 <= i < |regions| && regions[i].regionId == m
  {
    if regions == [] then -1
    else
      var rest := MaxRegionId(regions[1..]);
      assert forall i :: 1 <= i < |regions| ==> regions[i] == regions[1..][i - 1];
      if regions[1..] == [] || regions[0].regionId >= rest then regions[0].regionId else rest
  }

  /**
   * One round of the rewrite for one combination: the members are looked
   * up in the original layout; if any exists, every region the
   * combination names is dropped from the current list and the merged
   * region, numbered one above the largest remaining id, is appended.
   */
  function MergeCombination(current: seq<RegionMetadata>, original: ExtendedProcessMetadata, c: Combination, uuid: string): seq<RegionMetadata>
  {
    var toMerge := GetRegionsFromMetadata(original, c.regions);
    match CalculateCombinedRegionDimensions(toMerge, c.name, uuid)
    case None => current
    case Some(combined) =>
      var remaining := DropNamed(current, c.regions);
      remaining + [combined.(regionId := MaxRegionId(remaining) + 1)]
  }

  /** The region list after the first `|combos|` combinations have been applied in order. */
  function MergeAll(original: ExtendedProcessMetadata, combos: seq<Combination>, uuids: seq<string>): seq<RegionMetadata>
    requires |uuids| == |combos|
    decreases |combos|
  {
    if combos == [] then original.layout.regions
    else
      MergeCombination(
        MergeAll(original, combos[..|combos| - 1], uuids[..|combos| - 1]),
        original, combos[|combos| - 1], uuids[|combos| - 1])
  }

  /** The body of the per-combination callback: looks up, drops, numbers and appends. */
  method ApplyCombination(metadata: ExtendedProcessMetadata, c: Combination, uuid: string, current: seq<RegionMetadata>)
    returns (regions: seq<RegionMetadata>)
    ensures regions == MergeCombination(current, metadata, c, uuid)
  {
    regions := current;
    var toMerge := GetRegionsFromMetadata(metadata, c.regions);
    if |toMerge| > 0 {
      var combined := CalculateCombinedRegionDimensions(toMerge, c.name, uuid);
      regions := DropNamed(regions, c.regions);
      var maxId := MaxRegionId(regions);
      regions := regions + [combined.value.(regionId := maxId + 1)];
    }
  }

  /**
   * `updateMetadataWithCombinedRegions`: the layout's region list is
   * rewritten combination by combination (with `uuids[i]` standing for the
   * identifier generated for combination `i`); everything else is copied.
   */
  method UpdateMetadataWithCombinedRegions(metadata: ExtendedProcessMetadata, combos: seq<Combination>, uuids: seq<string>)
    returns (updated: ExtendedProcessMetadata)
    requires |uuids| == |combos|
    ensures updated.layout.regions == MergeAll(metadata, combos, uuids)
    ensures updated.layout.labels == metadata.layout.labels
    ensures updated.layout.beacons == metadata.layout.beacons
    ensures updated.layout.dynamicBeacons == metadata.layout.dynamicBeacons
    ensures updated.layout.widthPixel == metadata.layout.widthPixel
    ensures updated.layout.heightPixel == metadata.layout.heightPixel
    ensures updated.humanActivities == metadata.humanActivities
    ensures updated.timestamp == metadata.timestamp && updated.version == metadata.version
  {
    var regions := metadata.layout.regions;
    var i := 0;
    while i < |combos|
      invariant 0 <= i <= |combos|
      invariant regions == MergeAll(metadata, combos[..i], uuids[..i])
    {
      ghost var before := regions;
      regions := ApplyCombination(metadata, combos[i], uuids[i], regions);
      assert MergeAll(metadata, combos[..i + 1], uuids[..i + 1]) == MergeCombination(before, metadata, combos[i], uuids[i]) by {
        assert combos[..i + 1][..i] == combos[..i] && uuids[..i + 1][..i] == uuids[..i];
      }
      i := i + 1;
    }
    assert combos[..i] == combos && uuids[..i] == uuids;
    updated := metadata.(layout := metadata.layout.(regions := regions));
  }

  /** A combination none of whose regions exists in the original layout changes nothing. */
  lemma MergeUnmatchedIsNoOp(current: seq<RegionMetadata>, original: ExtendedProcessMetadata, c: Combination, uuid: string)
    requires forall x :: x in original.layout.regions ==> x.def.name !in c.regions
    ensures MergeCombination(current, original, c, uuid) == current
  {
    KeepNoneNamed(original.layout.regions, c.regions);
  }

  /**
   * A combination with a member in the original layout removes every
   * region it names and appends one merged region named after it, whose
   * id is above every remaining id.
   */
  lemma MergeMatchedEffect(current: seq<RegionMetadata>, original: ExtendedProcessMetadata, c: Combination, uuid: string, m: RegionMetadata)
    requires m in original.layout.regions && m.def.name in c.regions
    ensures var r := MergeCombination(current, original, c, uuid);
      |r| >= 1
      && r[|r| - 1].def.name == c.name
      && r[|r| - 1].originalRegions.Some?
      && (forall x :: x in r[..|r| - 1] <==> x in current && x.def.name !in c.regions)
      && (forall i :: 0 <= i < |r| - 1 ==> r[i].regionId < r[|r| - 1].regionId)
  {
    var toMerge := GetRegionsFromMetadata(original, c.regions);
    assert m in toMerge;
    var r := MergeCombination(current, original, c, uuid);
    var remaining := DropNamed(current, c.regions);
    assert r[..|r| - 1] == remaining;
  }

  /** `combinations.find(c => c.name === name)` as an index. */
  function FindNamed(combos: seq<Combination>, name: string): (k: Option<nat>)
    ensures k.Some? ==>
      k.value < |combos| && combos[k.value].name == name
      && forall j :: 0 <= j < k.value ==> combos[j].name != name
    ensures k.None? ==> forall j :: 0 <= j < |combos| ==> combos[j].name != name
  {
    if combos == [] then None
    else if combos[0].name == name then Some(0)
    else
      var k := FindNamed(combos[1..], name);
      if k.Some? then Some(k.value + 1) else None
  }

  /** The member regions of the first combination with that name, or none. */
  function GetOriginalRegions(combinedRegionName: string, combos: seq<Combination>): (r: seq<string>)
    ensures (forall j :: 0 <= j < |combos| ==> combos[j].name != combinedRegionName) ==> r == []
    ensures forall k ::
      (0 <= k < |combos| && combos[k].name == combinedRegionName && forall j :: 0 <= j < k ==> combos[j].name != combinedRegionName)
      ==> r == combos[k].regions
  {
    match FindNamed(combos, combinedRegionName)
    case Some(k) => combos[k].regions
    case None => []
  }

  /** Whether some combination has exactly the region's name. */
  function IsCombinedRegion(region: RegionMetadata, combos: seq<Combination>): (b: bool)
    ensures b <==> exists j :: 0 <= j < |combos| && combos[j].name == region.def.name
  {
    FindNamed(combos, region.def.name).Some?
  }

  /** The first combination that has this name or contains a region of this name. */
  function GetCombinationByRegionName(regionName: string, combos: seq<Combination>): (r: Option<Combination>)
    ensures r.None? <==> forall j :: 0 <= j < |combos| ==> combos[j].name != regionName && regionName !in combos[j].regions
    ensures r.Some? ==>
      exists k ::
        0 <= k < |combos| && r.value == combos[k]
        && (combos[k].name == regionName || regionName in combos[k].regions)
        && forall j :: 0 <= j < k ==> combos[j].name != regionName && regionName !in combos[j].regions
  {
    if combos == [] then None
    else if combos[0].name == regionName || regionName in combos[0].regions then Some(combos[0])
    else
      var r := GetCombinationByRegionName(regionName, combos[1..]);
      assert forall j :: 1 <= j < |combos| ==> combos[j] == combos[1..][j - 1];
      if r.Some? then
        var k :| 0 <= k < |combos[1..]| && r.value == combos[1..][k]
          && (combos[1..][k].name == regionName || regionName in combos[1..][k].regions)
          && forall j :: 0 <= j < k ==> combos[1..][j].name != regionName && regionName !in combos[1..][j].regions;
        assert combos[k + 1] == combos[1..][k];
        r
      else r
  }

  /**
   * The three lookups agree: a combined region is found by name, and its
   * members are the regions of the first combination of that name.
   */
  lemma CombinedRegionLookups(region: RegionMetadata, combos: seq<Combination>)
    requires IsCombinedRegion(region, combos)
    ensures GetCombinationByRegionName(region.def.name, combos).Some?
    ensures exists k ::
      0 <= k < |combos| && combos[k].name == region.def.name
      && GetOriginalRegions(region.def.name, combos) == combos[k].regions
  {
    var k := FindNamed(combos, region.def.name).value;
    assert combos[k].name == region.def.name;
  }
}
