/**
 * The shared warehouse canvas: pixel rectangles, label layout and font
 * size, the canvas size and its resize rule, and mouse hit-testing for
 * hover and click.
 */
module BaseCanvas {
  import opened Wrappers
  import opened Types
  import RegionCalculations

  /** Same pixel rectangle as the geometry library computes. */
  function CalculateRegionDimensions(region: RegionDefinition, canvasWidth: real, canvasHeight: real): (d: RegionDimensions)
    ensures d == PixelRect(region, canvasWidth, canvasHeight)
  {
    RegionDimensions(
      region.topLeftX * canvasWidth,
      region.topLeftY * canvasHeight,
      (region.bottomRightX - region.topLeftX) * canvasWidth,
      (region.bottomRightY - region.topLeftY) * canvasHeight)
  }

  /** Both canvas helpers agree with the library on every region of an extended layout. */
  lemma SameFormulaAsLibrary(region: RegionCalculations.RegionMetadata, canvasWidth: real, canvasHeight: real)
    ensures CalculateRegionDimensions(region.def, canvasWidth, canvasHeight)
      == RegionCalculations.CalculateRegionDimensions(region, canvasWidth, canvasHeight)
  {
  }

  datatype TextLayout = Vertical | Horizontal | Square

  /**
   * Orientation of a label from the aspect ratio `width / height`: below
   * 0.8 vertical, above 1.2 horizontal, otherwise square.  A zero height
   * gives JavaScript's infinite (or, for a zero width, NaN) ratio.
   */
  function CalculateTextLayout(width: real, height: real): (l: TextLayout)
    ensures height > 0.0 ==> (l == Vertical <==> width < 0.8 * height)
    ensures height > 0.0 ==> (l == Horizontal <==> width > 1.2 * height)
    ensures height == 0.0 ==> l == (if width > 0.0 then Horizontal else if width < 0.0 then Vertical else Square)
  {
    if height == 0.0 then
      (if width > 0.0 then Horizontal else if width < 0.0 then Vertical else Square)
    else
      var ratio := width / height;
      RatioCompare(width, height, 0.8);
      RatioCompare(width, height, 1.2);
      if ratio < 0.8 then Vertical
      else if ratio > 1.2 then Horizontal
      else Square
  }

  /** For a positive height, comparing the ratio is comparing the width with a multiple of the height. */
  lemma RatioCompare(width: real, height: real, c: real)
    requires height != 0.0
    ensures height > 0.0 ==> (width / height < c <==> width < c * height)
    ensures height > 0.0 ==> (width / height > c <==> width > c * height)
  {
    var r := width / height;
    assert r * height == width;
    if height > 0.0 {
      if r < c { ProductPositive(c - r, height); }
      if r > c { ProductPositive(r - c, height); }
      if width < c * height { assert (c - r) * height > 0.0; NegativeFactor(c - r, height); }
      if width > c * height { assert (r - c) * height > 0.0; NegativeFactor(r - c, height); }
    }
  }

  lemma ProductPositive(a: real, b: real)
    requires a > 0.0 && b > 0.0
    ensures a * b > 0.0
  {
  }

  lemma NegativeFactor(a: real, b: real)
    requires a * b > 0.0 && b > 0.0
    ensures a > 0.0
  {
    assert a == (a * b) / b;
  }

  /** The thresholds themselves are square. */
  lemma ThresholdsAreSquare(height: real)
    requires height > 0.0
    ensures CalculateTextLayout(0.8 * height, height) == Square
    ensures CalculateTextLayout(1.2 * height, height) == Square
  {
  }

  datatype Point = Point(x: real, y: real)

  /**
   * What `renderRegionText` hands to the canvas: the font size, the
   * outline width, an optional translation (with a quarter-turn rotation)
   * and the point the text is drawn at.
   */
  datatype TextDraw = TextDraw(layout: TextLayout, fontSize: real, outlineWidth: real, translate: Option<Point>, at: Point)

  function Max(a: real, b: real): real { if a >= b then a else b }
  function Min(a: real, b: real): real { if a <= b then a else b }

  function RenderRegionText(text: string, d: RegionDimensions): (t: TextDraw)
    ensures var longest := Max(d.width, d.height);
      var divisor := if |text| > 8 then 8.0 else 5.0;
      && t.layout == CalculateTextLayout(d.width, d.height)
      && t.fontSize <= longest * 0.8
      && (longest >= 0.0 ==> t.fontSize == longest * 0.8 / divisor)
      && t.outlineWidth * 8.0 == t.fontSize
    ensures var centre := Point(d.x + d.width / 2.0, d.y + d.height / 2.0);
      if t.layout == Vertical then t.translate == Some(centre) && t.at == Point(0.0, 0.0)
      else t.translate.None? && t.at == centre
  {
    var layout := CalculateTextLayout(d.width, d.height);
    var longest := Max(d.width, d.height);
    var fontSize := Min(longest * 0.8 / (if |text| > 8 then 8.0 else 5.0), longest * 0.8);
    var centre := Point(d.x + d.width / 2.0, d.y + d.height / 2.0);
    if layout == Vertical then TextDraw(layout, fontSize, fontSize / 8.0, Some(centre), Point(0.0, 0.0))
    else TextDraw(layout, fontSize, fontSize / 8.0, None, centre)
  }

  /** `width_pixel || 800`, `height_pixel || 600`: a zero size falls back to the default. */
  function InitialCanvasSize(layout: RegionCalculations.ExtendedLayout): (s: CanvasSize)
    ensures layout.widthPixel != 0.0 ==> s.width == layout.widthPixel
    ensures layout.widthPixel == 0.0 ==> s.width == CANVAS_DEFAULT_WIDTH
    ensures layout.heightPixel != 0.0 ==> s.height == layout.heightPixel
    ensures layout.heightPixel == 0.0 ==> s.height == CANVAS_DEFAULT_HEIGHT
  {
    CanvasSize(
      if layout.widthPixel != 0.0 then layout.widthPixel else CANVAS_DEFAULT_WIDTH,
      if layout.heightPixel != 0.0 then layout.heightPixel else CANVAS_DEFAULT_HEIGHT)
  }

  /**
   * The size after a resize to a container of width `width`: that width
   * and the layout's aspect ratio; the previous value is kept when it
   * already has both sides.
   */
  function ResizedCanvas(prev: CanvasSize, width: real, layout: RegionCalculations.ExtendedLayout): (s: CanvasSize)
    requires layout.widthPixel != 0.0
    ensures s.width == width
    ensures s.height * layout.widthPixel == width * layout.heightPixel
  {
    var next := CanvasSize(width, width * (layout.heightPixel / layout.widthPixel));
    if prev.width != next.width || prev.height != next.height then next else prev
  }

  /** A resize to the size already shown is no change. */
  lemma ResizeToSameSizeKeepsPrevious(prev: CanvasSize, layout: RegionCalculations.ExtendedLayout)
    requires layout.widthPixel != 0.0
    requires prev.height == prev.width * (layout.heightPixel / layout.widthPixel)
    ensures ResizedCanvas(prev, prev.width, layout) == prev
  {
  }

  /** The canvas size held by the component. */
  class CanvasView {
    var size: CanvasSize

    constructor (layout: RegionCalculations.ExtendedLayout)
      ensures size == InitialCanvasSize(layout)
    {
      size := InitialCanvasSize(layout);
    }

    /** Without a container nothing changes; otherwise the size follows the container width. */
    method HandleResize(containerWidth: Option<real>, layout: RegionCalculations.ExtendedLayout)
      requires layout.widthPixel != 0.0
      modifies this
      ensures containerWidth.None? ==> size == old(size)
      ensures containerWidth.Some? ==> size == ResizedCanvas(old(size), containerWidth.value, layout)
    {
      if containerWidth.Some? {
        size := ResizedCanvas(size, containerWidth.value, layout);
      }
    }
  }

  /** Hover and click switches; an absent switch is off, and the default configuration enables both. */
  datatype InteractionConfig = InteractionConfig(enableHover: bool, enableClick: bool)

  const DEFAULT_CONFIG: InteractionConfig := InteractionConfig(true, true)

  /** The canvas element's on-screen box. */
  datatype ClientRect = ClientRect(left: real, top: real, width: real, height: real)

  /** A mouse position scaled from screen pixels to canvas pixels. */
  function CanvasPoint(clientX: real, clientY: real, rect: ClientRect, canvasWidth: real, canvasHeight: real): (p: Point)
    requires rect.width != 0.0 && rect.height != 0.0
    ensures p.x * rect.width == (clientX - rect.left) * canvasWidth
    ensures p.y * rect.height == (clientY - rect.top) * canvasHeight
  {
    Point((clientX - rect.left) * (canvasWidth / rect.width), (clientY - rect.top) * (canvasHeight / rect.height))
  }

  /** The closed rectangle contains the point. */
  predicate Contains(d: RegionDimensions, p: Point)
  {
    p.x >= d.x && p.x <= d.x + d.width && p.y >= d.y && p.y <= d.y + d.height
  }

  predicate HitAt(regions: seq<RegionCalculations.RegionMetadata>, k: nat, canvasWidth: real, canvasHeight: real, p: Point)
    requires k < |regions|
  {
    Contains(CalculateRegionDimensions(regions[k].def, canvasWidth, canvasHeight), p)
  }

  /** Indices below `n` of the regions containing the point, ascending. */
  function HitsUpTo(regions: seq<RegionCalculations.RegionMetadata>, n: nat, canvasWidth: real, canvasHeight: real, p: Point): (hits: seq<nat>)
    requires n <= |regions|
    ensures forall k: nat :: k in hits <==> k < n && HitAt(regions, k, canvasWidth, canvasHeight, p)
    ensures forall i, j :: 0 <= i < j < |hits| ==> hits[i] < hits[j]
    ensures forall i :: 0 <= i < |hits| ==> hits[i] < n
  {
    if n == 0 then []
    else
      var earlier := HitsUpTo(regions, n - 1, canvasWidth, canvasHeight, p);
      if HitAt(regions, n - 1, canvasWidth, canvasHeight, p) then earlier + [n - 1] else earlier
  }

  function NamesAt(regions: seq<RegionCalculations.RegionMetadata>, hits: seq<nat>): (names: seq<string>)
    requires forall i :: 0 <= i < |hits| ==> hits[i] < |regions|
    ensures |names| == |hits|
    ensures forall i :: 0 <= i < |hits| ==> names[i] == regions[hits[i]].def.name
  {
    seq(|hits|, i requires 0 <= i < |hits| => regions[hits[i]].def.name)
  }

  /**
   * `handleMouseMove`: nothing is reported while hover is off or has no
   * listener; otherwise the listener receives the name of the last region
   * in list order whose rectangle contains the scaled mouse position, or null.
   */
  method HandleMouseMove(config: InteractionConfig, hasListener: bool, regions: seq<RegionCalculations.RegionMetadata>,
                         canvasWidth: real, canvasHeight: real, rect: ClientRect, clientX: real, clientY: real)
    returns (report: Option<Option<string>>)
    requires rect.width != 0.0 && rect.height != 0.0
    ensures !(config.enableHover && hasListener) ==> report.None?
    ensures config.enableHover && hasListener ==> report.Some?
    ensures report.Some? ==>
      var p := CanvasPoint(clientX, clientY, rect, canvasWidth, canvasHeight);
      (report.value.None? <==> forall k :: 0 <= k < |regions| ==> !HitAt(regions, k, canvasWidth, canvasHeight, p))
      && (report.value.Some? ==>
            exists k :: 0 <= k < |regions| && HitAt(regions, k, canvasWidth, canvasHeight, p)
              && report.value.value == regions[k].def.name
              && forall j :: k < j < |regions| ==> !HitAt(regions, j, canvasWidth, canvasHeight, p))
  {
    if !config.enableHover || !hasListener {
      return None;
    }
    var p := CanvasPoint(clientX, clientY, rect, canvasWidth, canvasHeight);
    var hovered: Option<string> := None;
    ghost var last: nat := 0;
    var i := 0;
    while i < |regions|
      invariant 0 <= i <= |regions|
      invariant hovered.None? <==> forall k :: 0 <= k < i ==> !HitAt(regions, k, canvasWidth, canvasHeight, p)
      invariant hovered.Some? ==>
        last < i && HitAt(regions, last, canvasWidth, canvasHeight, p)
        && hovered.value == regions[last].def.name
        && forall j :: last < j < i ==> !HitAt(regions, j, canvasWidth, canvasHeight, p)
    {
      var d := CalculateRegionDimensions(regions[i].def, canvasWidth, canvasHeight);
      assert HitAt(regions, i, canvasWidth, canvasHeight, p) <==> p.x >= d.x && p.x <= d.x + d.width && p.y >= d.y && p.y <= d.y + d.height;
      if p.x >= d.x && p.x <= d.x + d.width && p.y >= d.y && p.y <= d.y + d.height {
        hovered := Some(regions[i].def.name);
        last := i;
      }
      i := i + 1;
    }
    report := Some(hovered);
  }

  /**
   * `handleClick`: nothing fires while click is off or has no listener;
   * otherwise the listener fires once per containing region, in list order.
   */
  method HandleClick(config: InteractionConfig, hasListener: bool, regions: seq<RegionCalculations.RegionMetadata>,
                     canvasWidth: real, canvasHeight: real, rect: ClientRect, clientX: real, clientY: real)
    returns (fired: seq<string>)
    requires rect.width != 0.0 && rect.height != 0.0
    ensures !(config.enableClick && hasListener) ==> fired == []
    ensures config.enableClick && hasListener ==>
      fired == NamesAt(regions, HitsUpTo(regions, |regions|, canvasWidth, canvasHeight, CanvasPoint(clientX, clientY, rect, canvasWidth, canvasHeight)))
  {
    fired := [];
    if !config.enableClick || !hasListener {
      return;
    }
    var p := CanvasPoint(clientX, clientY, rect, canvasWidth, canvasHeight);
    var i := 0;
    while i < |regions|
      invariant 0 <= i <= |regions|
      invariant fired == NamesAt(regions, HitsUpTo(regions, i, canvasWidth, canvasHeight, p))
    {
      var d := CalculateRegionDimensions(regions[i].def, canvasWidth, canvasHeight);
      if p.x >= d.x && p.x <= d.x + d.width && p.y >= d.y && p.y <= d.y + d.height {
        fired := fired + [regions[i].def.name];
      }
      i := i + 1;
    }
  }

  /** The hovered region is the last of the regions a click would fire for. */
  lemma HoverIsLastClickHit(regions: seq<RegionCalculations.RegionMetadata>, canvasWidth: real, canvasHeight: real, p: Point, k: nat)
    requires k < |regions| && HitAt(regions, k, canvasWidth, canvasHeight, p)
    requires forall j :: k < j < |regions| ==> !HitAt(regions, j, canvasWidth, canvasHeight, p)
    ensures var hits := HitsUpTo(regions, |regions|, canvasWidth, canvasHeight, p);
      |hits| > 0 && hits[|hits| - 1] == k
  {
    var hits := HitsUpTo(regions, |regions|, canvasWidth, canvasHeight, p);
    assert k in hits;
    var i :| 0 <= i < |hits| && hits[i] == k;
    var last := hits[|hits| - 1];
    assert last in hits;
    assert k <= last;
  }
}
