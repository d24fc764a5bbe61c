/** Rectangle and label helpers of the warehouse visualisations. */
module WarehouseUtils {
  import opened Types
  import opened BaseCanvas

  /** The standard pixel formula. */
  function CalculateRegionDimensions(region: RegionDefinition, canvasWidth: real, canvasHeight: real): (d: RegionDimensions)
    ensures d == PixelRect(region, canvasWidth, canvasHeight)
  {
    RegionDimensions(
      region.topLeftX * canvasWidth,
      region.topLeftY * canvasHeight,
      (region.bottomRightX - region.topLeftX) * canvasWidth,
      (region.bottomRightY - region.topLeftY) * canvasHeight)
  }

  datatype Align = Center
  datatype Baseline = Middle

  /** What `renderRegionText` sets: font size, fill colour, alignment and the drawing point. */
  datatype LabelDraw = LabelDraw(fontSize: real, fill: string, align: Align, baseline: Baseline, at: Point)

  /** A centred black label whose font is a fifth of the shorter side. */
  function RenderRegionText(text: string, d: RegionDimensions): (l: LabelDraw)
    ensures l.fontSize * 5.0 <= d.width && l.fontSize * 5.0 <= d.height
    ensures l.fontSize * 5.0 == d.width || l.fontSize * 5.0 == d.height
    ensures l.fill == "#000" && l.align == Center && l.baseline == Middle
    ensures l.at.x - d.x == d.x + d.width - l.at.x
    ensures l.at.y - d.y == d.y + d.height - l.at.y
  {
    LabelDraw(Min(d.width, d.height) * 0.2, "#000", Center, Middle, Point(d.x + d.width / 2.0, d.y + d.height / 2.0))
  }
}
