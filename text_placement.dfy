/** Shared label placement: orientation, font size, outline and text extent. */
module TextPlacement {
  import opened Wrappers
  import opened BaseCanvas

  /** The same orientation rule as the warehouse canvas: below 0.8 vertical, above 1.2 horizontal. */
  function CalculateTextLayout(width: real, height: real): (l: TextLayout)
    ensures l == BaseCanvas.CalculateTextLayout(width, height)
  {
    if height == 0.0 then
      (if width > 0.0 then Horizontal else if width < 0.0 then Vertical else Square)
    else if width / height < 0.8 then Vertical
    else if width / height > 1.2 then Horizontal
    else Square
  }

  /**
   * `drawText` at `(x, y)` in a box of `width` by `height`: the font is a
   * fifth of the shorter side but at most 14, the outline a sixth of the
   * font, and vertical text is drawn at the origin after moving it to
   * `(x, y)`.
   */
  function DrawText(width: real, height: real, x: real, y: real): (t: TextDraw)
    ensures t.layout == CalculateTextLayout(width, height)
    ensures t.fontSize <= 14.0
    ensures t.fontSize * 5.0 <= width && t.fontSize * 5.0 <= height
    ensures t.fontSize == 14.0 || t.fontSize * 5.0 == width || t.fontSize * 5.0 == height
    ensures t.outlineWidth * 6.0 == t.fontSize
    ensures t.layout == Vertical ==> t.translate == Some(Point(x, y)) && t.at == Point(0.0, 0.0)
    ensures t.layout != Vertical ==> t.translate.None? && t.at == Point(x, y)
  {
    var layout := CalculateTextLayout(width, height);
    var fontSize := Min(Min(width, height) / 5.0, 14.0);
    if layout == Vertical then TextDraw(layout, fontSize, fontSize / 6.0, Some(Point(x, y)), Point(0.0, 0.0))
    else TextDraw(layout, fontSize, fontSize / 6.0, None, Point(x, y))
  }

  datatype TextExtent = TextExtent(width: real, height: real)

  /** `measureText`: the measured width (a canvas query, given here) and the font size as height. */
  function MeasureText(text: string, fontSize: real, measuredWidth: real): (e: TextExtent)
    ensures e.height == fontSize && e.width == measuredWidth
  {
    TextExtent(measuredWidth, fontSize)
  }

  /** A label drawn in a box is reported as tall as its font, hence at most 14. */
  lemma MeasuredHeightOfDrawnText(text: string, width: real, height: real, x: real, y: real, measuredWidth: real)
    ensures MeasureText(text, DrawText(width, height, x, y).fontSize, measuredWidth).height <= 14.0
  {
  }
}
