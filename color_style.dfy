/** `ColorStyle`: a style that fills a rectangle with one colour, optionally
    behind a larger bordered rectangle. Its fields are fixed at construction. */
module ColorStyles {
  import opened Options
  import opened Geometry

  /** An RGBA colour; its arithmetic is not part of this model. */
  datatype Color = Color(red: real, green: real, blue: real, alpha: real)

  datatype ColorStyle = ColorStyle(color: Color, borderColor: Option<Color>, borderWidth: int)

  /** The one-argument constructor: no border colour and a border width of 1. */
  function Plain(color: Color): (s: ColorStyle)
    ensures s.color == color && s.borderColor == None && s.borderWidth == 1
  {
    ColorStyle(color, None, 1)
  }

  /** One call to the rectangle-drawing primitive. */
  datatype RectCall = RectCall(rect: Rect, color: Color)

  /** `draw`: the rectangles handed to the render helper, in order. With a
      border colour an enlarged rectangle comes first; every rectangle is
      painted in the fill colour, never in the border colour. */
  function Draw(s: ColorStyle, x: int, y: int, width: int, height: int): (calls: seq<RectCall>)
    ensures |calls| == (if s.borderColor.Some? then 2 else 1)
    ensures calls[|calls| - 1].rect == Rect(x, y, width, height)
    ensures forall i :: 0 <= i < |calls| ==> calls[i].color == s.color
    ensures |calls| == 2 ==>
      var bw := s.borderWidth;
      calls[0].rect == Rect(x - bw, y - bw, width + 2 * bw, height + 2 * bw)
    ensures |calls| == 2 && s.borderWidth >= 0 ==> Covers(calls[0].rect, calls[1].rect)
  {
    var inner := RectCall(Rect(x, y, width, height), s.color);
    if s.borderColor.Some? then
      [RectCall(Rect(x - s.borderWidth, y - s.borderWidth, width + 2 * s.borderWidth, height + 2 * s.borderWidth), s.color), inner]
    else
      [inner]
  }

  /** A negative border width makes the "border" rectangle smaller than the
      fill, so it no longer surrounds it. */
  lemma NegativeBorderDoesNotCover(c: Color, b: Color)
    ensures var calls := Draw(ColorStyle(c, Some(b), -1), 0, 0, 4, 4);
            !Covers(calls[0].rect, calls[1].rect)
  {
  }
}
