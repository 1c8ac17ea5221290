/** `Alignment`: the float-coordinate twin of `Anchor`, over reals. */
module Alignments {

  datatype Alignment =
    | TopLeft | TopCenter | TopRight
    | CenterLeft | Center | CenterRight
    | BottomLeft | BottomCenter | BottomRight

  predicate InLeftColumn(a: Alignment) { a == TopLeft || a == CenterLeft || a == BottomLeft }
  predicate InMiddleColumn(a: Alignment) { a == TopCenter || a == Center || a == BottomCenter }
  predicate InTopRow(a: Alignment) { a == TopLeft || a == TopCenter || a == TopRight }
  predicate InMiddleRow(a: Alignment) { a == CenterLeft || a == Center || a == CenterRight }

  /** A float screen vector; a fresh one is at (0, 0). */
  datatype ScreenVec = ScreenVec(x: real, y: real)

  /** `getOffset`: the point of a `width` x `height` rectangle that the
      alignment names, relative to its top-left corner. Halving is exact. */
  function GetOffset(a: Alignment, width: real, height: real): (p: ScreenVec)
    ensures p.x == (if InLeftColumn(a) then 0.0 else if InMiddleColumn(a) then width / 2.0 else width)
    ensures p.y == (if InTopRow(a) then 0.0 else if InMiddleRow(a) then height / 2.0 else height)
    ensures width >= 0.0 ==> 0.0 <= p.x <= width
    ensures height >= 0.0 ==> 0.0 <= p.y <= height
    ensures InMiddleColumn(a) ==> width - p.x == p.x
    ensures InMiddleRow(a) ==> height - p.y == p.y
  {
    var x :=
      if a == TopCenter || a == Center || a == BottomCenter then width / 2.0
      else if a == TopRight || a == CenterRight || a == BottomRight then width
      else 0.0;
    var y :=
      if a == CenterLeft || a == Center || a == CenterRight then height / 2.0
      else if a == BottomLeft || a == BottomCenter || a == BottomRight then height
      else 0.0;
    ScreenVec(x, y)
  }
}
