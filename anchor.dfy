/** `Anchor`: the integer offset of one of nine anchor points of a
    `width` x `height` rectangle, measured from its top-left corner. */
module Anchors {
  import opened JavaNumerics

  datatype Anchor =
    | TopLeft | TopCenter | TopRight
    | CenterLeft | Center | CenterRight
    | BottomLeft | BottomCenter | BottomRight

  /** The column of the three-by-three grid an anchor sits in. */
  datatype Column = LeftColumn | MiddleColumn | RightColumn
  /** The row of the three-by-three grid an anchor sits in. */
  datatype Row = TopRow | MiddleRow | BottomRow

  function ColumnOf(a: Anchor): Column
  {
    match a
    case TopLeft | CenterLeft | BottomLeft => LeftColumn
    case TopCenter | Center | BottomCenter => MiddleColumn
    case TopRight | CenterRight | BottomRight => RightColumn
  }

  function RowOf(a: Anchor): Row
  {
    match a
    case TopLeft | TopCenter | TopRight => TopRow
    case CenterLeft | Center | CenterRight => MiddleRow
    case BottomLeft | BottomCenter | BottomRight => BottomRow
  }

  /** A screen position; a fresh one is at (0, 0). */
  datatype ScreenPos = ScreenPos(x: int, y: int)

  /** `getOffset`: the x offset is decided by the column alone and the y
      offset by the row alone; halving truncates toward zero, and for
      non-negative sizes the point lies inside the rectangle. */
  function GetOffset(a: Anchor, width: int, height: int): (p: ScreenPos)
    ensures p.x == match ColumnOf(a)
                   case LeftColumn => 0
                   case MiddleColumn => Half(width)
                   case RightColumn => width
    ensures p.y == match RowOf(a)
                   case TopRow => 0
                   case MiddleRow => Half(height)
                   case BottomRow => height
    ensures width >= 0 ==> 0 <= p.x <= width
    ensures height >= 0 ==> 0 <= p.y <= height
    ensures ColumnOf(a) == MiddleColumn && width >= 0 ==> 0 <= width - 2 * p.x <= 1
  {
    var x :=
      if a == TopCenter || a == Center || a == BottomCenter then Half(width)
      else if a == TopRight || a == CenterRight || a == BottomRight then width
      else 0;
    var y :=
      if a == CenterLeft || a == Center || a == CenterRight then Half(height)
      else if a == BottomLeft || a == BottomCenter || a == BottomRight then height
      else 0;
    ScreenPos(x, y)
  }

  /** Two anchors in the same column give the same x offset, whatever their
      rows; two in the same row give the same y offset. */
  lemma OffsetAxesIndependent(a: Anchor, b: Anchor, width: int, height: int)
    ensures ColumnOf(a) == ColumnOf(b) ==> GetOffset(a, width, height).x == GetOffset(b, width, height).x
    ensures RowOf(a) == RowOf(b) ==> GetOffset(a, width, height).y == GetOffset(b, width, height).y
  {
  }

  /** Halving a negative size truncates toward zero, unlike Dafny's `/`. */
  lemma CenterOfNegativeWidth()
    ensures GetOffset(Center, -5, -5) == ScreenPos(-2, -2)
  {
  }
}
