/** Integer screen rectangles and real-valued node frames. */
module Geometry {

  /** An integer rectangle: origin and size, as passed to the render helper. */
  datatype Rect = Rect(x: int, y: int, width: int, height: int)

  /** A real-valued frame, as the float-coordinate node classes use. */
  datatype Frame = Frame(x: real, y: real, width: real, height: real)

  /** The point lies in the rectangle with all four edges included. */
  predicate WithinInclusive(r: Rect, px: int, py: int)
  {
    r.x <= px <= r.x + r.width && r.y <= py <= r.y + r.height
  }

  /** `outer` covers `inner` entirely. */
  predicate Covers(outer: Rect, inner: Rect)
  {
    outer.x <= inner.x && inner.x + inner.width <= outer.x + outer.width &&
    outer.y <= inner.y && inner.y + inner.height <= outer.y + outer.height
  }
}
