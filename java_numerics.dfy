/** The parts of Java's primitive arithmetic that differ from Dafny's. */
module JavaNumerics {

  /** Java `a / 2` on `int`: the quotient is truncated toward zero, so the
      remainder `a - 2 * r` takes the sign of `a`. */
  function Half(a: int): (r: int)
    ensures -1 <= a - 2 * r <= 1
    ensures a >= 0 ==> a - 2 * r >= 0
    ensures a <= 0 ==> a - 2 * r <= 0
  {
    if a >= 0 then a / 2 else -((-a) / 2)
  }

  /** Java's `(int)` cast of a finite float: truncation toward zero. */
  function Trunc(x: real): (r: int)
    ensures x >= 0.0 ==> r as real <= x < r as real + 1.0
    ensures x <= 0.0 ==> r as real - 1.0 < x <= r as real
  {
    if x >= 0.0 then x.Floor else -((-x).Floor)
  }

  /** `Math.min` on `int`. */
  function Min(a: int, b: int): (r: int)
    ensures r <= a && r <= b && (r == a || r == b)
  {
    if a <= b then a else b
  }

  /** A Java `float` where it matters: a finite value or NaN. Rounding is
      not modelled; infinities only occur inside the slider's drag formula. */
  datatype Float = Num(v: real) | NaN

  /** Java's `(int)` cast of a float: NaN becomes 0. */
  function FloatToInt(f: Float): int
  {
    match f
    case Num(v) => Trunc(v)
    case NaN => 0
  }
}
