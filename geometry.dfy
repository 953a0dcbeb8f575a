/** Two-dimensional vectors and the scalar helpers the engine uses (Vec2, MathUtils). */
module Geometry {

  /** A 2D vector of unbounded reals; the source's floating point is not modelled. */
  datatype Vec2 = Vec2(x: real, y: real) {

    /** Component-wise sum, as `Vec2.add` on a copy. */
    function Plus(v: Vec2): Vec2 {
      Vec2(x + v.x, y + v.y)
    }

    /** A new vector scaled by `k`, as `Vec2.scaled`. */
    function Scaled(k: real): Vec2 {
      Vec2(x * k, y * k)
    }
  }

  const ZERO: Vec2 := Vec2(0.0, 0.0)

  function Abs(r: real): (a: real)
    ensures a >= 0.0 && (a == r || a == -r)
  {
    if r < 0.0 then -r else r
  }

  /** `MathUtils.clamp(x, min, max)`: below `min` gives `min`, above `max` gives `max`. */
  function Clamp(x: int, lo: int, hi: int): (r: int)
    ensures lo <= hi ==> lo <= r <= hi
    ensures lo <= x <= hi ==> r == x
    ensures lo <= hi && x > hi ==> r == hi
  {
    if x < lo then lo else if x > hi then hi else x
  }
}
