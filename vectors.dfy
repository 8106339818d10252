/** Two-dimensional vectors as used by the flocking sketch (p5.Vector).
    Coordinates are real numbers; the operations that need a square root
    (normalize, limit, magnitude) are not definable exactly over the reals
    and are supplied by the caller as a `VectorOps` value. */
module Vectors {

  datatype Vec = Vec(x: real, y: real)

  const Zero: Vec := Vec(0.0, 0.0)

  function Add(a: Vec, b: Vec): Vec {
    Vec(a.x + b.x, a.y + b.y)
  }

  /** p5.Vector.sub(a, b): a new vector a - b. */
  function Sub(a: Vec, b: Vec): Vec {
    Vec(a.x - b.x, a.y - b.y)
  }

  function Scale(a: Vec, k: real): Vec {
    Vec(a.x * k, a.y * k)
  }

  function Div(a: Vec, k: real): Vec
    requires k != 0.0
  {
    Vec(a.x / k, a.y / k)
  }

  /** The square of the Euclidean distance; `dist(a, b) < r` with r >= 0 is
      `DistSq(a, b) < r * r`, and `dist(a, b) > 0` is `DistSq(a, b) > 0`. */
  function DistSq(a: Vec, b: Vec): real {
    (a.x - b.x) * (a.x - b.x) + (a.y - b.y) * (a.y - b.y)
  }

  /** The library operations of p5.Vector that involve a square root. */
  datatype VectorOps = VectorOps(
    normalize: Vec -> Vec,       // v.normalize()
    limit: (Vec, real) -> Vec,   // v.limit(max)
    mag: Vec -> real             // v.mag()
  )
}
