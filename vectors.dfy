/**
 * One row of the N x 3 numpy arrays the pipeline passes around.  The
 * float64 coordinates are modelled as exact reals, the int32 grid as
 * unbounded integers.  Most numpy operations of the pipeline work on the
 * three columns independently, so each row offers access by axis; the
 * row norm behind `max_dist` combines them through `SqNorm`.
 */
module Vectors {

  datatype Axis = X | Y | Z

  /** A vertex position (or a normalised / dequantised one). */
  datatype Vec3 = Vec3(x: real, y: real, z: real) {
    function At(a: Axis): real {
      match a
      case X => x
      case Y => y
      case Z => z
    }
  }

  /** A vertex of the quantised integer grid. */
  datatype Cell = Cell(x: int, y: int, z: int) {
    function At(a: Axis): int {
      match a
      case X => x
      case Y => y
      case Z => z
    }
  }

  const Origin := Vec3(0.0, 0.0, 0.0)

  function Sub(u: Vec3, v: Vec3): Vec3 {
    Vec3(u.x - v.x, u.y - v.y, u.z - v.z)
  }

  function SqNorm(v: Vec3): real {
    v.x * v.x + v.y * v.y + v.z * v.z
  }

  function Abs(r: real): real {
    if r < 0.0 then -r else r
  }

  /** The column of axis `a` never leaves the square of the Euclidean norm. */
  lemma SquareBelowSqNorm(v: Vec3, a: Axis)
    ensures v.At(a) * v.At(a) <= SqNorm(v)
  {
  }

  /** A real whose square is at most 1 lies in [-1, 1]. */
  lemma SquareAtMostOne(r: real)
    requires r * r <= 1.0
    ensures -1.0 <= r <= 1.0
  {
  }
}
