/** Three-vectors, 3x3 matrices and the floating-point collaborators of the
    simulation. Coordinates are exact reals; the operations that need
    cos, sin, sqrt or exp are not computed here but handed in as a
    `Numerics` value. */
module Vectors {

  /** An optional argument of the source (`None` when the caller omits it). */
  datatype Option<T> = None | Some(value: T) {
    function GetOr(default: T): T {
      if Some? then value else default
    }
  }

  datatype Vec3 = Vec3(x: real, y: real, z: real)

  /** The zero vector, and the x and z unit axes of the world frame. */
  const Null := Vec3(0.0, 0.0, 0.0)
  const Ex := Vec3(1.0, 0.0, 0.0)
  const Ez := Vec3(0.0, 0.0, 1.0)

  function Neg(v: Vec3): Vec3 {
    Vec3(-v.x, -v.y, -v.z)
  }

  function Sub(u: Vec3, v: Vec3): Vec3 {
    Vec3(u.x - v.x, u.y - v.y, u.z - v.z)
  }

  function Dot(u: Vec3, v: Vec3): real {
    u.x * v.x + u.y * v.y + u.z * v.z
  }

  function Cross(u: Vec3, v: Vec3): Vec3 {
    Vec3(u.y * v.z - u.z * v.y, u.z * v.x - u.x * v.z, u.x * v.y - u.y * v.x)
  }

  /** Squared Euclidean length; a bound `|v| < c` on a length is `NormSq(v) < c * c`. */
  function NormSq(v: Vec3): real {
    Dot(v, v)
  }

  function DistSq(u: Vec3, v: Vec3): real {
    NormSq(Sub(u, v))
  }

  /** A 3x3 matrix given by its rows. */
  datatype Mat3 = Mat3(r0: Vec3, r1: Vec3, r2: Vec3)

  function MatVec(m: Mat3, v: Vec3): Vec3 {
    Vec3(Dot(m.r0, v), Dot(m.r1, v), Dot(m.r2, v))
  }

  /** The floating-point functions the store and the remodeling engine call:
      `rotMat` is the axis-angle rotation matrix (Rodrigues' formula with cos
      and sin), `unit` normalises a vector (zero stays zero), `norm` is the
      Euclidean length (sqrt) and `exp` the exponential. */
  datatype Numerics = Numerics(
    rotMat: Vec3 -> Mat3,
    unit: Vec3 -> Vec3,
    norm: Vec3 -> real,
    exp: real -> real)
}
