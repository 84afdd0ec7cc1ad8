/**
 * Positions in the scene as exact 3-vectors, and the one vector operation the
 * animation uses: `addScaledVector` along the fixed travel direction.
 */
module Geometry {

  datatype Vec3 = Vec3(x: real, y: real, z: real)

  /** The fixed travel direction (0, 0, -1); it never changes during a session. */
  const Direction: Vec3 := Vec3(0.0, 0.0, -1.0)

  /** JavaScript's `Math.max` on two (non-NaN) numbers. */
  function Max(a: real, b: real): (m: real)
    ensures m >= a && m >= b
    ensures m == a || m == b
  {
    if a >= b then a else b
  }

  /** JavaScript's `Math.min` on two (non-NaN) numbers. */
  function Min(a: real, b: real): (m: real)
    ensures m <= a && m <= b
    ensures m == a || m == b
  {
    if a <= b then a else b
  }

  /** `p.addScaledVector(v, s)`: p + s * v, componentwise. */
  function AddScaled(p: Vec3, v: Vec3, s: real): Vec3
  {
    Vec3(p.x + s * v.x, p.y + s * v.y, p.z + s * v.z)
  }

  /**
   * Moving a position `s` units along the travel direction keeps x and y and
   * lowers z by exactly `s`.
   */
  function Advance(p: Vec3, s: real): (q: Vec3)
    ensures q.x == p.x && q.y == p.y
    ensures q.z == p.z - s
  {
    AddScaled(p, Direction, s)
  }
}
