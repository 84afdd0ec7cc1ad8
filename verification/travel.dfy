/**
 * The per-frame travel step of `tick`: the displacement computed from the
 * pointer's magnitude and the clamp that keeps the sphere near the centre.
 */
module Travel {
  import opened Geometry

  /** The smallest step per frame: the scene never stops. */
  const FloorSpeed: real := 0.01
  /** The magnitude of the pointer is divided by this to get the step. */
  const SpeedDivisor: real := 20.0
  /** The sphere's x and y never leave [-MaxMovement, MaxMovement]. */
  const MaxMovement: real := 0.17

  /**
   * `Math.max(magnitude / 20, 0.01)`: the distance everything travels in one
   * frame. It is the least number that is at least both the floor and a
   * twentieth of the magnitude.
   */
  function Displacement(magnitude: real): (d: real)
    ensures d >= FloorSpeed && d >= magnitude / SpeedDivisor
    ensures d == FloorSpeed || d == magnitude / SpeedDivisor
  {
    Max(magnitude / SpeedDivisor, FloorSpeed)
  }

  /**
   * `Math.min(0.17, Math.max(-0.17, v))`: the sphere's offset for one pointer
   * coordinate; inside the band the coordinate passes through, outside it
   * sticks to the nearer edge.
   */
  function Clamp(v: real): (c: real)
    ensures -MaxMovement <= c <= MaxMovement
    ensures -MaxMovement <= v <= MaxMovement ==> c == v
    ensures v > MaxMovement ==> c == MaxMovement
    ensures v < -MaxMovement ==> c == -MaxMovement
  {
    Min(MaxMovement, Max(-MaxMovement, v))
  }

  /** `magnitude` is the Euclidean length of the pointer vector (x, y). */
  predicate IsMagnitude(x: real, y: real, magnitude: real)
  {
    magnitude >= 0.0 && magnitude * magnitude == x * x + y * y
  }

  /** A larger pointer deflection never travels slower. */
  lemma DisplacementMonotone(m1: real, m2: real)
    requires m1 <= m2
    ensures Displacement(m1) <= Displacement(m2)
  {
  }

  /** The step is always positive, so travel is strictly forward. */
  lemma DisplacementPositive(magnitude: real)
    ensures Displacement(magnitude) > 0.0
  {
  }

  /** A non-negative number whose square is 1 is 1. */
  lemma UnitRoot(m: real)
    requires m >= 0.0 && m * m == 1.0
    ensures m == 1.0
  {
    assert (m - 1.0) * (m + 1.0) == 0.0;
    assert m - 1.0 == ((m - 1.0) * (m + 1.0)) / (m + 1.0);
  }

  /**
   * At rest (pointer at the origin) the floor applies: the step is 0.01, not 0;
   * with the pointer at (1, 0) the step is 1/20 = 0.05.
   */
  lemma DisplacementAtRestAndAtUnit(x: real, y: real, magnitude: real)
    requires IsMagnitude(x, y, magnitude)
    ensures x == 0.0 && y == 0.0 ==> Displacement(magnitude) == 0.01
    ensures x == 1.0 && y == 0.0 ==> Displacement(magnitude) == 0.05
  {
    if x == 0.0 && y == 0.0 {
      if magnitude > 0.0 {
        assert magnitude * magnitude > 0.0;
      }
    }
    if x == 1.0 && y == 0.0 {
      UnitRoot(magnitude);
    }
  }

  /**
   * While the pointer stays in normalized device coordinates ([-1, 1] on both
   * axes), its magnitude is below 1.5, so one frame never travels more than
   * 0.075.
   */
  lemma DisplacementBoundedOnScreen(x: real, y: real, magnitude: real)
    requires -1.0 <= x <= 1.0 && -1.0 <= y <= 1.0
    requires IsMagnitude(x, y, magnitude)
    ensures magnitude < 1.5
    ensures Displacement(magnitude) <= 0.075
  {
    assert x * x <= 1.0 by {
      if x >= 0.0 { assert x * x <= 1.0 * x; } else { assert x * x <= (-1.0) * x; }
    }
    assert y * y <= 1.0 by {
      if y >= 0.0 { assert y * y <= 1.0 * y; } else { assert y * y <= (-1.0) * y; }
    }
    assert (magnitude - 1.5) * (magnitude + 1.5) < 0.0;
  }
}
