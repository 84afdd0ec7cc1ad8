/**
 * The ring corridor as values: the positions of the decoration rings, read
 * front (nearest) to back (farthest), the layout they are built in and the
 * recycle step `tick` applies to them once per frame.
 */
module Corridor {
  import opened Geometry

  /** The number of decoration rings. */
  const RingCount: nat := 10
  /** The distance between consecutive rings along the travel direction. */
  const RingSpacing: real := 2.0

  /**
   * The rings, read in order, form an arithmetic progression along the travel
   * direction: ring i sits i spacings beyond ring 0, at the same x and y.
   */
  predicate EvenlySpaced(ps: seq<Vec3>)
  {
    forall i :: 0 <= i < |ps| ==>
      ps[i] == Vec3(ps[0].x, ps[0].y, ps[0].z - RingSpacing * i as real)
  }

  /** No two rings share a position. */
  predicate NoDuplicates(ps: seq<Vec3>)
  {
    forall i, j :: 0 <= i < j < |ps| ==> ps[i] != ps[j]
  }

  /**
   * Where the construction loop puts the rings: the first at the travel
   * direction itself, (0, 0, -1), each next one a spacing further on.
   */
  function StartPositions(): (ps: seq<Vec3>)
    ensures |ps| == RingCount
    ensures forall i :: 0 <= i < RingCount ==> ps[i] == Vec3(0.0, 0.0, -1.0 - 2.0 * i as real)
  {
    seq(RingCount, i requires 0 <= i => Vec3(0.0, 0.0, -1.0 - RingSpacing * i as real))
  }

  /**
   * One frame's recycle check against the camera's z. When the lead ring lies
   * behind the camera (its z is greater), it leaves the front and is placed a
   * spacing beyond the last ring; otherwise nothing moves. The source's queue
   * always holds ten rings; the step itself needs two.
   */
  function Recycle(ps: seq<Vec3>, cameraZ: real): (r: seq<Vec3>)
    requires |ps| >= 2
    ensures |r| == |ps|
  {
    if ps[0].z > cameraZ then ps[1..] + [Advance(ps[|ps| - 1], RingSpacing)] else ps
  }

  /** The built layout is an even progression that starts at (0, 0, -1). */
  lemma StartPositionsSpaced()
    ensures EvenlySpaced(StartPositions())
    ensures StartPositions()[0] == Direction
    ensures NoDuplicates(StartPositions())
  {
    SpacedHasNoDuplicates(StartPositions());
  }

  /** Consecutive rings of an even progression are exactly one spacing apart. */
  lemma SpacedConsecutive(ps: seq<Vec3>, i: nat)
    requires EvenlySpaced(ps)
    requires 0 < i < |ps|
    ensures ps[i] == Advance(ps[i - 1], RingSpacing)
  {
    assert ps[i - 1] == Vec3(ps[0].x, ps[0].y, ps[0].z - RingSpacing * (i - 1) as real);
  }

  /** An even progression with a non-zero spacing never repeats a position. */
  lemma SpacedHasNoDuplicates(ps: seq<Vec3>)
    requires EvenlySpaced(ps)
    ensures NoDuplicates(ps)
  {
    forall i, j | 0 <= i < j < |ps| ensures ps[i] != ps[j] {
      assert ps[i].z - ps[j].z == RingSpacing * (j - i) as real;
    }
  }

  /**
   * Recycling keeps the rings an even progression without duplicates; when it
   * fires, the lead advances by one spacing and the new last ring is the
   * farthest of all.
   */
  lemma RecyclePreservesSpacing(ps: seq<Vec3>, cameraZ: real)
    requires |ps| >= 2 && EvenlySpaced(ps)
    ensures EvenlySpaced(Recycle(ps, cameraZ))
    ensures NoDuplicates(Recycle(ps, cameraZ))
    ensures ps[0].z > cameraZ ==> Recycle(ps, cameraZ)[0] == Advance(ps[0], RingSpacing)
    ensures ps[0].z > cameraZ ==>
      forall i :: 0 <= i < |ps| - 1 ==> Recycle(ps, cameraZ)[|ps| - 1].z < Recycle(ps, cameraZ)[i].z
  {
    var r := Recycle(ps, cameraZ);
    if ps[0].z > cameraZ {
      var n := |ps|;
      forall i | 0 <= i < n
        ensures r[i] == Vec3(r[0].x, r[0].y, r[0].z - RingSpacing * i as real)
      {
        assert r[0] == ps[1];
        if i < n - 1 {
          assert r[i] == ps[i + 1];
        } else {
          assert r[i] == Advance(ps[n - 1], RingSpacing);
        }
      }
    }
    SpacedHasNoDuplicates(r);
  }

  /**
   * Why one recycle per frame is enough. Suppose at most the lead ring is
   * behind the camera, by no more than a spacing, and the camera then moves
   * forward (from z `cameraZ` to `movedZ`) by at most one spacing. After the
   * recycle check against the moved camera the same holds again, and every
   * ring but the lead is at or ahead of the camera.
   */
  lemma SingleRecycleSuffices(ps: seq<Vec3>, cameraZ: real, movedZ: real)
    requires |ps| >= 2 && EvenlySpaced(ps)
    requires ps[0].z <= cameraZ + RingSpacing
    requires cameraZ - RingSpacing <= movedZ < cameraZ
    ensures Recycle(ps, movedZ)[0].z <= movedZ + RingSpacing
    ensures forall i :: 1 <= i < |ps| ==> Recycle(ps, movedZ)[i].z <= movedZ
  {
    RecyclePreservesSpacing(ps, movedZ);
    var r := Recycle(ps, movedZ);
    forall i | 1 <= i < |ps| ensures r[i].z <= movedZ {
      assert r[i].z == r[0].z - RingSpacing * i as real;
    }
  }
}
