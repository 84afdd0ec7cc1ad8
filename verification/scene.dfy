/**
 * The module-level state of the animation script and the handlers that change
 * it: the ring-building loop, `onPointerMove`, `onMouseClick` with
 * `changeTexture`, and the per-frame `tick` (travel step and ring recycle).
 * Each handler is specified by the value-level functions of Travel, Corridor,
 * Pointer and Themes.
 */
module Scene {
  import opened Geometry
  import opened Wrappers
  import Travel
  import Corridor
  import Pointer
  import Themes

  /** Where the camera starts; the cube, sphere and particles start at the origin. */
  const CameraStart: Vec3 := Vec3(0.0, 0.0, 3.0)
  /** How far the camera stays behind the cube, sphere and particles along z. */
  const CameraDistance: real := 3.0

  /** The visual state before the first click. */
  const InitialVisual: Themes.Visual := Themes.Visual(
    Themes.VideoTexture("videoElement"), None, true, "yellow", None, "#000000", "green", false)

  /**
   * A decoration ring: a group of sixteen small boxes. Only the group's
   * position is modelled; the boxes never move within it.
   */
  class Ring {
    var position: Vec3

    constructor (p: Vec3)
      ensures position == p
    {
      position := p;
    }
  }

  predicate Distinct(rs: seq<Ring>)
  {
    forall i, j :: 0 <= i < j < |rs| ==> rs[i] != rs[j]
  }

  /** The positions of the rings, in queue order. */
  ghost function PositionsOf(rs: seq<Ring>): (ps: seq<Vec3>)
    reads rs
    ensures |ps| == |rs|
    ensures forall i :: 0 <= i < |rs| ==> ps[i] == rs[i].position
  {
    seq(|rs|, i requires 0 <= i < |rs| reads rs => rs[i].position)
  }

  /**
   * The ring-building loop: ten new rings, the first at the travel direction
   * and each next one a spacing further along it.
   */
  method BuildRings() returns (rings: seq<Ring>)
    ensures Distinct(rings)
    ensures PositionsOf(rings) == Corridor.StartPositions()
    ensures forall r :: r in rings ==> fresh(r)
  {
    var lastRingPosition := Direction;
    rings := [];
    for i := 0 to Corridor.RingCount
      invariant |rings| == i
      invariant lastRingPosition == Vec3(0.0, 0.0, -1.0 - Corridor.RingSpacing * i as real)
      invariant forall k :: 0 <= k < i ==> rings[k].position == Corridor.StartPositions()[k]
      invariant Distinct(rings)
      invariant forall r :: r in rings ==> fresh(r)
    {
      var ring := new Ring(lastRingPosition);
      lastRingPosition := AddScaled(lastRingPosition, Direction, Corridor.RingSpacing);
      rings := rings + [ring];
    }
  }

  class Scene {
    // The latest pointer, in normalized device coordinates.
    var pointerX: real
    var pointerY: real
    // Positions of the camera, the cube, the sphere and the particle field.
    var camera: Vec3
    var mesh: Vec3
    var sphere: Vec3
    var particles: Vec3
    // The decoration rings, nearest first.
    var rings: seq<Ring>
    // The theme switcher: the next palette index and the state it writes.
    var currentTextureIndex: int
    var colorMap: Themes.Texture
    var alphaMap: Option<Themes.Texture>
    var sphereVisible: bool
    var sphereColor: Themes.Color
    var background: Option<Themes.Color>
    var fogColor: Themes.Color
    var shapeColor: Themes.Color
    var bananasVisible: bool

    ghost function RingPositions(): seq<Vec3>
      reads this, rings
    {
      PositionsOf(rings)
    }

    function Visual(): Themes.Visual
      reads this
    {
      Themes.Visual(colorMap, alphaMap, sphereVisible, sphereColor, background, fogColor,
                    shapeColor, bananasVisible)
    }

    function ThemeState(): Themes.ThemeState
      reads this
    {
      Themes.ThemeState(currentTextureIndex, Visual())
    }

    /**
     * The scene invariant: ten distinct rings evenly spaced along the travel
     * direction; the cube, sphere and particles at a fixed distance ahead of
     * the camera; a palette index in range.
     */
    ghost predicate Valid()
      reads this, rings
    {
      |rings| == Corridor.RingCount && Distinct(rings) &&
      Corridor.EvenlySpaced(RingPositions()) &&
      mesh.z == camera.z - CameraDistance && sphere.z == mesh.z && particles.z == mesh.z &&
      0 <= currentTextureIndex < |Themes.Palette|
    }

    /** At most the lead ring is behind the camera, and by no more than a spacing. */
    ghost predicate LeadWithinOneSpacing()
      reads this, rings
      requires |rings| > 0
    {
      rings[0].position.z <= camera.z + Corridor.RingSpacing
    }

    constructor ()
      ensures Valid() && LeadWithinOneSpacing()
      ensures pointerX == 0.0 && pointerY == 1.0
      ensures camera == CameraStart
      ensures mesh == sphere == particles == Vec3(0.0, 0.0, 0.0)
      ensures RingPositions() == Corridor.StartPositions()
      ensures forall r :: r in rings ==> fresh(r)
      ensures ThemeState() == Themes.ThemeState(0, InitialVisual)
    {
      var built := BuildRings();
      pointerX, pointerY := 0.0, 1.0;
      camera := CameraStart;
      mesh, sphere, particles := Vec3(0.0, 0.0, 0.0), Vec3(0.0, 0.0, 0.0), Vec3(0.0, 0.0, 0.0);
      rings := built;
      currentTextureIndex := 0;
      colorMap, alphaMap := InitialVisual.colorMap, InitialVisual.alphaMap;
      sphereVisible, sphereColor := InitialVisual.sphereVisible, InitialVisual.sphereColor;
      background, fogColor := InitialVisual.background, InitialVisual.fogColor;
      shapeColor, bananasVisible := InitialVisual.shapeColor, InitialVisual.bananasVisible;
      new;
      Corridor.StartPositionsSpaced();
    }

    /**
     * `onPointerMove`: a mouse event or the first touch point overwrites the
     * pointer with its normalized coordinates. A touch event without touch
     * points throws before writing, so the pointer stays as it was.
     */
    method OnPointerMove(e: Pointer.PointerEvent, width: real, height: real)
      requires width > 0.0 && height > 0.0
      modifies this`pointerX, this`pointerY
      ensures Pointer.ClientPoint(e).Some? ==>
        Pointer.Point(pointerX, pointerY) == Pointer.Normalize(Pointer.ClientPoint(e).value, width, height)
      ensures Pointer.ClientPoint(e).None? ==> pointerX == old(pointerX) && pointerY == old(pointerY)
    {
      match e
      case MouseMove(clientX, clientY) =>
        var p := Pointer.Normalize(Pointer.Point(clientX, clientY), width, height);
        pointerX, pointerY := p.x, p.y;
      case TouchMove(touches) =>
        if |touches| > 0 {
          var touch := touches[0];
          var p := Pointer.Normalize(Pointer.Point(touch.clientX, touch.clientY), width, height);
          pointerX, pointerY := p.x, p.y;
        }
    }

    /** `changeTexture`: rewrites the cube's maps and the sphere from one entry. */
    method ChangeTexture(texture: Themes.ThemeEntry)
      requires Themes.WellFormed(texture)
      modifies this`colorMap, this`alphaMap, this`sphereVisible, this`sphereColor
      ensures Visual() == Themes.ChangeTexture(old(Visual()), texture)
    {
      alphaMap := None;
      sphereVisible := false;
      if texture.kind.Image? {
        colorMap := Themes.ImageTexture(texture.path);
        if Themes.HasAlpha(texture) {
          alphaMap := Some(Themes.ImageTexture(texture.alphaPath.value));
          sphereVisible := true;
          sphereColor := texture.sphereColor.value;
        }
      } else if texture.kind.Video? {
        colorMap := Themes.VideoTexture(texture.path);
      }
    }

    /**
     * `onMouseClick`: read the palette entry at the current index, advance
     * the index, then apply the entry; nothing but the theme state changes.
     */
    method OnMouseClick()
      requires Valid()
      modifies this`currentTextureIndex, this`colorMap, this`alphaMap, this`sphereVisible
      modifies this`sphereColor, this`background, this`fogColor, this`shapeColor
      modifies this`bananasVisible
      ensures Valid()
      ensures Themes.ValidPalette(Themes.Palette) &&
        ThemeState() == Themes.Click(Themes.Palette, old(ThemeState()))
    {
      Themes.PaletteFacts();
      var texture := Themes.Palette[currentTextureIndex];
      currentTextureIndex := (currentTextureIndex + 1) % |Themes.Palette|;
      ChangeTexture(texture);
      background := Some(texture.backgroundColor);
      fogColor := texture.fogColor;
      shapeColor := texture.shapeColor;
      bananasVisible := texture.showBananas;
    }

    /**
     * The recycle step of `tick`: when the lead ring is behind the camera it
     * moves to the back of the queue, one spacing beyond the old last ring.
     * Only that one ring object is written.
     */
    method RecycleLeadRing()
      requires Valid()
      modifies this`rings, rings[0]
      ensures Valid()
      ensures RingPositions() == Corridor.Recycle(old(RingPositions()), camera.z)
      ensures rings == if old(rings[0].position.z) > camera.z then old(rings[1..]) + [old(rings[0])]
                       else old(rings)
      ensures multiset(rings) == multiset(old(rings))
    {
      ghost var before := RingPositions();
      if rings[0].position.z > camera.z {
        var removedRing := rings[0];
        rings := rings[1..];
        var lastRing := rings[|rings| - 1];
        rings := rings + [removedRing];
        removedRing.position := AddScaled(lastRing.position, Direction, Corridor.RingSpacing);
        assert rings == old(rings[1..]) + [old(rings[0])];
        assert multiset(old(rings)) == multiset(old(rings[1..]) + [old(rings[0])]) by {
          assert old(rings) == [old(rings[0])] + old(rings[1..]);
        }
        forall i | 0 <= i < |rings| - 1
          ensures rings[i].position == before[i + 1]
        {
          assert rings[i] == old(rings[i + 1]);
        }
        assert RingPositions() == Corridor.Recycle(before, camera.z);
      }
      Corridor.RecyclePreservesSpacing(before, camera.z);
    }

    /**
     * The movement half of `tick`: put the sphere at the given pointer offset
     * and advance camera, cube, sphere and particles by `step` along the
     * travel direction. The rings are not touched.
     */
    method MoveBodies(step: real, offsetX: real, offsetY: real)
      requires Valid()
      modifies this`camera, this`mesh, this`sphere, this`particles
      ensures Valid()
      ensures camera == Advance(old(camera), step) && mesh == Advance(old(mesh), step)
      ensures particles == Advance(old(particles), step)
      ensures sphere == Advance(Vec3(offsetX, offsetY, old(sphere.z)), step)
    {
      sphere := sphere.(x := offsetX, y := offsetY);
      sphere := AddScaled(sphere, Direction, step);
      mesh := AddScaled(mesh, Direction, step);
      camera := AddScaled(camera, Direction, step);
      particles := AddScaled(particles, Direction, step);
    }

    /**
     * One frame of `tick`: compute the step from the pointer's magnitude, put
     * the sphere at the clamped pointer, advance camera, cube, sphere and
     * particles by the step along the travel direction, then run the recycle
     * check against the moved camera. If at most the lead ring was behind the
     * camera and the step is at most a spacing, that remains so.
     */
    method Tick(magnitude: real)
      requires Valid() && Travel.IsMagnitude(pointerX, pointerY, magnitude)
      modifies this`camera, this`mesh, this`sphere, this`particles, this`rings, rings[0]
      ensures Valid()
      ensures camera == Advance(old(camera), Travel.Displacement(magnitude))
      ensures mesh == Advance(old(mesh), Travel.Displacement(magnitude))
      ensures particles == Advance(old(particles), Travel.Displacement(magnitude))
      ensures sphere == Advance(Vec3(Travel.Clamp(pointerX), Travel.Clamp(pointerY), old(sphere.z)),
                                Travel.Displacement(magnitude))
      ensures camera.z < old(camera.z)
      ensures RingPositions() == Corridor.Recycle(old(RingPositions()), camera.z)
      ensures rings == if old(rings[0].position.z) > camera.z then old(rings[1..]) + [old(rings[0])]
                       else old(rings)
      ensures multiset(rings) == multiset(old(rings))
      ensures old(LeadWithinOneSpacing()) && Travel.Displacement(magnitude) <= Corridor.RingSpacing ==>
        LeadWithinOneSpacing()
    {
      var displacement := Travel.Displacement(magnitude);
      ghost var before := RingPositions();
      ghost var lead := LeadWithinOneSpacing();
      ghost var startZ := camera.z;
      MoveBodies(displacement, Travel.Clamp(pointerX), Travel.Clamp(pointerY));
      assert RingPositions() == before;
      RecycleLeadRing();
      if lead && displacement <= Corridor.RingSpacing {
        Corridor.SingleRecycleSuffices(before, startZ, camera.z);
      }
    }
  }
}
