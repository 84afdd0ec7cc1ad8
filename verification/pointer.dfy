/**
 * Pointer normalisation of `onPointerMove`: a mouse position or the first
 * touch point, in window pixels, mapped to normalized device coordinates
 * (x to the right, y upwards, both in [-1, 1] over the window).
 */
module Pointer {
  import opened Wrappers

  datatype Point = Point(x: real, y: real)

  datatype Touch = Touch(clientX: real, clientY: real)

  /** The two event kinds the handler is registered for. */
  datatype PointerEvent =
    | MouseMove(clientX: real, clientY: real)
    | TouchMove(touches: seq<Touch>)

  /**
   * The client position the handler reads: the mouse position, or the first
   * touch point. A touch event with no touch point makes `event.touches[0]`
   * undefined and the handler throws before writing the pointer: None.
   */
  function ClientPoint(e: PointerEvent): (p: Option<Point>)
    ensures e.MouseMove? ==> p == Some(Point(e.clientX, e.clientY))
    ensures e.TouchMove? ==> (p.Some? <==> |e.touches| > 0)
    ensures e.TouchMove? && |e.touches| > 0 ==>
      p == Some(Point(e.touches[0].clientX, e.touches[0].clientY))
  {
    match e
    case MouseMove(cx, cy) => Some(Point(cx, cy))
    case TouchMove(ts) =>
      if |ts| > 0 then Some(Point(ts[0].clientX, ts[0].clientY)) else None
  }

  /**
   * x = 2 * clientX / width - 1 and y = -2 * clientY / height + 1. A client
   * position lies inside the window exactly when its image lies in [-1, 1] on
   * both axes; the left edge maps to -1 and the top edge to +1.
   */
  function Normalize(client: Point, width: real, height: real): (p: Point)
    requires width > 0.0 && height > 0.0
    ensures 0.0 <= client.x <= width <==> -1.0 <= p.x <= 1.0
    ensures 0.0 <= client.y <= height <==> -1.0 <= p.y <= 1.0
    ensures client.x == 0.0 ==> p.x == -1.0
    ensures client.x == width ==> p.x == 1.0
    ensures client.y == 0.0 ==> p.y == 1.0
    ensures client.y == height ==> p.y == -1.0
  {
    Point((client.x / width) * 2.0 - 1.0, -(client.y / height) * 2.0 + 1.0)
  }

  /** The inverse map, from normalized device coordinates back to pixels. */
  function Denormalize(p: Point, width: real, height: real): (client: Point)
    requires width > 0.0 && height > 0.0
  {
    Point((p.x + 1.0) * width / 2.0, (1.0 - p.y) * height / 2.0)
  }

  /** Normalisation loses nothing: each map undoes the other. */
  lemma NormalizeRoundTrip(client: Point, p: Point, width: real, height: real)
    requires width > 0.0 && height > 0.0
    ensures Denormalize(Normalize(client, width, height), width, height) == client
    ensures Normalize(Denormalize(p, width, height), width, height) == p
  {
    var n := Normalize(client, width, height);
    assert (n.x + 1.0) * width / 2.0 == (client.x / width) * width;
    assert (1.0 - n.y) * height / 2.0 == (client.y / height) * height;
    var c := Denormalize(p, width, height);
    var a, b := (p.x + 1.0) / 2.0, (1.0 - p.y) / 2.0;
    assert c.x == a * width && c.y == b * height;
    assert (a * width) / width == a && (b * height) / height == b;
  }

  /**
   * A mouse event and a touch event whose first touch is at the same client
   * position yield the same pointer.
   */
  lemma MouseAndTouchAgree(cx: real, cy: real, rest: seq<Touch>)
    ensures ClientPoint(MouseMove(cx, cy)) == ClientPoint(TouchMove([Touch(cx, cy)] + rest))
  {
  }
}
