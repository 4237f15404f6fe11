/**
 * The zero-size rectangle that the tooltip is anchored against; the
 * positioning engine reads it through `getBoundingClientRect`.
 */
module Anchor {

  /** A bounding client rectangle, in viewport pixels. */
  datatype Rect = Rect(width: real, height: real, top: real, right: real, bottom: real, left: real)

  /** The coordinates used when no point is given: far off-screen. */
  const OffScreen: real := -50.0

  /** How far above the pointer the anchor sits. */
  const PointerLift: real := 20.0

  /** `r` is the degenerate rectangle that is just the point (x, y). */
  predicate IsPointAt(r: Rect, x: real, y: real) {
    r.width == 0.0 && r.height == 0.0 && r.top == y && r.bottom == y && r.left == x && r.right == x
  }

  /** The rectangle built for point (x, y). */
  function BoundingRect(x: real, y: real): (r: Rect)
    ensures IsPointAt(r, x, y)
  {
    Rect(0.0, 0.0, y, x, y, x)
  }

  /** Being the point (x, y) determines a rectangle completely. */
  lemma PointDeterminesRect(r: Rect, r': Rect, x: real, y: real)
    requires IsPointAt(r, x, y) && IsPointAt(r', x, y)
    ensures r == r'
  {
  }

  /** The rectangle built with the default arguments, used before any move and on exit. */
  function DefaultAnchor(): (r: Rect)
    ensures IsPointAt(r, -50.0, -50.0)
  {
    BoundingRect(OffScreen, OffScreen)
  }

  /** The rectangle built for a mouse move at client coordinates (clientX, clientY). */
  function PointerAnchor(clientX: real, clientY: real): (r: Rect)
    ensures IsPointAt(r, clientX, clientY - 20.0)
    ensures r.bottom < clientY
  {
    BoundingRect(clientX, clientY - PointerLift)
  }
}
