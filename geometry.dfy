/// Planar vectors and axis-aligned rectangles in world coordinates
/// (x grows to the right, y grows downwards, as on screen).
module Geometry {

  datatype Vec2 = Vec2(x: real, y: real)
  {
    function Plus(other: Vec2): Vec2 {
      Vec2(x + other.x, y + other.y)
    }
  }

  /** A rectangle given by its top-left corner and its size. */
  datatype Rect = Rect(x: real, y: real, w: real, h: real)

  /**
   * Two rectangles overlap when their projections on both axes intersect.
   * Edges are INCLUSIVE: rectangles that only touch along an edge or at a
   * corner still overlap. This is the convention assumed for the graphics
   * library's rectangle test, whose code is not part of this model.
   */
  predicate Overlaps(a: Rect, b: Rect) {
    a.x <= b.x + b.w && a.x + a.w >= b.x &&
    a.y <= b.y + b.h && a.y + a.h >= b.y
  }

  function Min(a: real, b: real): (m: real)
    ensures m <= a && m <= b && (m == a || m == b)
  {
    if a <= b then a else b
  }

  function Max(a: real, b: real): (m: real)
    ensures m >= a && m >= b && (m == a || m == b)
  {
    if a >= b then a else b
  }

  /** v lies between the two bounds, whichever of them is the larger. */
  predicate Between(lo: real, hi: real, v: real) {
    (lo <= v <= hi) || (hi <= v <= lo)
  }
}
