/**
 * The rectangle every game object occupies and the overlap test shared by
 * all pairwise checks of the game (GameObject.collidesWith).
 */
module Geometry {

  /** An axis-aligned rectangle: (x, y) is the top-left corner, y grows downwards. */
  datatype Rect = Rect(x: real, y: real, width: real, height: real)

  /** The source's overlap test, strict on every side. */
  predicate CollidesWith(a: Rect, b: Rect)
  {
    && a.x < b.x + b.width
    && a.x + a.width > b.x
    && a.y < b.y + b.height
    && a.y + a.height > b.y
  }

  /** The point (px, py) lies strictly inside r. */
  predicate Inside(r: Rect, px: real, py: real)
  {
    r.x < px < r.x + r.width && r.y < py < r.y + r.height
  }

  predicate HasArea(r: Rect)
  {
    r.width > 0.0 && r.height > 0.0
  }

  function Max(a: real, b: real): real { if a < b then b else a }
  function Min(a: real, b: real): real { if a < b then a else b }

  /**
   * For rectangles with area, the test holds exactly when some point lies
   * strictly inside both rectangles, i.e. the open rectangles overlap on
   * both axes.
   */
  lemma CollidesIffCommonPoint(a: Rect, b: Rect)
    requires HasArea(a) && HasArea(b)
    ensures CollidesWith(a, b) <==> exists px, py :: Inside(a, px, py) && Inside(b, px, py)
  {
    if CollidesWith(a, b) {
      var px := (Max(a.x, b.x) + Min(a.x + a.width, b.x + b.width)) / 2.0;
      var py := (Max(a.y, b.y) + Min(a.y + a.height, b.y + b.height)) / 2.0;
      assert Inside(a, px, py) && Inside(b, px, py);
    }
  }

  /** Overlap does not depend on which object asks. */
  lemma CollidesSymmetric(a: Rect, b: Rect)
    ensures CollidesWith(a, b) == CollidesWith(b, a)
  {
  }

  /** Every rectangle with area overlaps itself. */
  lemma CollidesReflexive(a: Rect)
    requires HasArea(a)
    ensures CollidesWith(a, a)
  {
  }
}
