/** Axis-aligned integer rectangles with the semantics of android.graphics.Rect. */
module Geometry {

  import opened JavaMath

  /** A rectangle whose left and top edges are inside it and whose right and
      bottom edges are not. */
  datatype Rect = Rect(left: int, top: int, right: int, bottom: int) {

    function Width(): int { right - left }

    function Height(): int { bottom - top }

    predicate IsEmpty() { left >= right || top >= bottom }

    /** The integer point (px, py) lies in the rectangle. */
    predicate Contains(px: int, py: int) {
      left <= px < right && top <= py < bottom
    }
  }

  /** Rect.intersects(a, b): the two rectangles overlap strictly on both axes.
      It does not test for empty rectangles. */
  predicate Intersects(a: Rect, b: Rect) {
    a.left < b.right && b.left < a.right && a.top < b.bottom && b.top < a.bottom
  }

  /** For non-empty rectangles, intersecting means sharing an integer point;
      rectangles that only touch along an edge share none. */
  lemma IntersectsIffCommonPoint(a: Rect, b: Rect)
    requires !a.IsEmpty() && !b.IsEmpty()
    ensures Intersects(a, b) <==> exists px, py :: a.Contains(px, py) && b.Contains(px, py)
  {
    if Intersects(a, b) {
      var px := Max(a.left, b.left);
      var py := Max(a.top, b.top);
      assert a.Contains(px, py) && b.Contains(px, py);
    }
  }

  /** Rectangles that meet only along a vertical or horizontal edge do not intersect. */
  lemma TouchingEdgesDoNotIntersect(a: Rect, b: Rect)
    requires a.right == b.left || a.bottom == b.top
    ensures !Intersects(a, b) && !Intersects(b, a)
  {
  }
}
