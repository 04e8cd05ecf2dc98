/**
 * Screen geometry of the auto clicker: 32-bit signed coordinates, points,
 * and an axis-aligned rectangle given by two arbitrary opposite corners.
 */
module Geometry {

  /** A signed 32-bit integer; comparisons on it never overflow. */
  type i32 = x: int | -0x8000_0000 <= x < 0x8000_0000

  /** A pointer position in screen coordinates, (x, y). */
  type Point = (i32, i32)

  /** v lies between a and b on one axis, whichever of the two is smaller. */
  predicate Between(a: int, v: int, b: int)
  {
    a <= v <= b || b <= v <= a
  }

  function Min(a: int, b: int): int { if a < b then a else b }

  function Max(a: int, b: int): int { if a < b then b else a }

  /**
   * A rectangle spanned by the corners (x1, y1) and (x2, y2). No order is
   * imposed between the corners: either may be the top-left one.
   */
  datatype Rect = Rect(x1: i32, y1: i32, x2: i32, y2: i32)
  {
    /**
     * Whether p lies in the closed rectangle. Each axis is normalised to a
     * (min, max) pair first, so the corner order does not matter.
     */
    function Contains(p: Point): (inside: bool)
      ensures inside <==> Between(x1, p.0, x2) && Between(y1, p.1, y2)
    {
      var (minX, maxX) := if x1 < x2 then (x1, x2) else (x2, x1);
      var (minY, maxY) := if y1 < y2 then (y1, y2) else (y2, y1);
      p.0 >= minX && p.0 <= maxX && p.1 >= minY && p.1 <= maxY
    }
  }

  /** Swapping the two x coordinates describes the same rectangle. */
  lemma ContainsSwapX(r: Rect, p: Point)
    ensures Rect(r.x2, r.y1, r.x1, r.y2).Contains(p) == r.Contains(p)
  {
  }

  /** Swapping the two y coordinates describes the same rectangle. */
  lemma ContainsSwapY(r: Rect, p: Point)
    ensures Rect(r.x1, r.y2, r.x2, r.y1).Contains(p) == r.Contains(p)
  {
  }

  /**
   * A point is inside exactly when each coordinate lies within the
   * normalised bounds of its axis, bounds included.
   */
  lemma ContainsWithinBounds(r: Rect, x: i32, y: i32)
    ensures r.Contains((x, y)) <==>
              Min(r.x1, r.x2) <= x <= Max(r.x1, r.x2) &&
              Min(r.y1, r.y2) <= y <= Max(r.y1, r.y2)
  {
  }

  /** The boundary belongs to the rectangle: all four corners are inside. */
  lemma CornersInside(r: Rect)
    ensures r.Contains((r.x1, r.y1)) && r.Contains((r.x2, r.y2))
    ensures r.Contains((r.x1, r.y2)) && r.Contains((r.x2, r.y1))
  {
  }

  /** A coordinate strictly beyond either bound of its axis puts the point outside. */
  lemma OutsideOneAxis(r: Rect, x: i32, y: i32)
    requires x < Min(r.x1, r.x2) || x > Max(r.x1, r.x2) || y < Min(r.y1, r.y2) || y > Max(r.y1, r.y2)
    ensures !r.Contains((x, y))
  {
  }

  /** The rectangle (0,0)-(10,10) holds (5,5) but not (15,5). */
  lemma ContainsExample()
    ensures Rect(0, 0, 10, 10).Contains((5, 5))
    ensures !Rect(0, 0, 10, 10).Contains((15, 5))
  {
  }
}
