/**
 * Rect<T> (include/math/Rect.inl): an axis-aligned rectangle given by its
 * top-left corner (x, y), width and height, in screen orientation (y grows
 * downwards, so `bottom() = y + height`). Containment is half-open and
 * overlap is edge-exclusive. `expand`, which reassigns the fields in place,
 * is a method of `MutableRect`.
 */
module Rects {
  import opened Scalars
  import opened Vectors2

  datatype Rect = Rect(x: real, y: real, width: real, height: real) {

    function Left(): real { x }
    function Right(): real { x + width }
    function Top(): real { y }
    function Bottom(): real { y + height }
    function Position(): Vector2 { Vector2(x, y) }
    function Size(): Vector2 { Vector2(width, height) }

    /** center() = (x + width / 2, y + height / 2): halfway between the edges. */
    function Center(): (c: Vector2)
      ensures c.x - Left() == Right() - c.x
      ensures c.y - Top() == Bottom() - c.y
    {
      Vector2(x + width / 2.0, y + height / 2.0)
    }

    /** contains: left and top edges inside, right and bottom edges outside. */
    predicate Contains(p: Vector2) {
      p.x >= x && p.x < Right() && p.y >= y && p.y < Bottom()
    }

    /** intersects: false as soon as one rectangle ends where or before the other starts. */
    predicate Intersects(o: Rect) {
      !(Right() <= o.x || o.Right() <= x || Bottom() <= o.y || o.Bottom() <= y)
    }

    /**
     * intersection: the overlap of the two rectangles when it has positive
     * width and height, otherwise the empty Rect() = (0, 0, 0, 0). A non-empty
     * result lies inside both operands.
     */
    function Intersection(o: Rect): (r: Rect)
      ensures r == Empty() || (r.width > 0.0 && r.height > 0.0)
      ensures r != Empty() ==>
        r.Left() >= Left() && r.Left() >= o.Left() && r.Right() <= Right() && r.Right() <= o.Right() &&
        r.Top() >= Top() && r.Top() >= o.Top() && r.Bottom() <= Bottom() && r.Bottom() <= o.Bottom()
    {
      var intersectLeft := Max(x, o.x);
      var intersectTop := Max(y, o.y);
      var intersectRight := Min(Right(), o.Right());
      var intersectBottom := Min(Bottom(), o.Bottom());
      if intersectLeft < intersectRight && intersectTop < intersectBottom then
        Rect(intersectLeft, intersectTop, intersectRight - intersectLeft, intersectBottom - intersectTop)
      else
        Empty()
    }
  }

  /** The two-vector constructor Rect(position, size); position() and size() give the vectors back. */
  function FromVectors(position: Vector2, size: Vector2): (r: Rect)
    ensures r.Position() == position && r.Size() == size
    ensures r.Right() == position.x + size.x && r.Bottom() == position.y + size.y
  {
    Rect(position.x, position.y, size.x, size.y)
  }

  /** The default constructor Rect(): every field zero. */
  function Empty(): Rect { Rect(0.0, 0.0, 0.0, 0.0) }

  /** Rebuilding a rectangle from its position() and size() gives the same rectangle. */
  lemma PositionSizeRoundTrip(r: Rect)
    ensures FromVectors(r.Position(), r.Size()) == r
  {
  }

  /**
   * contains is half-open: the top-left corner of a rectangle with positive
   * size is inside, no point on the right or bottom edge is.
   */
  lemma ContainsHalfOpen(r: Rect, p: Vector2)
    ensures r.width > 0.0 && r.height > 0.0 ==> r.Contains(r.Position())
    ensures p.x == r.Right() || p.y == r.Bottom() ==> !r.Contains(p)
    ensures r.Contains(p) ==> r.Left() <= p.x < r.Right() && r.Top() <= p.y < r.Bottom()
  {
  }

  /** Nothing lies inside the empty rectangle. */
  lemma EmptyContainsNothing(p: Vector2)
    ensures !Empty().Contains(p)
  {
  }

  /** intersects is symmetric. */
  lemma IntersectsSymmetric(a: Rect, b: Rect)
    ensures a.Intersects(b) <==> b.Intersects(a)
  {
  }

  /** Rectangles that only share an edge do not intersect. */
  lemma SharedEdgeDoesNotIntersect(a: Rect, b: Rect)
    requires a.Right() == b.Left() || a.Bottom() == b.Top()
    ensures !a.Intersects(b) && !b.Intersects(a)
  {
  }

  /** intersection is commutative. */
  lemma IntersectionCommutative(a: Rect, b: Rect)
    ensures a.Intersection(b) == b.Intersection(a)
  {
  }

  /** A point is inside the intersection exactly when it is inside both rectangles. */
  lemma IntersectionContains(a: Rect, b: Rect, p: Vector2)
    ensures a.Intersection(b).Contains(p) <==> a.Contains(p) && b.Contains(p)
  {
  }

  /** For rectangles of positive size, intersects holds exactly when the intersection has positive area. */
  lemma IntersectsIffIntersectionNonEmpty(a: Rect, b: Rect)
    requires a.width > 0.0 && a.height > 0.0 && b.width > 0.0 && b.height > 0.0
    ensures a.Intersects(b) <==> a.Intersection(b).width > 0.0 && a.Intersection(b).height > 0.0
  {
  }

  /**
   * The rectangle `expand(p)` produces: the left and top edges move out to p
   * when p lies before them, the right and bottom edges when p lies beyond.
   */
  function Expanded(r: Rect, p: Vector2): (e: Rect)
    ensures e.Left() == Min(r.Left(), p.x) && e.Top() == Min(r.Top(), p.y)
    ensures e.Right() == Max(r.Right(), p.x) && e.Bottom() == Max(r.Bottom(), p.y)
  {
    var newX := Min(r.x, p.x);
    var newY := Min(r.y, p.y);
    Rect(newX, newY, Max(r.Right(), p.x) - newX, Max(r.Bottom(), p.y) - newY)
  }

  /** After expand(p), p lies within the closed box, and every point of the old rectangle is still contained. */
  lemma ExpandedCovers(r: Rect, p: Vector2, q: Vector2)
    ensures var e := Expanded(r, p); e.Left() <= p.x <= e.Right() && e.Top() <= p.y <= e.Bottom()
    ensures r.Contains(q) ==> Expanded(r, p).Contains(q)
  {
  }

  /** Expanding twice by the same point changes nothing the second time. */
  lemma ExpandIdempotent(r: Rect, p: Vector2)
    ensures Expanded(Expanded(r, p), p) == Expanded(r, p)
  {
  }

  /** Expanding by a point the rectangle already contains is a no-op. */
  lemma ExpandContainedNoOp(r: Rect, p: Vector2)
    requires r.Contains(p)
    ensures Expanded(r, p) == r
  {
  }

  /**
   * expand(p) does not make contains(p) true when p lies on or beyond the
   * right or bottom edge: p becomes the new (excluded) edge. For example
   * (0,0,1,1) expanded by (2,0) is (0,0,2,1), which does not contain (2,0).
   */
  lemma ExpandedExcludesFarPoint(r: Rect, p: Vector2)
    requires p.x >= r.Right() || p.y >= r.Bottom()
    ensures !Expanded(r, p).Contains(p)
  {
  }

  /** A rectangle object whose fields expand() reassigns. */
  class MutableRect {
    var x: real
    var y: real
    var width: real
    var height: real

    function Value(): Rect
      reads this
    {
      Rect(x, y, width, height)
    }

    constructor (r: Rect)
      ensures Value() == r
    {
      x, y, width, height := r.x, r.y, r.width, r.height;
    }

    /**
     * expand(point): width and height are recomputed from the old right and
     * bottom edges before x and y move.
     */
    method Expand(p: Vector2)
      modifies this
      ensures Value() == Expanded(old(Value()), p)
      ensures x == Min(old(x), p.x) && y == Min(old(y), p.y)
      ensures x + width == Max(old(x + width), p.x) && y + height == Max(old(y + height), p.y)
    {
      var newX := Min(x, p.x);
      var newY := Min(y, p.y);
      width := Max(x + width, p.x) - newX;
      height := Max(y + height, p.y) - newY;
      x := newX;
      y := newY;
    }
  }
}
