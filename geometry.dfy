/** The toolkit's floating-point rectangle, as the box editor uses it.

    A rectangle is stored the way the toolkit stores it: a top-left corner
    (x, y) and a signed width and height. The right edge is x + w and the
    bottom edge y + h, and w or h may be negative until the rectangle is
    normalized. Each edge setter moves one edge and keeps the opposite one. */
module Geometry {

  function Min(a: real, b: real): real { if a <= b then a else b }
  function Max(a: real, b: real): real { if a <= b then b else a }

  datatype Rect = Rect(x: real, y: real, w: real, h: real) {

    function Left(): real { x }
    function Right(): real { x + w }
    function Top(): real { y }
    function Bottom(): real { y + h }

    /** Left <= Right and Top <= Bottom. */
    predicate IsNormalized() { w >= 0.0 && h >= 0.0 }

    /** Moves the left edge to v; the right edge stays where it is. */
    function SetLeft(v: real): (r: Rect)
      ensures r.Left() == v && r.Right() == Right()
      ensures r.Top() == Top() && r.Bottom() == Bottom()
    {
      var diff := v - x;
      Rect(x + diff, y, w - diff, h)
    }

    /** Moves the right edge to v; the left edge stays where it is. */
    function SetRight(v: real): (r: Rect)
      ensures r.Right() == v && r.Left() == Left()
      ensures r.Top() == Top() && r.Bottom() == Bottom()
    {
      Rect(x, y, v - x, h)
    }

    /** Moves the top edge to v; the bottom edge stays where it is. */
    function SetTop(v: real): (r: Rect)
      ensures r.Top() == v && r.Bottom() == Bottom()
      ensures r.Left() == Left() && r.Right() == Right()
    {
      var diff := v - y;
      Rect(x, y + diff, w, h - diff)
    }

    /** Moves the bottom edge to v; the top edge stays where it is. */
    function SetBottom(v: real): (r: Rect)
      ensures r.Bottom() == v && r.Top() == Top()
      ensures r.Left() == Left() && r.Right() == Right()
    {
      Rect(x, y, w, v - y)
    }

    /** Moves the top-left corner to (px, py); the bottom-right corner stays. */
    function SetTopLeft(px: real, py: real): (r: Rect)
      ensures r.Left() == px && r.Top() == py
      ensures r.Right() == Right() && r.Bottom() == Bottom()
    {
      SetLeft(px).SetTop(py)
    }

    /** Moves the bottom-right corner to (px, py); the top-left corner stays. */
    function SetBottomRight(px: real, py: real): (r: Rect)
      ensures r.Right() == px && r.Bottom() == py
      ensures r.Left() == Left() && r.Top() == Top()
      ensures r.x == x && r.y == y
    {
      SetRight(px).SetBottom(py)
    }

    /** The same edges, reordered so that the rectangle is normalized:
        a negative width or height is flipped around the opposite edge. */
    function Normalized(): (r: Rect)
      ensures r.IsNormalized()
      ensures r.Left() == Min(Left(), Right()) && r.Right() == Max(Left(), Right())
      ensures r.Top() == Min(Top(), Bottom()) && r.Bottom() == Max(Top(), Bottom())
    {
      var (nx, nw) := if w < 0.0 then (x + w, -w) else (x, w);
      var (ny, nh) := if h < 0.0 then (y + h, -h) else (y, h);
      Rect(nx, ny, nw, nh)
    }

    /** The 10 by 10 square in the bottom-right corner (never called by the editor). */
    function CornerRect(): (r: Rect)
      ensures r.IsNormalized() && r.w == 10.0 && r.h == 10.0
      ensures r.Right() == Right() && r.Bottom() == Bottom()
    {
      Rect(Right() - 10.0, Bottom() - 10.0, 10.0, 10.0)
    }
  }

  /** Normalizing a normalized rectangle changes nothing; in particular
      normalizing is idempotent. */
  lemma NormalizedIdempotent(r: Rect)
    ensures r.IsNormalized() ==> r.Normalized() == r
    ensures r.Normalized().Normalized() == r.Normalized()
  {
  }

  /** Normalizing keeps the multiset of horizontal and of vertical edge
      coordinates: the edges are reordered, never invented. */
  lemma NormalizedKeepsEdges(r: Rect)
    ensures multiset{r.Normalized().Left(), r.Normalized().Right()} == multiset{r.Left(), r.Right()}
    ensures multiset{r.Normalized().Top(), r.Normalized().Bottom()} == multiset{r.Top(), r.Bottom()}
  {
  }
}
