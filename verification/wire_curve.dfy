/** The cubic Bézier a wire is drawn with (`wirePath`): horizontal tangents
    at both ends, pulled out by half the horizontal distance, kept between
    40 and 200 units. */
module WireCurve {
  import opened Viewport

  /** `M x1 y1 C c1x y1, c2x y2, x2 y2`: start, two control points, end. */
  datatype Curve = Curve(start: Point, c1: Point, c2: Point, end: Point)

  function Abs(x: real): (r: real)
    ensures r >= 0.0 && (r == x || r == -x)
  {
    if x < 0.0 then -x else x
  }

  /** `wirePath(x1, y1, x2, y2)`. */
  function WirePath(a: Point, b: Point): (r: Curve)
    ensures r.start == a && r.end == b
    ensures r.c1.y == a.y && r.c2.y == b.y
    ensures r.c1.x - a.x == b.x - r.c2.x
    ensures Abs(r.c1.x - a.x) == Clamp(Abs(b.x - a.x) * 0.5, 40.0, 200.0)
    ensures b.x >= a.x ==> r.c1.x > a.x && r.c2.x < b.x
    ensures b.x < a.x ==> r.c1.x < a.x && r.c2.x > b.x
  {
    var dx := Clamp(Abs(b.x - a.x) * 0.5, 40.0, 200.0);
    var c1x := a.x + (if b.x >= a.x then dx else -dx);
    var c2x := b.x - (if b.x >= a.x then dx else -dx);
    Curve(a, Point(c1x, a.y), Point(c2x, b.y), b)
  }

  /** The same curve traversed from the other end. */
  function Reverse(c: Curve): Curve {
    Curve(c.end, c.c2, c.c1, c.start)
  }

  /** Swapping the ends draws the same curve, as long as they are not
      vertically aligned. */
  lemma WirePathSymmetric(a: Point, b: Point)
    requires a.x != b.x
    ensures WirePath(b, a) == Reverse(WirePath(a, b))
  {
  }

  /** With both ends at the same x the curve always leaves its start to the
      right, so swapping the ends draws a different curve. */
  lemma WirePathVerticalAsymmetric(a: Point, b: Point)
    requires a.x == b.x
    ensures WirePath(b, a) != Reverse(WirePath(a, b))
    ensures WirePath(a, b).c1.x == a.x + 40.0 && WirePath(b, a).c1.x == b.x + 40.0
  {
  }
}
