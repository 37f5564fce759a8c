/** The distance from a point to an aisle's centreline, on squared distances. */
module Geometry {
  import opened Layout

  /** A displacement in the site's coordinate frame. */
  function Minus(p: Point, q: Point): Point {
    Point(p.x - q.x, p.y - q.y, p.z - q.z)
  }

  function Dot(a: Point, b: Point): real {
    Times(a.x, b.x) + Times(a.y, b.y) + Times(a.z, b.z)
  }

  /** The point a fraction `t` of the way from `start` to `end`. */
  function Along(start: Point, end: Point, t: real): Point {
    Point(start.x + t * (end.x - start.x), start.y + t * (end.y - start.y), start.z + t * (end.z - start.z))
  }

  function SquaredDistance(p: Point, q: Point): real {
    Dot(Minus(p, q), Minus(p, q))
  }

  function Clamp(t: real): real {
    if t < 0.0 then 0.0 else if t > 1.0 then 1.0 else t
  }

  /** Where on the segment the program measures to: the projection of `p` clamped to the segment, or the
      start when the ends coincide. */
  function ClosestAt(start: Point, end: Point, p: Point): real {
    var a := Minus(end, start);
    if Dot(a, a) == 0.0 then 0.0 else Clamp(Dot(a, Minus(p, start)) / Dot(a, a))
  }

  function SquaredDistanceToPoint(start: Point, end: Point, p: Point): real {
    SquaredDistance(p, Along(start, end, ClosestAt(start, end, p)))
  }

  lemma SquareNotNegative(x: real)
    ensures x * x >= 0.0 && (x != 0.0 ==> x * x > 0.0)
  {
    SquareSign(x);
  }

  /** How the squared distance varies along a segment: its position-dependent part. */
  function Parabola(l: real, b: real, t: real): real {
    t * t * l - 2.0 * t * b
  }

  lemma DistanceAlong(start: Point, end: Point, p: Point, t: real)
    ensures var a, b := Minus(end, start), Minus(p, start);
            SquaredDistance(p, Along(start, end, t)) == Dot(b, b) + Parabola(Dot(a, a), Dot(a, b), t)
  {
    var a, b := Minus(end, start), Minus(p, start);
    AxisAlong(b.x, a.x, t);
    AxisAlong(b.y, a.y, t);
    AxisAlong(b.z, a.z, t);
    var d := Minus(p, Along(start, end, t));
    assert d.x == b.x - t * a.x && d.y == b.y - t * a.y && d.z == b.z - t * a.z;
  }

  lemma AxisAlong(b: real, a: real, t: real)
    ensures (b - t * a) * (b - t * a) == b * b - 2.0 * t * (a * b) + t * t * (a * a)
  {
  }

  /** On [0, 1] the parabola is lowest at its vertex clamped to that range. */
  lemma ClampedVertexIsLowest(l: real, b: real, s: real)
    requires l > 0.0 && 0.0 <= s <= 1.0
    ensures Parabola(l, b, Clamp(b / l)) <= Parabola(l, b, s)
  {
    var v := b / l;
    assert b == v * l;
    var t := Clamp(v);
    var gap := (s - t) * (s + t - 2.0 * v);
    assert gap >= 0.0 by {
      if v < 0.0 {
        NonNegativeProduct(s, s - 2.0 * v);
      } else if v > 1.0 {
        NonNegativeProduct(1.0 - s, 2.0 * v - 1.0 - s);
        assert gap == (1.0 - s) * (2.0 * v - 1.0 - s);
      } else {
        SquareNotNegative(s - v);
      }
    }
    NonNegativeProduct(gap, l);
    assert gap == s * s - t * t - 2.0 * v * s + 2.0 * v * t;
    assert gap * l == (s * s * l - 2.0 * s * b) - (t * t * l - 2.0 * t * b);
  }

  lemma NonNegativeProduct(x: real, y: real)
    requires x >= 0.0 && y >= 0.0
    ensures x * y >= 0.0
  {
  }

  lemma PositiveSum(u: real, v: real, w: real)
    requires u >= 0.0 && v >= 0.0 && w >= 0.0 && (u > 0.0 || v > 0.0 || w > 0.0)
    ensures u + v + w > 0.0
  {
  }

  lemma HasExtent(a: Point)
    requires a != Point(0.0, 0.0, 0.0)
    ensures Dot(a, a) > 0.0
  {
    SquareSign(a.x);
    SquareSign(a.y);
    SquareSign(a.z);
    PositiveSum(Square(a.x), Square(a.y), Square(a.z));
  }

  lemma NowhereToGo(start: Point, t: real)
    ensures Along(start, start, t) == start
  {
  }

  lemma OnSegment(start: Point, end: Point, p: Point)
    ensures 0.0 <= ClosestAt(start, end, p) <= 1.0
  {
  }

  lemma NearestOfMany(start: Point, end: Point, p: Point, s: real)
    requires 0.0 <= s <= 1.0 && Minus(end, start) != Point(0.0, 0.0, 0.0)
    ensures SquaredDistanceToPoint(start, end, p) <= SquaredDistance(p, Along(start, end, s))
  {
    var a, b := Minus(end, start), Minus(p, start);
    HasExtent(a);
    DistanceAlong(start, end, p, ClosestAt(start, end, p));
    DistanceAlong(start, end, p, s);
    ClampedVertexIsLowest(Dot(a, a), Dot(a, b), s);
  }

  /** The square of how far apart two points are. */
  ghost function Apart(p: Point, q: Point): real {
    (p.x - q.x) * (p.x - q.x) + (p.y - q.y) * (p.y - q.y) + (p.z - q.z) * (p.z - q.z)
  }

  lemma SquaredDistanceIsApart(p: Point, q: Point)
    ensures SquaredDistance(p, q) == Apart(p, q)
  {
  }

  /** The measured distance is to a point of the segment, and no point of the segment is nearer. */
  lemma NothingOnTheSegmentIsNearer(start: Point, end: Point, p: Point, s: real)
    requires 0.0 <= s <= 1.0
    ensures 0.0 <= ClosestAt(start, end, p) <= 1.0
    ensures SquaredDistanceToPoint(start, end, p) == Apart(p, Along(start, end, ClosestAt(start, end, p)))
    ensures SquaredDistanceToPoint(start, end, p) <= Apart(p, Along(start, end, s))
  {
    SquaredDistanceIsApart(p, Along(start, end, ClosestAt(start, end, p)));
    SquaredDistanceIsApart(p, Along(start, end, s));
    OnSegment(start, end, p);
    if start == end {
      NowhereToGo(start, ClosestAt(start, end, p));
      NowhereToGo(start, s);
    } else {
      NearestOfMany(start, end, p, s);
    }
  }
}
