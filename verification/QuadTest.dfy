/** What the disc-against-quadrilateral test of Host/collisions.cpp decides for convex quadrilaterals. */
module QuadTest {
  import opened Geometry
  import opened Heron
  import opened SegmentTest

  datatype Winding = CounterClockwise | Clockwise

  /** Twice the area of abc, positive when c lies on the inner side of ab. */
  function Turn(w: Winding, a: Point, b: Point, c: Point): real {
    if w.CounterClockwise? then Cross(a, b, c) else -Cross(a, b, c)
  }

  /** Strictly convex, corners listed in the direction w. */
  predicate ConvexQuad(q: Rectangle, w: Winding) {
    && 0.0 < Turn(w, q.p0, q.p1, q.p2)
    && 0.0 < Turn(w, q.p1, q.p2, q.p3)
    && 0.0 < Turn(w, q.p2, q.p3, q.p0)
    && 0.0 < Turn(w, q.p3, q.p0, q.p1)
  }

  /** How far inside each edge p lies, scaled by the length of the edge. */
  function Sides(q: Rectangle, w: Winding, p: Point): (s: seq<real>) {
    [Turn(w, q.p0, q.p1, p), Turn(w, q.p1, q.p2, p), Turn(w, q.p2, q.p3, p), Turn(w, q.p3, q.p0, p)]
  }

  /** The closed filled quadrilateral. */
  predicate InQuad(q: Rectangle, w: Winding, p: Point) {
    forall i :: 0 <= i < 4 ==> 0.0 <= Sides(q, w, p)[i]
  }

  function Edge(q: Rectangle, i: nat): (e: (Point, Point))
    requires i < 4
  {
    if i == 0 then (q.p0, q.p1) else if i == 1 then (q.p1, q.p2)
    else if i == 2 then (q.p2, q.p3) else (q.p3, q.p0)
  }

  function Shortfall(x: real): real {
    if x < 0.0 then -x else 0.0
  }

  /** The total amount by which p lies outside the edges. */
  function Excess(q: Rectangle, w: Winding, p: Point): real {
    var s := Sides(q, w, p);
    Shortfall(s[0]) + Shortfall(s[1]) + Shortfall(s[2]) + Shortfall(s[3])
  }

  lemma Shoelace(q: Rectangle, w: Winding, p: Point)
    ensures var s := Sides(q, w, p);
            s[0] + s[1] + s[2] + s[3] == Turn(w, q.p0, q.p1, q.p2) + Turn(w, q.p2, q.p3, q.p0)
  {}

  /** The fan of triangles around p covers the quadrilateral, and exceeds it exactly by the excess. */
  lemma FanAreaExcess(m: Libm, q: Rectangle, w: Winding, p: Point)
    requires m.Exact() && ConvexQuad(q, w)
    ensures FanArea(m, q, p) == QuadArea(m, q) + Excess(q, w, p)
  {
    HeronIsHalfCross(m, q.p0, q.p1, p);
    HeronIsHalfCross(m, q.p1, q.p2, p);
    HeronIsHalfCross(m, q.p2, q.p3, p);
    HeronIsHalfCross(m, q.p3, q.p0, p);
    HeronIsHalfCross(m, q.p0, q.p1, q.p2);
    HeronIsHalfCross(m, q.p2, q.p3, q.p0);
    Shoelace(q, w, p);
    hide Cross, TriangleArea;
  }

  /** The fan is never smaller than the quadrilateral, and equal exactly for points of the closed quadrilateral. */
  lemma FanCoversQuad(m: Libm, q: Rectangle, w: Winding, p: Point)
    requires m.Exact() && ConvexQuad(q, w)
    ensures QuadArea(m, q) <= FanArea(m, q, p)
    ensures FanArea(m, q, p) == QuadArea(m, q) <==> InQuad(q, w, p)
    ensures CentreTest(m, q, p) <==> Excess(q, w, p) <= AREA_TOLERANCE
  {
    FanAreaExcess(m, q, w, p);
    hide Turn, FanArea, QuadArea;
  }

  // ---------- leaving the quadrilateral crosses one of its edges ----------

  function Blend(x: real, y: real, t: real): real {
    (1.0 - t) * x + t * y
  }

  lemma TurnIsAffine(w: Winding, a: Point, b: Point, p: Point, q: Point, t: real)
    ensures Turn(w, a, b, AlongSegment(p, q, t)) == Blend(Turn(w, a, b, p), Turn(w, a, b, q), t)
  {
    CrossIsAffine(a, b, p, q, t);
    assert -Blend(Cross(a, b, p), Cross(a, b, q), t) == Blend(-Cross(a, b, p), -Cross(a, b, q), t);
  }

  lemma CrossIsAffine(a: Point, b: Point, p: Point, q: Point, t: real)
    ensures Cross(a, b, AlongSegment(p, q, t)) == Blend(Cross(a, b, p), Cross(a, b, q), t)
  {
    AffineReal(b.x - a.x, b.y - a.y, p.x - a.x, p.y - a.y, q.x - a.x, q.y - a.y, t);
  }

  lemma AffineReal(ux: real, uy: real, px: real, py: real, qx: real, qy: real, t: real)
    ensures ux * (py + t * (qy - py)) - uy * (px + t * (qx - px))
         == Blend(ux * py - uy * px, ux * qy - uy * qx, t)
  {}

  /** Walking from all-non-negative sides to sides of which one is negative, there is a last moment at which
      all are non-negative; one side is zero then. */
  lemma ExitMoment(inside: seq<real>, outside: seq<real>) returns (t: real, i: nat)
    requires |inside| == |outside|
    requires forall j :: 0 <= j < |inside| ==> 0.0 <= inside[j]
    requires exists j :: 0 <= j < |inside| && outside[j] < 0.0
    ensures 0.0 <= t < 1.0 && i < |inside|
    ensures Blend(inside[i], outside[i], t) == 0.0
    ensures forall j :: 0 <= j < |inside| ==> 0.0 <= Blend(inside[j], outside[j], t)
  {
    var n := |inside| - 1;
    var x, y := inside[n], outside[n];
    if exists j :: 0 <= j < n && outside[j] < 0.0 {
      t, i := ExitMoment(inside[..n], outside[..n]);
      forall j | 0 <= j < n ensures 0.0 <= Blend(inside[j], outside[j], t) {
        assert inside[..n][j] == inside[j] && outside[..n][j] == outside[j];
      }
      if Blend(x, y, t) < 0.0 {
        BlendSign(x, y, t);
        var s := x / (x - y);
        ZeroOfBlend(x, y, s);
        ZeroIsEarlier(x, y, s, t);
        forall j | 0 <= j < n ensures 0.0 <= Blend(inside[j], outside[j], s) {
          EarlierBlend(inside[j], outside[j], s, t);
        }
        t, i := s, n;
      }
    } else {
      t, i := x / (x - y), n;
      ZeroOfBlend(x, y, t);
      forall j | 0 <= j < n ensures 0.0 <= Blend(inside[j], outside[j], t) {
        BlendSign(inside[j], outside[j], t);
      }
    }
  }

  lemma BlendSign(x: real, y: real, t: real)
    requires 0.0 <= x && 0.0 <= t <= 1.0
    ensures 0.0 <= y ==> 0.0 <= Blend(x, y, t)
  {
    NonNegativeProduct(1.0 - t, x, (1.0 - t) * x);
    if 0.0 <= y {
      NonNegativeProduct(t, y, t * y);
    }
  }

  lemma ZeroOfBlend(x: real, y: real, s: real)
    requires 0.0 <= x && y < 0.0 && s == x / (x - y)
    ensures 0.0 <= s < 1.0 && Blend(x, y, s) == 0.0
  {
    assert s * (x - y) == x;
    if s < 0.0 {
      PositiveProduct(-s, x - y, -x);
    }
    if 1.0 <= s {
      NonNegativeProduct(s - 1.0, x - y, (s - 1.0) * (x - y));
    }
  }

  lemma ZeroIsEarlier(x: real, y: real, s: real, t: real)
    requires 0.0 <= x && y < 0.0 && Blend(x, y, s) == 0.0 && Blend(x, y, t) < 0.0
    ensures s < t
  {
    if t <= s {
      NonNegativeProduct(s - t, x - y, Blend(x, y, t) - Blend(x, y, s));
    }
  }

  lemma EarlierBlend(x: real, y: real, s: real, t: real)
    requires 0.0 <= x && 0.0 <= s <= t < 1.0 && 0.0 <= Blend(x, y, t)
    ensures 0.0 <= Blend(x, y, s)
  {
    if x <= y {
      BlendSign(x, y, s);
    } else {
      NonNegativeProduct(t - s, x - y, Blend(x, y, s) - Blend(x, y, t));
    }
  }

  /** A point on the line ab is a combination of a and b. */
  lemma OnLine(w: Winding, a: Point, b: Point, p: Point)
    requires a != b && Turn(w, a, b, p) == 0.0
    ensures p == AlongSegment(a, b, Foot(p, a, b))
  {
    FootSpec(p, a, b);
    var u, v, f := Minus(b, a), Minus(p, a), Foot(p, a, b);
    assert u.x * v.y - u.y * v.x == 0.0;
    Dist2Sign(a, b);
    Collinear(u.x, u.y, v.x, v.y, f, Dist2(a, b));
  }

  lemma Collinear(ux: real, uy: real, vx: real, vy: real, f: real, d: real)
    requires ux * vy - uy * vx == 0.0 && d == ux * ux + uy * uy && 0.0 < d
    requires f * d == vx * ux + vy * uy
    ensures vx == f * ux && vy == f * uy
  {
    assert vx * d == f * ux * d by {
      assert vx * d == (vx * ux + vy * uy) * ux - (ux * vy - uy * vx) * uy;
    }
    assert vy * d == f * uy * d by {
      assert vy * d == (vx * ux + vy * uy) * uy + (ux * vy - uy * vx) * ux;
    }
    CancelFactor(vx, f * ux, d);
    CancelFactor(vy, f * uy, d);
  }

  /** Where a closed convex quadrilateral touches the line of an edge, it is on the edge. */
  lemma OnEdge(w: Winding, prev: Point, a: Point, b: Point, next: Point, p: Point) returns (t: real)
    requires 0.0 < Turn(w, a, b, next) && 0.0 < Turn(w, prev, a, b)
    requires Turn(w, a, b, p) == 0.0 && 0.0 <= Turn(w, b, next, p) && 0.0 <= Turn(w, prev, a, p)
    ensures 0.0 <= t <= 1.0 && p == AlongSegment(a, b, t)
  {
    EdgeIsProper(w, a, b, next);
    t := Foot(p, a, b);
    OnLine(w, a, b, p);
    TurnIsAffine(w, b, next, a, b, t);
    TurnIsAffine(w, prev, a, a, b, t);
    assert Turn(w, b, next, b) == 0.0 && Turn(w, prev, a, a) == 0.0;
    TurnRotates(w, a, b, next);
    hide Turn, Foot, AlongSegment;
    var x, y := Turn(w, a, b, next), Turn(w, prev, a, b);
    if t < 0.0 {
      PositiveProduct(-t, y, -Blend(0.0, y, t));
    }
    if 1.0 < t {
      PositiveProduct(t - 1.0, x, -Blend(x, 0.0, t));
    }
  }

  lemma EdgeIsProper(w: Winding, a: Point, b: Point, c: Point)
    requires Turn(w, a, b, c) != 0.0
    ensures a != b
  {}

  lemma TurnRotates(w: Winding, a: Point, b: Point, c: Point)
    ensures Turn(w, a, b, c) == Turn(w, b, c, a) == Turn(w, c, a, b)
  {
    CrossRotates(a, b, c);
    CrossRotates(b, c, a);
  }

  lemma SidesAlong(q: Rectangle, w: Winding, x: Point, c: Point, t: real, j: nat)
    requires j < 4
    ensures Sides(q, w, AlongSegment(x, c, t))[j] == Blend(Sides(q, w, x)[j], Sides(q, w, c)[j], t)
  {
    TurnIsAffine(w, Edge(q, j).0, Edge(q, j).1, x, c, t);
    hide Turn, Blend, AlongSegment;
  }

  /** A point of the quadrilateral at which side i vanishes lies on edge i. */
  lemma OnEdgeOf(q: Rectangle, w: Winding, p: Point, i: nat) returns (t: real)
    requires ConvexQuad(q, w) && InQuad(q, w, p) && i < 4 && Sides(q, w, p)[i] == 0.0
    ensures 0.0 <= t <= 1.0 && p == AlongSegment(Edge(q, i).0, Edge(q, i).1, t)
  {
    hide Turn;
    assert forall j :: 0 <= j < 4 ==> 0.0 <= Sides(q, w, p)[j];
    var s := Sides(q, w, p);
    assert 0.0 <= s[0] && 0.0 <= s[1] && 0.0 <= s[2] && 0.0 <= s[3];
    if i == 0 {
      t := OnEdge(w, q.p3, q.p0, q.p1, q.p2, p);
    } else if i == 1 {
      t := OnEdge(w, q.p0, q.p1, q.p2, q.p3, p);
    } else if i == 2 {
      t := OnEdge(w, q.p1, q.p2, q.p3, q.p0, p);
    } else {
      t := OnEdge(w, q.p2, q.p3, q.p0, q.p1, p);
    }
  }

  lemma StepIsShorter(c: Point, x: Point, t: real)
    requires 0.0 <= t <= 1.0
    ensures Dist2(c, AlongSegment(x, c, t)) <= Dist2(c, x)
  {
    EndsAreAlong(x, c);
    if x == c {
    } else {
      var f := Foot(c, x, c);
      assert f == 1.0 by {
        FootSpec(c, x, c);
        Dist2Sign(x, c);
        CancelFactor(f, 1.0, Dist2(x, c));
      }
      CloserToFoot(c, x, c, t, 0.0);
    }
  }

  /** A point outside the quadrilateral sees some edge at least as near as any point of the quadrilateral. */
  lemma NearestIsOnEdge(q: Rectangle, w: Winding, c: Point, x: Point) returns (i: nat, t: real)
    requires ConvexQuad(q, w) && InQuad(q, w, x) && !InQuad(q, w, c)
    ensures i < 4 && 0.0 <= t <= 1.0
    ensures Dist2(c, AlongSegment(Edge(q, i).0, Edge(q, i).1, t)) <= Dist2(c, x)
  {
    hide Turn, Dist2, AlongSegment, Edge;
    var s;
    s, i := ExitMoment(Sides(q, w, x), Sides(q, w, c));
    var p := AlongSegment(x, c, s);
    forall j: nat | j < 4 ensures Sides(q, w, p)[j] == Blend(Sides(q, w, x)[j], Sides(q, w, c)[j], s) {
      SidesAlong(q, w, x, c, s, j);
    }
    t := OnEdgeOf(q, w, p, i);
    StepIsShorter(c, x, s);
  }

  /** Completeness: a disc that meets the filled quadrilateral anywhere is reported. */
  lemma QuadTestComplete(m: Libm, c: Circle, q: Rectangle, w: Winding, x: Point)
    requires m.Exact() && ConvexQuad(q, w) && InQuad(q, w, x) && Within(c.centre, x, c.r)
    ensures CircleQuadCollide(m, c, q)
  {
    FanCoversQuad(m, q, w, c.centre);
    if !InQuad(q, w, c.centre) {
      var i, t := NearestIsOnEdge(q, w, c.centre, x);
      assert DiscMeetsSegment(c, Edge(q, i).0, Edge(q, i).1);
      SegmentTestComplete(m, c, Edge(q, i).0, Edge(q, i).1);
    }
    hide Turn, FanArea, QuadArea, CircleSegmentCollide;
  }

  lemma CollideUnfolds(m: Libm, c: Circle, q: Rectangle)
    ensures CircleQuadCollide(m, c, q)
       <==> CentreTest(m, q, c.centre)
            || exists i: nat :: i < 4 && CircleSegmentCollide(m, c, Edge(q, i).0, Edge(q, i).1)
  {
    hide CentreTest, CircleSegmentCollide;
    assert Edge(q, 0) == (q.p0, q.p1) && Edge(q, 1) == (q.p1, q.p2);
    assert Edge(q, 2) == (q.p2, q.p3) && Edge(q, 3) == (q.p3, q.p0);
  }

  /** Soundness: a report means the centre misses the quadrilateral by at most the area tolerance,
      or some edge comes within the tolerance of the segment test. */
  lemma QuadTestSound(m: Libm, c: Circle, q: Rectangle, w: Winding)
    requires m.Exact() && ConvexQuad(q, w) && CircleQuadCollide(m, c, q)
    ensures Excess(q, w, c.centre) <= AREA_TOLERANCE
         || exists i: nat :: i < 4 && SegmentNearer(c.centre, Edge(q, i).0, Edge(q, i).1,
                                                    Square(c.r) + Square(LENGTH_TOLERANCE / 2.0))
  {
    CollideUnfolds(m, c, q);
    hide *;
    FanCoversQuad(m, q, w, c.centre);
    if !CentreTest(m, q, c.centre) {
      var i: nat :| i < 4 && CircleSegmentCollide(m, c, Edge(q, i).0, Edge(q, i).1);
      SegmentTestSound(m, c, Edge(q, i).0, Edge(q, i).1);
    }
  }

  /** The outline belongs to the filled quadrilateral. */
  lemma EdgesAreInQuad(q: Rectangle, w: Winding, i: nat, t: real)
    requires ConvexQuad(q, w) && i < 4 && 0.0 <= t <= 1.0
    ensures InQuad(q, w, AlongSegment(Edge(q, i).0, Edge(q, i).1, t))
  {
    var a, b := Edge(q, i).0, Edge(q, i).1;
    CornersAreInQuad(q, w);
    forall j: nat | j < 4 ensures 0.0 <= Sides(q, w, AlongSegment(a, b, t))[j] {
      SidesAlong(q, w, a, b, t, j);
      BlendSign(Sides(q, w, a)[j], Sides(q, w, b)[j], t);
    }
  }

  lemma CornersAreInQuad(q: Rectangle, w: Winding)
    requires ConvexQuad(q, w)
    ensures InQuad(q, w, q.p0) && InQuad(q, w, q.p1) && InQuad(q, w, q.p2) && InQuad(q, w, q.p3)
  {
    TurnRotates(w, q.p0, q.p1, q.p2);
    TurnRotates(w, q.p1, q.p2, q.p3);
    TurnRotates(w, q.p2, q.p3, q.p0);
    TurnRotates(w, q.p3, q.p0, q.p1);
    TurnAtEnds(w, q.p0, q.p1);
    TurnAtEnds(w, q.p1, q.p2);
    TurnAtEnds(w, q.p2, q.p3);
    TurnAtEnds(w, q.p3, q.p0);
    hide Turn;
  }

  lemma TurnAtEnds(w: Winding, a: Point, b: Point)
    ensures Turn(w, a, b, a) == 0.0 && Turn(w, a, b, b) == 0.0
  {}
}
