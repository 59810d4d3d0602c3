/** What circleLineSegmentCollision (Host/collisions.cpp) decides, in both directions. */
module SegmentTest {
  import opened Geometry

  /** Some point of the closed segment ab lies in the closed disc. */
  ghost predicate DiscMeetsSegment(c: Circle, a: Point, b: Point) {
    exists t :: 0.0 <= t <= 1.0 && Within(c.centre, AlongSegment(a, b, t), c.r)
  }

  /** Some point of the closed segment ab is closer to p than the squared bound. */
  ghost predicate SegmentNearer(p: Point, a: Point, b: Point, bound2: real) {
    exists t :: 0.0 <= t <= 1.0 && Dist2(p, AlongSegment(a, b, t)) <= bound2
  }

  /** The parameter of the foot of the perpendicular from p. */
  function Foot(p: Point, a: Point, b: Point): real
    requires a != b
  {
    Dist2Sign(a, b);
    Dot(Minus(p, a), Minus(b, a)) / Dist2(a, b)
  }

  /** The squared distance to the point at t, from |w|^2, w.u and |u|^2. */
  function Parabola(ww: real, wu: real, uu: real, t: real): real {
    ww - 2.0 * (t * wu) + t * t * uu
  }

  lemma ExpandStep(t: real, u: Point, w: Point, ww: real, wu: real, uu: real)
    requires ww == Dot(w, w) && wu == Dot(w, u) && uu == Square(u.x) + Square(u.y)
    ensures Square(t * u.x - w.x) + Square(t * u.y - w.y) == Parabola(ww, wu, uu, t)
  {}

  lemma AlongDist2(p: Point, a: Point, b: Point, t: real)
    ensures Dist2(p, AlongSegment(a, b, t))
         == Parabola(Dot(Minus(p, a), Minus(p, a)), Dot(Minus(p, a), Minus(b, a)), Dist2(a, b), t)
  {
    hide Square, Parabola;
    var u, w := Minus(b, a), Minus(p, a);
    var q := AlongSegment(a, b, t);
    assert q.x - p.x == t * u.x - w.x && q.y - p.y == t * u.y - w.y;
    ExpandStep(t, u, w, Dot(w, w), Dot(w, u), Dist2(a, b));
  }

  lemma ParabolaAtFoot(ww: real, wu: real, uu: real, foot: real, t: real)
    requires foot * uu == wu
    ensures Parabola(ww, wu, uu, t) == Parabola(ww, wu, uu, foot) + Times(Square(t - foot), uu)
  {
    assert t * wu == t * foot * uu && foot * wu == foot * foot * uu;
    assert Square(t - foot) * uu == t * t * uu - 2.0 * (t * foot * uu) + foot * foot * uu;
  }

  /** Pythagoras: away from the foot the squared distance grows by the squared step. */
  lemma FootIsClosest(p: Point, a: Point, b: Point, t: real)
    requires a != b
    ensures Dist2(p, AlongSegment(a, b, t))
         == Dist2(p, AlongSegment(a, b, Foot(p, a, b))) + Times(Square(t - Foot(p, a, b)), Dist2(a, b))
  {
    var foot := Foot(p, a, b);
    FootSpec(p, a, b);
    hide *;
    AlongDist2(p, a, b, t);
    AlongDist2(p, a, b, foot);
    ParabolaAtFoot(Dot(Minus(p, a), Minus(p, a)), Dot(Minus(p, a), Minus(b, a)), Dist2(a, b), foot, t);
  }

  lemma FootSpec(p: Point, a: Point, b: Point)
    requires a != b
    ensures Foot(p, a, b) * Dist2(a, b) == Dot(Minus(p, a), Minus(b, a))
  {
    hide Dist2, Dot, Minus;
    Dist2Sign(a, b);
  }

  lemma AlongFromStart(a: Point, b: Point, t: real)
    ensures Minus(AlongSegment(a, b, t), a) == Scale(Minus(b, a), t)
  {}

  lemma AlongFromEnd(a: Point, b: Point, t: real)
    ensures Minus(AlongSegment(a, b, t), b) == Scale(Minus(a, b), 1.0 - t)
  {
    AlongCoordinate(a.x, b.x, t);
    AlongCoordinate(a.y, b.y, t);
  }

  lemma AlongCoordinate(x: real, y: real, t: real)
    ensures x + t * (y - x) - y == (x - y) * (1.0 - t)
  {
    assert t * (y - x) == (y - x) - (y - x) * (1.0 - t);
  }

  lemma DistancesAlong(m: Libm, a: Point, b: Point, t: real)
    requires m.Exact()
    ensures Distance(m, a, AlongSegment(a, b, t)) == Abs(t) * Distance(m, a, b)
    ensures Distance(m, b, AlongSegment(a, b, t)) == Abs(1.0 - t) * Distance(m, a, b)
  {
    AlongFromStart(a, b, t);
    AlongFromEnd(a, b, t);
    DistanceSpec(m, a, b);
    hide *;
    ScaledDistance(m, a, b, AlongSegment(a, b, t), t);
    ScaledDistance(m, b, a, AlongSegment(a, b, t), 1.0 - t);
  }

  lemma ScaledDistance(m: Libm, a: Point, b: Point, p: Point, t: real)
    requires m.Exact() && Minus(p, a) == Scale(Minus(b, a), t)
    ensures Distance(m, a, p) == Abs(t) * Distance(m, a, b)
  {
    ScaledDist2(a, b, p, t);
    hide *;
    var l := Distance(m, a, b);
    DistanceSpec(m, a, b);
    var root := Abs(t) * l;
    ScaledRoot(t, l, Dist2(a, b), root);
    DistanceIsRoot(m, a, p, root);
  }

  lemma ScaledDist2(a: Point, b: Point, p: Point, t: real)
    requires Minus(p, a) == Scale(Minus(b, a), t)
    ensures Dist2(a, p) == Times(t * t, Dist2(a, b))
  {
    hide Square, Times;
    ScaledSquare(b.x - a.x, t, p.x - a.x);
    ScaledSquare(b.y - a.y, t, p.y - a.y);
    TimesDistributes(t * t, Square(b.x - a.x), Square(b.y - a.y), Dist2(a, b));
  }

  lemma ScaledSquare(x: real, t: real, xt: real)
    requires xt == x * t
    ensures Square(xt) == Times(t * t, Square(x))
  {}

  lemma ScaledRoot(t: real, l: real, d: real, root: real)
    requires 0.0 <= l && l * l == d && root == Abs(t) * l
    ensures 0.0 <= root && root * root == Times(t * t, d)
  {
    NonNegativeProduct(Abs(t), l, root);
    assert Abs(t) * Abs(t) == t * t;
    assert root * root == (Abs(t) * Abs(t)) * (l * l);
  }

  lemma DistanceIsRoot(m: Libm, a: Point, b: Point, root: real)
    requires m.Exact() && 0.0 <= root && root * root == Dist2(a, b)
    ensures Distance(m, a, b) == root
  {
    SqrtIs(m, Dist2(a, b), root);
  }

  /** The foot of the perpendicular overshoots neither end by more than half the length tolerance,
      and lies in the disc. */
  ghost predicate FootHit(m: Libm, c: Circle, a: Point, b: Point)
    requires a != b
  {
    var foot := Foot(c.centre, a, b);
    var l := Distance(m, a, b);
    -(LENGTH_TOLERANCE / 2.0) <= Times(foot, l) <= l + LENGTH_TOLERANCE / 2.0
    && Within(c.centre, AlongSegment(a, b, foot), c.r)
  }

  lemma ToleranceIsOvershoot(f: real, l: real)
    requires 0.0 < l
    ensures l - LENGTH_TOLERANCE <= Abs(f) * l + Abs(1.0 - f) * l <= l + LENGTH_TOLERANCE
       <==> -(LENGTH_TOLERANCE / 2.0) <= f * l <= l + LENGTH_TOLERANCE / 2.0
  {
    var fl := f * l;
    var gl := (1.0 - f) * l;
    assert fl + gl == l;
    if f < 0.0 {
      PositiveProduct(-f, l, -fl);
    } else if 1.0 < f {
      PositiveProduct(f - 1.0, l, -gl);
    } else {
      NonNegativeProduct(f, l, fl);
      NonNegativeProduct(1.0 - f, l, gl);
    }
  }

  lemma ParameterIsFoot(m: Libm, p: Point, a: Point, b: Point)
    requires m.Exact() && a != b
    ensures Distance(m, a, b) != 0.0
    ensures ClosestParameter(p, a, b, Distance(m, a, b)) == Foot(p, a, b)
  {
    hide Distance, Dist2;
    DistanceSpec(m, a, b);
    Dist2Sign(a, b);
    var dot := Dot(Minus(p, a), Minus(b, a));
    assert dot == (p.x - a.x) * (b.x - a.x) + (p.y - a.y) * (b.y - a.y);
    SameQuotient(dot, Distance(m, a, b) * Distance(m, a, b), Dist2(a, b));
  }

  lemma SameQuotient(x: real, y: real, z: real)
    requires y == z && z != 0.0
    ensures x / y == x / z
  {}

  /** Exactly when the test answers true, for every disc and every segment, degenerate ones included. */
  lemma SegmentTestExact(m: Libm, c: Circle, a: Point, b: Point)
    requires m.Exact()
    ensures CircleSegmentCollide(m, c, a, b)
       <==> Within(c.centre, a, c.r) || Within(c.centre, b, c.r) || (a != b && FootHit(m, c, a, b))
  {
    hide Distance, CirclePointCollide, AlongSegment, Dist2, Within, Foot, ClosestParameter;
    CirclePointSpec(m, c, a);
    CirclePointSpec(m, c, b);
    DistanceSpec(m, a, b);
    if a != b {
      var foot := Foot(c.centre, a, b);
      ParameterIsFoot(m, c.centre, a, b);
      DistancesAlong(m, a, b, foot);
      ToleranceIsOvershoot(foot, Distance(m, a, b));
      DistanceSpec(m, AlongSegment(a, b, foot), c.centre);
      DistanceAtMost(m, c.centre, AlongSegment(a, b, foot), c.r);
    }
  }

  lemma EndsAreAlong(a: Point, b: Point)
    ensures AlongSegment(a, b, 0.0) == a && AlongSegment(a, b, 1.0) == b
  {}

  /** Moving from t towards the foot, to s, brings the point closer. */
  lemma CloserToFoot(p: Point, a: Point, b: Point, s: real, t: real)
    requires a != b
    requires t <= s <= Foot(p, a, b) || Foot(p, a, b) <= s <= t
    ensures Dist2(p, AlongSegment(a, b, s)) <= Dist2(p, AlongSegment(a, b, t))
  {
    hide Dist2, Foot, AlongSegment;
    var foot := Foot(p, a, b);
    FootIsClosest(p, a, b, s);
    FootIsClosest(p, a, b, t);
    Dist2Sign(a, b);
    SquareSign(s - foot);
    SquareSign(t - foot);
    CompareSquares(Abs(s - foot), Abs(t - foot));
    TimesIsMonotone(Square(s - foot), Square(t - foot), Dist2(a, b));
  }

  /** Completeness: a disc that meets the segment is always reported. */
  lemma SegmentTestComplete(m: Libm, c: Circle, a: Point, b: Point)
    requires m.Exact() && DiscMeetsSegment(c, a, b)
    ensures CircleSegmentCollide(m, c, a, b)
  {
    var t :| 0.0 <= t <= 1.0 && Within(c.centre, AlongSegment(a, b, t), c.r);
    SegmentTestExact(m, c, a, b);
    EndsAreAlong(a, b);
    if a == b {
      assert AlongSegment(a, b, t) == a;
    } else {
      hide CircleSegmentCollide, Dist2, Square, Times, Distance, Foot, AlongSegment;
      var foot := Foot(c.centre, a, b);
      if foot < 0.0 {
        CloserToFoot(c.centre, a, b, 0.0, t);
      } else if 1.0 < foot {
        CloserToFoot(c.centre, a, b, 1.0, t);
      } else {
        CloserToFoot(c.centre, a, b, foot, t);
        DistanceSpec(m, a, b);
        TimesUnits(Distance(m, a, b));
        TimesIsMonotone(0.0, foot, Distance(m, a, b));
        TimesIsMonotone(foot, 1.0, Distance(m, a, b));
        assert FootHit(m, c, a, b);
      }
    }
  }

  /** Soundness: a reported segment comes within sqrt(r^2 + 0.005^2) of the centre. */
  lemma SegmentTestSound(m: Libm, c: Circle, a: Point, b: Point)
    requires m.Exact() && CircleSegmentCollide(m, c, a, b)
    ensures 0.0 <= c.r && SegmentNearer(c.centre, a, b, Square(c.r) + Square(LENGTH_TOLERANCE / 2.0))
  {
    SegmentTestExact(m, c, a, b);
    EndsAreAlong(a, b);
    SquareSign(LENGTH_TOLERANCE / 2.0);
    hide CircleSegmentCollide, Dist2, Square, Times, Distance, Foot, AlongSegment;
    if Within(c.centre, a, c.r) {
      assert Dist2(c.centre, AlongSegment(a, b, 0.0)) <= Square(c.r);
    } else if Within(c.centre, b, c.r) {
      assert Dist2(c.centre, AlongSegment(a, b, 1.0)) <= Square(c.r);
    } else {
      var foot := Foot(c.centre, a, b);
      DistanceSpec(m, a, b);
      var t := if foot < 0.0 then 0.0 else if 1.0 < foot then 1.0 else foot;
      FootIsClosest(c.centre, a, b, t);
      OvershootSquared(foot, t, Distance(m, a, b), Dist2(a, b));
      assert Dist2(c.centre, AlongSegment(a, b, t)) <= Square(c.r) + Square(LENGTH_TOLERANCE / 2.0);
    }
  }

  lemma OvershootSquared(foot: real, t: real, l: real, d: real)
    requires 0.0 < l && l * l == d
    requires t == (if foot < 0.0 then 0.0 else if 1.0 < foot then 1.0 else foot)
    requires -(LENGTH_TOLERANCE / 2.0) <= Times(foot, l) <= l + LENGTH_TOLERANCE / 2.0
    ensures Times(Square(t - foot), d) <= Square(LENGTH_TOLERANCE / 2.0)
  {
    var over := Abs(t - foot) * l;
    assert Times(Square(t - foot), d) == over * over by {
      assert Abs(t - foot) * Abs(t - foot) == Square(t - foot);
      assert over * over == (Abs(t - foot) * Abs(t - foot)) * (l * l);
    }
    NonNegativeProduct(Abs(t - foot), l, over);
    assert over <= LENGTH_TOLERANCE / 2.0 by {
      assert foot < 0.0 ==> over == -(foot * l);
      assert 1.0 < foot ==> over == foot * l - l;
    }
    CompareSquares(over, LENGTH_TOLERANCE / 2.0);
  }

  /** The same bound as a distance: nowhere does the test report a segment further than r + 0.005. */
  lemma SegmentTestSoundDistance(m: Libm, c: Circle, a: Point, b: Point)
    requires m.Exact() && CircleSegmentCollide(m, c, a, b)
    ensures exists t :: 0.0 <= t <= 1.0
              && Distance(m, c.centre, AlongSegment(a, b, t)) <= c.r + LENGTH_TOLERANCE / 2.0
  {
    SegmentTestSound(m, c, a, b);
    hide CircleSegmentCollide, Dist2, Square, AlongSegment, Distance;
    var t :| 0.0 <= t <= 1.0
             && Dist2(c.centre, AlongSegment(a, b, t)) <= Square(c.r) + Square(LENGTH_TOLERANCE / 2.0);
    SumOfSquares(c.r, LENGTH_TOLERANCE / 2.0);
    DistanceAtMost(m, c.centre, AlongSegment(a, b, t), c.r + LENGTH_TOLERANCE / 2.0);
  }

  lemma SumOfSquares(x: real, y: real)
    requires 0.0 <= x && 0.0 <= y
    ensures Square(x) + Square(y) <= Square(x + y)
  {
    NonNegativeProduct(x, y, x * y);
  }
}
