/** Pushing overlapping circles apart: calculateDisplacement and moveAlongNormal of Host/game.cpp. */
module Pushes {
  import opened Geometry
  import opened Heron

  function Normalized(m: Libm, v: Point): Point {
    Point(Quotient(m, v.x, Length(m, v)), Quotient(m, v.y, Length(m, v)))
  }

  /** Unit vector from the second centre to the first, and the depth of the overlap. */
  function CircleDisplacement(m: Libm, c1: Circle, c2: Circle): (Point, real) {
    (Normalized(m, Minus(c1.centre, c2.centre)), c1.r + c2.r - Distance(m, c1.centre, c2.centre))
  }

  /** Left normal of the directed edge, and the depth of the overlap. */
  function EdgeDisplacement(m: Libm, c: Circle, a: Point, b: Point): (Point, real) {
    (Normalized(m, Point(-(b.y - a.y), b.x - a.x)), c.r - TriangleHeight(m, c.centre, a, b))
  }

  function Moved(c: Circle, step: Point): Circle {
    Circle(Plus(c.centre, step), c.r)
  }

  /** Two players share the displacement. */
  function PushApart(m: Libm, c1: Circle, c2: Circle): (Circle, Circle) {
    var (n, d) := CircleDisplacement(m, c1, c2);
    (Moved(c1, Scale(n, d / 2.0)), Moved(c2, Scale(Scale(n, d / 2.0), -1.0)))
  }

  function PushOffCircle(m: Libm, c: Circle, obstacle: Circle): Circle {
    var (n, d) := CircleDisplacement(m, c, obstacle);
    Moved(c, Scale(n, d))
  }

  function PushOffEdge(m: Libm, c: Circle, a: Point, b: Point): Circle {
    var (n, d) := EdgeDisplacement(m, c, a, b);
    Moved(c, Scale(n, d))
  }

  // ---------- circle against circle ----------

  lemma LengthIsDistance(m: Libm, a: Point, b: Point)
    requires m.Exact()
    ensures Length(m, Minus(a, b)) == Distance(m, a, b)
  {
    Dist2Sign(a, b);
  }

  /** Whatever the displacement, the two moves cancel in the sum of the centres. */
  lemma PushApartKeepsSum(m: Libm, c1: Circle, c2: Circle)
    ensures var (d1, d2) := PushApart(m, c1, c2);
            Plus(d1.centre, d2.centre) == Plus(c1.centre, c2.centre) && d1.r == c1.r && d2.r == c2.r
  {
    hide Normalized, Distance;
  }

  /** x + (x/l)(r-l) == (x/l)r */
  lemma RescaledCoordinate(x: real, l: real, r: real)
    requires l != 0.0
    ensures x + (x / l) * (r - l) == (x / l) * r
  {
    assert (x / l) * l == x;
    assert (x / l) * (r - l) == (x / l) * r - (x / l) * l;
  }

  lemma RescaledDistance(m: Libm, x: real, y: real, l: real, r: real, a: Point, b: Point)
    requires m.Exact() && 0.0 < l && l * l == Square(x) + Square(y) && 0.0 <= r
    requires a.x - b.x == (x / l) * r && a.y - b.y == (y / l) * r
    ensures Distance(m, a, b) == r && Dist2(a, b) == Square(r)
  {
    var u, v := x / l, y / l;
    assert u * l == x && v * l == y;
    UnitVector(u, v, l, x, y);
    UnitTimes(u, v, r, a.x - b.x, a.y - b.y);
    Dist2Sign(a, b);
    SqrtIs(m, Dist2(a, b), r);
  }

  lemma UnitVector(u: real, v: real, l: real, x: real, y: real)
    requires 0.0 < l && x == u * l && y == v * l && l * l == Square(x) + Square(y)
    ensures u * u + v * v == 1.0
  {
    var ll := l * l;
    PositiveProduct(l, l, ll);
    assert Square(x) == u * u * ll && Square(y) == v * v * ll;
    CancelFactor(u * u + v * v, 1.0, ll);
  }

  lemma UnitTimes(u: real, v: real, r: real, x: real, y: real)
    requires u * u + v * v == 1.0 && x == u * r && y == v * r
    ensures Square(x) + Square(y) == Square(r)
  {
    assert Square(x) + Square(y) == (u * u + v * v) * Square(r);
  }

  /** Two players with distinct centres end up exactly touching, and no longer collide. */
  lemma PushApartTouches(m: Libm, c1: Circle, c2: Circle)
    requires m.Exact() && c1.centre != c2.centre && 0.0 <= c1.r + c2.r
    ensures var (d1, d2) := PushApart(m, c1, c2);
            Distance(m, d1.centre, d2.centre) == c1.r + c2.r && !CirclesCollide(d1, d2)
  {
    var l, r := Distance(m, c1.centre, c2.centre), c1.r + c2.r;
    var x, y := c1.centre.x - c2.centre.x, c1.centre.y - c2.centre.y;
    var (d1, d2) := PushApart(m, c1, c2);
    DistanceSpec(m, c1.centre, c2.centre);
    Dist2Sign(c1.centre, c2.centre);
    LengthIsDistance(m, c1.centre, c2.centre);
    HalvesAddUp(c1.centre.x, c2.centre.x, x / l, r - l, d1.centre.x, d2.centre.x);
    HalvesAddUp(c1.centre.y, c2.centre.y, y / l, r - l, d1.centre.y, d2.centre.y);
    RescaledCoordinate(x, l, r);
    RescaledCoordinate(y, l, r);
    RescaledDistance(m, x, y, l, r, d1.centre, d2.centre);
    TouchingIsNoCollision(d1, d2);
  }

  lemma HalvesAddUp(p: real, q: real, n: real, d: real, p': real, q': real)
    requires p' == p + n * (d / 2.0) && q' == q + n * (d / 2.0) * -1.0
    ensures p' - q' == (p - q) + n * d
  {
    assert n * (d / 2.0) + n * (d / 2.0) == n * d;
  }

  lemma TouchingIsNoCollision(c1: Circle, c2: Circle)
    requires Dist2(c1.centre, c2.centre) == Square(c1.r + c2.r)
    ensures !CirclesCollide(c1, c2)
  {
    Dist2Sign(c1.centre, c2.centre);
  }

  /** Against a fixed obstacle the player takes the whole displacement. */
  lemma PushOffCircleTouches(m: Libm, c: Circle, o: Circle)
    requires m.Exact() && c.centre != o.centre && 0.0 <= c.r + o.r
    ensures var d := PushOffCircle(m, c, o);
            Distance(m, d.centre, o.centre) == c.r + o.r && !CirclesCollide(d, o)
  {
    var l, r := Distance(m, c.centre, o.centre), c.r + o.r;
    var x, y := c.centre.x - o.centre.x, c.centre.y - o.centre.y;
    var d := PushOffCircle(m, c, o);
    DistanceSpec(m, c.centre, o.centre);
    Dist2Sign(c.centre, o.centre);
    LengthIsDistance(m, c.centre, o.centre);
    RescaledCoordinate(x, l, r);
    RescaledCoordinate(y, l, r);
    assert d.centre.x == c.centre.x + (x / l) * (r - l) && d.centre.y == c.centre.y + (y / l) * (r - l);
    RescaledDistance(m, x, y, l, r, d.centre, o.centre);
    TouchingIsNoCollision(d, o);
  }

  // ---------- circle against directed edge ----------

  predicate UnitLength(d: Point) {
    d.x * d.x + d.y * d.y == 1.0
  }

  /** The point t along direction d from a, and s to its left. */
  function InFrame(a: Point, d: Point, t: real, s: real): Point {
    Point(a.x + t * d.x - s * d.y, a.y + t * d.y + s * d.x)
  }

  lemma FrameDist2(a: Point, d: Point, t: real, s: real, t': real, s': real)
    requires UnitLength(d)
    ensures Dist2(InFrame(a, d, t, s), InFrame(a, d, t', s')) == Square(t' - t) + Square(s' - s)
  {
    var p, q := t' - t, s' - s;
    var x, y := p * d.x - q * d.y, p * d.y + q * d.x;
    assert InFrame(a, d, t', s').x - InFrame(a, d, t, s).x == x;
    assert InFrame(a, d, t', s').y - InFrame(a, d, t, s).y == y;
    RotationKeepsLength(d.x, d.y, p, q);
  }

  lemma RotationKeepsLength(c: real, s: real, p: real, q: real)
    requires c * c + s * s == 1.0
    ensures Square(p * c - q * s) + Square(p * s + q * c) == Square(p) + Square(q)
  {
    assert Square(p * c - q * s) + Square(p * s + q * c) == (c * c + s * s) * (Square(p) + Square(q));
  }

  lemma FrameCross(a: Point, d: Point, l: real, t: real, s: real)
    requires UnitLength(d)
    ensures Cross(a, InFrame(a, d, l, 0.0), InFrame(a, d, t, s)) == Times(l, s)
  {
    CrossReal(d.x, d.y, l, t, s);
  }

  lemma CrossReal(c: real, d: real, l: real, t: real, s: real)
    requires c * c + d * d == 1.0
    ensures (l * c) * (t * d + s * c) - (l * d) * (t * c - s * d) == l * s
  {
    assert (l * c) * (t * d + s * c) - (l * d) * (t * c - s * d) == l * s * (c * c + d * d);
  }

  lemma FrameDistance(m: Libm, a: Point, d: Point, t: real, s: real, t': real, s': real, dist: real)
    requires m.Exact() && UnitLength(d) && 0.0 <= dist && Square(dist) == Square(t' - t) + Square(s' - s)
    ensures Distance(m, InFrame(a, d, t, s), InFrame(a, d, t', s')) == dist
  {
    FrameDist2(a, d, t, s, t', s');
    SqrtIs(m, Dist2(InFrame(a, d, t, s), InFrame(a, d, t', s')), dist);
  }

  /** The height over an edge is the absolute signed distance s. */
  lemma FrameHeight(m: Libm, a: Point, d: Point, l: real, t: real, s: real)
    requires m.Exact() && UnitLength(d) && 0.0 < l
    ensures TriangleHeight(m, InFrame(a, d, t, s), a, InFrame(a, d, l, 0.0)) == Abs(s)
  {
    var b, p := InFrame(a, d, l, 0.0), InFrame(a, d, t, s);
    FrameDistance(m, a, d, 0.0, 0.0, l, 0.0, l);
    assert InFrame(a, d, 0.0, 0.0) == a;
    DistanceSpec(m, a, b);
    HeightIsDistanceToLine(m, p, a, b);
    FrameCross(a, d, l, t, s);
    AbsOfProduct(l, s);
  }

  lemma AbsOfProduct(l: real, s: real)
    requires 0.0 < l
    ensures Abs(Times(l, s)) / l == Abs(s)
  {
    AbsTimes(l, s, Times(l, s));
    QuotientOfProduct(Abs(s), l, Abs(Times(l, s)));
  }

  lemma AbsTimes(l: real, s: real, ls: real)
    requires 0.0 < l && ls == l * s
    ensures Abs(ls) == Abs(s) * l
  {
    if s < 0.0 {
      PositiveProduct(l, -s, -ls);
    } else {
      NonNegativeProduct(l, s, ls);
    }
  }

  lemma FrameNormal(m: Libm, a: Point, d: Point, l: real)
    requires m.Exact() && UnitLength(d) && 0.0 < l
    ensures var b := InFrame(a, d, l, 0.0);
            Normalized(m, Point(-(b.y - a.y), b.x - a.x)) == Point(-d.y, d.x)
  {
    var b := InFrame(a, d, l, 0.0);
    var n := Point(-(b.y - a.y), b.x - a.x);
    assert n.x == -d.y * l && n.y == d.x * l;
    hide InFrame;
    ScaledUnit(m, Point(-d.y, d.x), l, n);
  }

  lemma ScaledUnit(m: Libm, d: Point, l: real, n: Point)
    requires m.Exact() && UnitLength(d) && 0.0 < l && n.x == d.x * l && n.y == d.y * l
    ensures Normalized(m, n) == d
  {
    UnitTimes(d.x, d.y, l, n.x, n.y);
    SqrtIs(m, Square(l), l);
    QuotientOfProduct(d.x, l, n.x);
    QuotientOfProduct(d.y, l, n.y);
  }

  lemma FrameShift(a: Point, d: Point, t: real, s: real, k: real)
    ensures Plus(InFrame(a, d, t, s), Scale(Point(-d.y, d.x), k)) == InFrame(a, d, t, s + k)
  {
    assert s * d.x + k * d.x == (s + k) * d.x && s * d.y + k * d.y == (s + k) * d.y;
  }

  /** Pushing off a directed edge moves the centre along the left normal only, and turns its signed
      distance s from the line into s + r - |s|. */
  lemma PushOffEdgeExact(m: Libm, a: Point, d: Point, l: real, t: real, s: real, r: real)
    requires m.Exact() && UnitLength(d) && 0.0 < l
    ensures PushOffEdge(m, Circle(InFrame(a, d, t, s), r), a, InFrame(a, d, l, 0.0))
         == Circle(InFrame(a, d, t, s + r - Abs(s)), r)
  {
    hide Normalized, TriangleHeight, Abs, InFrame, UnitLength;
    FrameHeight(m, a, d, l, t, s);
    FrameNormal(m, a, d, l);
    FrameShift(a, d, t, s, r - Abs(s));
    assert s + (r - Abs(s)) == s + r - Abs(s);
  }

  /** Every edge and every point can be described in a frame, so the statement above misses none. */
  lemma FrameExists(m: Libm, a: Point, b: Point, p: Point) returns (d: Point, t: real, s: real)
    requires m.Exact() && a != b
    ensures UnitLength(d) && b == InFrame(a, d, Distance(m, a, b), 0.0) && p == InFrame(a, d, t, s)
  {
    var l := Distance(m, a, b);
    DistanceSpec(m, a, b);
    assert 0.0 < l && l * l == Square(b.x - a.x) + Square(b.y - a.y);
    hide Distance, Square;
    d := Point((b.x - a.x) / l, (b.y - a.y) / l);
    DividedBack(b.x - a.x, l);
    DividedBack(b.y - a.y, l);
    UnitVector(d.x, d.y, l, b.x - a.x, b.y - a.y);
    var w := Minus(p, a);
    t, s := w.x * d.x + w.y * d.y, d.x * w.y - d.y * w.x;
    ResolveInFrame(d.x, d.y, w.x, w.y);
  }

  lemma DividedBack(x: real, l: real)
    requires 0.0 < l
    ensures x / l * l == x && l * (x / l) == x
  {}

  lemma ResolveInFrame(c: real, s: real, x: real, y: real)
    requires c * c + s * s == 1.0
    ensures (x * c + y * s) * c - (c * y - s * x) * s == x
    ensures (x * c + y * s) * s + (c * y - s * x) * c == y
  {
    assert (x * c + y * s) * c - (c * y - s * x) * s == x * (c * c + s * s);
    assert (x * c + y * s) * s + (c * y - s * x) * c == y * (c * c + s * s);
  }

  /** From the inner side one push is enough: it leaves the centre exactly r away, and a second changes nothing. */
  lemma SecondPushIsNoOp(m: Libm, c: Circle, a: Point, b: Point)
    requires m.Exact() && a != b && 0.0 <= c.r && 0.0 <= Cross(a, b, c.centre)
    ensures var c1 := PushOffEdge(m, c, a, b);
            TriangleHeight(m, c1.centre, a, b) == c.r && PushOffEdge(m, c1, a, b) == c1
  {
    var d, t, s := FrameExists(m, a, b, c.centre);
    var l := Distance(m, a, b);
    DistanceSpec(m, a, b);
    FrameCross(a, d, l, t, s);
    if s < 0.0 {
      PositiveProduct(l, -s, -Times(l, s));
    }
    hide PushOffEdge, TriangleHeight, InFrame, UnitLength, Times, Cross;
    PushOffEdgeExact(m, a, d, l, t, s, c.r);
    FrameHeight(m, a, d, l, t, c.r);
    PushOffEdgeExact(m, a, d, l, t, c.r, c.r);
  }
}
