/** Points, circles and quadrilaterals, and the collision tests of Host/collisions.cpp, over exact reals. */
module Geometry {

  datatype Point = Point(x: real, y: real)

  datatype Circle = Circle(centre: Point, r: real)

  /** Four corners in the order of the map file; any quadrilateral is allowed. */
  datatype Rectangle = Rectangle(p0: Point, p1: Point, p2: Point, p3: Point)

  /** The parts of the C maths library the game calls.
      `nan` stands for the value of 0/0: nothing is known about it. */
  datatype Libm = Libm(sqrt: real -> real, cos: real -> real, sin: real -> real, nan: real) {
    ghost predicate Exact() {
      && (forall x :: 0.0 <= x ==> 0.0 <= sqrt(x) && sqrt(x) * sqrt(x) == x)
      && (forall t :: cos(t) * cos(t) + sin(t) * sin(t) == 1.0)
    }
  }

  function Square(x: real): real {
    x * x
  }

  function Times(x: real, y: real): real {
    x * y
  }

  function Abs(x: real): real {
    if x < 0.0 then -x else x
  }

  function Plus(a: Point, b: Point): Point {
    Point(a.x + b.x, a.y + b.y)
  }

  function Minus(a: Point, b: Point): Point {
    Point(a.x - b.x, a.y - b.y)
  }

  function Scale(a: Point, k: real): Point {
    Point(a.x * k, a.y * k)
  }

  function Quotient(m: Libm, x: real, y: real): real {
    if y == 0.0 then m.nan else x / y
  }

  function Length(m: Libm, a: Point): real {
    m.sqrt(Square(a.x) + Square(a.y))
  }

  function Distance(m: Libm, a: Point, b: Point): real {
    m.sqrt(Square(b.x - a.x) + Square(b.y - a.y))
  }

  /** p(p-|ab|)(p-|bc|)(p-|ca|), with p half the perimeter. */
  function HeronProduct(ab: real, bc: real, ca: real): real {
    var p := (ab + bc + ca) / 2.0;
    p * (p - ab) * (p - bc) * (p - ca)
  }

  function TriangleArea(m: Libm, a: Point, b: Point, c: Point): real {
    m.sqrt(HeronProduct(Distance(m, a, b), Distance(m, b, c), Distance(m, c, a)))
  }

  /** The height dropped from a onto the line bc. */
  function TriangleHeight(m: Libm, a: Point, b: Point, c: Point): real {
    Quotient(m, 2.0 * TriangleArea(m, a, b, c), Distance(m, b, c))
  }

  predicate CirclesCollide(c1: Circle, c2: Circle) {
    Square(c1.centre.x - c2.centre.x) + Square(c1.centre.y - c2.centre.y) < Square(c1.r + c2.r) - 0.0000000001
  }

  predicate CirclePointCollide(m: Libm, c: Circle, a: Point) {
    m.sqrt(Square(c.centre.x - a.x) + Square(c.centre.y - a.y)) <= c.r
  }

  function AlongSegment(a: Point, b: Point, t: real): Point {
    Point(a.x + t * (b.x - a.x), a.y + t * (b.y - a.y))
  }

  /** How far along ab, in multiples of its length, the foot of the perpendicular from p lies. */
  function ClosestParameter(p: Point, a: Point, b: Point, length: real): real
    requires length != 0.0
  {
    ((p.x - a.x) * (b.x - a.x) + (p.y - a.y) * (b.y - a.y)) / (length * length)
  }

  const LENGTH_TOLERANCE := 0.01
  const AREA_TOLERANCE := 0.01

  predicate CircleSegmentCollide(m: Libm, c: Circle, a: Point, b: Point) {
    if CirclePointCollide(m, c, a) || CirclePointCollide(m, c, b) then true
    else
      var length := Distance(m, a, b);
      if length == 0.0 then false // 0/0 is a NaN and fails both comparisons with the length
      else
        var closest := AlongSegment(a, b, ClosestParameter(c.centre, a, b, length));
        var ends := Distance(m, a, closest) + Distance(m, b, closest);
        if !(length - LENGTH_TOLERANCE <= ends <= length + LENGTH_TOLERANCE) then false
        else Distance(m, closest, c.centre) <= c.r
  }

  /** The four triangles spanned by the edges and p. */
  function FanArea(m: Libm, q: Rectangle, p: Point): real {
    TriangleArea(m, q.p0, q.p1, p) + TriangleArea(m, q.p1, q.p2, p)
    + TriangleArea(m, q.p2, q.p3, p) + TriangleArea(m, q.p3, q.p0, p)
  }

  /** The two triangles on either side of a diagonal. */
  function QuadArea(m: Libm, q: Rectangle): real {
    TriangleArea(m, q.p0, q.p1, q.p2) + TriangleArea(m, q.p2, q.p3, q.p0)
  }

  predicate CentreTest(m: Libm, q: Rectangle, p: Point) {
    QuadArea(m, q) - AREA_TOLERANCE <= FanArea(m, q, p) <= QuadArea(m, q) + AREA_TOLERANCE
  }

  predicate CircleQuadCollide(m: Libm, c: Circle, q: Rectangle) {
    if CentreTest(m, q, c.centre) then true
    else if CircleSegmentCollide(m, c, q.p0, q.p1) || CircleSegmentCollide(m, c, q.p1, q.p2) then true
    else if CircleSegmentCollide(m, c, q.p2, q.p3) || CircleSegmentCollide(m, c, q.p3, q.p0) then true
    else false
  }

  // ---------- the sqrt-free quantities the proofs speak about ----------

  function Dist2(a: Point, b: Point): real {
    Square(b.x - a.x) + Square(b.y - a.y)
  }

  function Dot(a: Point, b: Point): real {
    a.x * b.x + a.y * b.y
  }

  /** Twice the signed area of abc: positive when c lies to the left of the ray ab. */
  function Cross(a: Point, b: Point, c: Point): real {
    (b.x - a.x) * (c.y - a.y) - (b.y - a.y) * (c.x - a.x)
  }

  /** p and q are at most d apart. */
  predicate Within(p: Point, q: Point, d: real) {
    0.0 <= d && Dist2(p, q) <= Square(d)
  }

  // Sign rules. The product is a parameter of its own, which keeps the solver from rewriting it away.

  lemma NonNegativeProduct(x: real, y: real, xy: real)
    requires 0.0 <= x && 0.0 <= y && xy == x * y
    ensures 0.0 <= xy
  {}

  lemma PositiveProduct(x: real, y: real, xy: real)
    requires 0.0 < x && 0.0 < y && xy == x * y
    ensures 0.0 < xy
  {}

  lemma TimesDistributes(k: real, x: real, y: real, sum: real)
    requires sum == x + y
    ensures Times(k, sum) == Times(k, x) + Times(k, y)
  {}

  lemma TimesUnits(k: real)
    ensures Times(0.0, k) == 0.0 && Times(1.0, k) == k
  {}

  lemma TimesIsMonotone(x: real, y: real, k: real)
    requires 0.0 <= k && x <= y
    ensures Times(x, k) <= Times(y, k)
  {
    NonNegativeProduct(y - x, k, (y - x) * k);
  }

  lemma CancelFactor(x: real, y: real, d: real)
    requires 0.0 < d && x * d == y * d
    ensures x == y
  {
    if x < y {
      PositiveProduct(y - x, d, 0.0);
    } else if y < x {
      PositiveProduct(x - y, d, 0.0);
    }
  }

  lemma QuotientOfProduct(x: real, l: real, xl: real)
    requires 0.0 < l && xl == x * l
    ensures xl / l == x
  {
    assert (xl / l) * l == xl;
    CancelFactor(xl / l, x, l);
  }

  lemma SquareSign(x: real)
    ensures 0.0 <= Square(x)
    ensures x != 0.0 ==> 0.0 < Square(x)
    ensures Square(-x) == Square(x)
  {
    if 0.0 < x {
      PositiveProduct(x, x, Square(x));
    } else if x < 0.0 {
      PositiveProduct(-x, -x, Square(x));
    }
  }

  lemma Dist2Sign(a: Point, b: Point)
    ensures 0.0 <= Dist2(a, b) && Dist2(a, b) == Dist2(b, a)
    ensures a == b ==> Dist2(a, b) == 0.0
    ensures a != b ==> 0.0 < Dist2(a, b)
  {
    SquareSign(b.x - a.x);
    SquareSign(b.y - a.y);
    assert -(b.x - a.x) == a.x - b.x && -(b.y - a.y) == a.y - b.y;
  }

  /** Squaring is monotone on the non-negative reals, both ways. */
  lemma CompareSquares(x: real, y: real)
    requires 0.0 <= x && 0.0 <= y
    ensures x <= y <==> x * x <= y * y
    ensures x == y <==> x * x == y * y
  {
    if x < y {
      PositiveProduct(y - x, y + x, y * y - x * x);
    } else if y < x {
      PositiveProduct(x - y, x + y, x * x - y * y);
    }
  }

  lemma SqrtSpec(m: Libm, x: real)
    requires m.Exact() && 0.0 <= x
    ensures 0.0 <= m.sqrt(x) && m.sqrt(x) * m.sqrt(x) == x
  {}

  /** The square root is determined: a non-negative number squaring to x is sqrt(x). */
  lemma SqrtIs(m: Libm, x: real, root: real)
    requires m.Exact() && 0.0 <= root && root * root == x
    ensures m.sqrt(x) == root
  {
    NonNegativeProduct(root, root, x);
    SqrtSpec(m, x);
    CompareSquares(m.sqrt(x), root);
  }

  lemma DistanceSpec(m: Libm, a: Point, b: Point)
    requires m.Exact()
    ensures 0.0 <= Distance(m, a, b) && Distance(m, a, b) * Distance(m, a, b) == Dist2(a, b)
    ensures a == b ==> Distance(m, a, b) == 0.0
    ensures a != b ==> 0.0 < Distance(m, a, b)
    ensures Distance(m, a, b) == Distance(m, b, a)
  {
    Dist2Sign(a, b);
    SqrtSpec(m, Dist2(a, b));
    if a == b {
      SqrtIs(m, 0.0, 0.0);
    }
  }

  lemma DistanceAtMost(m: Libm, a: Point, b: Point, d: real)
    requires m.Exact()
    ensures Distance(m, a, b) <= d <==> Within(a, b, d)
  {
    DistanceSpec(m, a, b);
    if 0.0 <= d {
      CompareSquares(Distance(m, a, b), d);
    }
  }

  lemma CirclePointSpec(m: Libm, c: Circle, a: Point)
    requires m.Exact()
    ensures CirclePointCollide(m, c, a) <==> Within(c.centre, a, c.r)
  {
    Dist2Sign(c.centre, a);
    DistanceAtMost(m, a, c.centre, c.r);
  }

  /** |d.k| <= |d||k| for lengths given by their squares. */
  lemma CauchySchwarz(d: Point, k: Point, dn: real, kn: real)
    requires 0.0 <= dn && 0.0 <= kn
    requires dn * dn == Dot(d, d) && kn * kn == Dot(k, k)
    ensures -(dn * kn) <= Dot(d, k) <= dn * kn
  {
    var dot := Dot(d, k);
    Lagrange(d, k);
    SquareSign(d.x * k.y - d.y * k.x);
    assert (dn * kn) * (dn * kn) == Dot(d, d) * Dot(k, k) by {
      assert (dn * kn) * (dn * kn) == (dn * dn) * (kn * kn);
    }
    NonNegativeProduct(dn, kn, dn * kn);
    SquareSign(dot);
    CompareSquares(Abs(dot), dn * kn);
  }

  lemma Lagrange(d: Point, k: Point)
    ensures Times(Dot(d, d), Dot(k, k)) == Square(Dot(d, k)) + Square(d.x * k.y - d.y * k.x)
  {
    var a, b, c, e := d.x, d.y, k.x, k.y;
    assert Dot(d, d) * Dot(k, k) == (a*a)*(c*c) + (a*a)*(e*e) + (b*b)*(c*c) + (b*b)*(e*e);
    assert Square(Dot(d, k)) == (a*c)*(a*c) + 2.0*((a*c)*(b*e)) + (b*e)*(b*e);
    assert Square(a*e - b*c) == (a*e)*(a*e) - 2.0*((a*e)*(b*c)) + (b*c)*(b*c);
  }
}
