/** Heron's formula, as Host/collisions.cpp evaluates it, is half the absolute cross product. */
module Heron {
  import opened Geometry

  /** (x+y+z)(-x+y+z)(x-y+z)(x+y-z) is a polynomial in the squares of the sides. */
  lemma HeronPolynomial(x: real, y: real, z: real)
    ensures 16.0 * HeronProduct(x, y, z) == 4.0 * Times(x * x, z * z) - Square(x * x + z * z - y * y)
  {
    var p := (x + y + z) / 2.0;
    var u := p * (p - y);
    var v := (p - x) * (p - z);
    assert 4.0 * u == (x + z) * (x + z) - y * y;
    assert 4.0 * v == y * y - (x - z) * (x - z);
    assert HeronProduct(x, y, z) == u * v;
    var s := x * x + z * z - y * y;
    var d := 2.0 * (x * z);
    assert 4.0 * u == d + s && 4.0 * v == d - s;
    assert 16.0 * (u * v) == (4.0 * u) * (4.0 * v);
    assert (d + s) * (d - s) == d * d - s * s;
    assert d * d == 4.0 * ((x * x) * (z * z));
  }

  /** Sides and cross product in terms of the two edge vectors at a. */
  lemma SidesAsVectors(a: Point, b: Point, c: Point, u: Point, v: Point)
    requires u == Minus(b, a) && v == Minus(c, a)
    ensures Dist2(a, b) == Dot(u, u) && Dist2(c, a) == Dot(v, v)
    ensures Dist2(b, c) == Dot(u, u) + Dot(v, v) - 2.0 * Dot(u, v)
    ensures Cross(a, b, c) == u.x * v.y - u.y * v.x
  {
    assert a.x - c.x == -v.x && a.y - c.y == -v.y;
    assert c.x - b.x == v.x - u.x && c.y - b.y == v.y - u.y;
    assert Square(v.x - u.x) == v.x * v.x - 2.0 * (u.x * v.x) + u.x * u.x;
    assert Square(v.y - u.y) == v.y * v.y - 2.0 * (u.y * v.y) + u.y * u.y;
  }

  lemma SidesToCross(ab: real, bc: real, ca: real, dot: real, cross: real)
    requires bc == ab + ca - 2.0 * dot && Times(ab, ca) == Square(dot) + Square(cross)
    ensures 4.0 * Times(ab, ca) - Square(ab + ca - bc) == 4.0 * Square(cross)
  {
    assert ab + ca - bc == 2.0 * dot;
    assert Square(2.0 * dot) == 4.0 * Square(dot);
  }

  /** The law of cosines turns the polynomial into the squared cross product. */
  lemma CrossFromSides(a: Point, b: Point, c: Point)
    ensures 4.0 * Times(Dist2(a, b), Dist2(c, a)) - Square(Dist2(a, b) + Dist2(c, a) - Dist2(b, c))
         == 4.0 * Square(Cross(a, b, c))
  {
    hide *;
    var u, v := Minus(b, a), Minus(c, a);
    SidesAsVectors(a, b, c, u, v);
    Lagrange(u, v);
    SidesToCross(Dist2(a, b), Dist2(b, c), Dist2(c, a), Dot(u, v), Cross(a, b, c));
  }

  lemma HeronSquared(e1: real, e2: real, e3: real, a: Point, b: Point, c: Point)
    requires e1 * e1 == Dist2(a, b) && e2 * e2 == Dist2(b, c) && e3 * e3 == Dist2(c, a)
    ensures 16.0 * HeronProduct(e1, e2, e3) == 4.0 * Square(Cross(a, b, c))
  {
    HeronPolynomial(e1, e2, e3);
    hide *;
    CrossFromSides(a, b, c);
  }

  lemma RootOfProduct(m: Libm, n: real, cross: real)
    requires m.Exact() && 16.0 * n == 4.0 * Square(cross)
    ensures m.sqrt(n) == Abs(cross) / 2.0
  {
    var root := Abs(cross) / 2.0;
    assert 4.0 * (root * root) == Abs(cross) * Abs(cross) == Square(cross);
    SqrtIs(m, n, root);
  }

  lemma HeronIsHalfCross(m: Libm, a: Point, b: Point, c: Point)
    requires m.Exact()
    ensures TriangleArea(m, a, b, c) == Abs(Cross(a, b, c)) / 2.0
  {
    hide HeronProduct, Distance, Cross;
    var e1, e2, e3 := Distance(m, a, b), Distance(m, b, c), Distance(m, c, a);
    assert TriangleArea(m, a, b, c) == m.sqrt(HeronProduct(e1, e2, e3));
    hide *;
    DistanceSpec(m, a, b);
    DistanceSpec(m, b, c);
    DistanceSpec(m, c, a);
    HeronSquared(e1, e2, e3, a, b, c);
    RootOfProduct(m, HeronProduct(e1, e2, e3), Cross(a, b, c));
  }

  /** The height over bc is the distance from a to the line through b and c. */
  lemma HeightIsDistanceToLine(m: Libm, a: Point, b: Point, c: Point)
    requires m.Exact() && b != c
    ensures 0.0 < Distance(m, b, c)
    ensures TriangleHeight(m, a, b, c) == Abs(Cross(b, c, a)) / Distance(m, b, c)
  {
    HeronIsHalfCross(m, a, b, c);
    DistanceSpec(m, b, c);
    CrossRotates(a, b, c);
  }

  lemma CrossRotates(a: Point, b: Point, c: Point)
    ensures Cross(a, b, c) == Cross(b, c, a)
    ensures Cross(b, a, c) == -Cross(a, b, c)
  {}
}
