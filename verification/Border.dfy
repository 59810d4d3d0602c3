/** The border loop of Game::checkCollisions (Host/game.cpp): every edge of the polygon in turn, then the closing
    edge. */
module Border {
  import opened Geometry
  import opened Pushes

  /** What one edge does to a player. */
  function EdgeStep(m: Libm, c: Circle, a: Point, b: Point): Circle {
    if CircleSegmentCollide(m, c, a, b) then PushOffEdge(m, c, a, b) else c
  }

  function Next(borders: seq<Point>, i: nat): Point
    requires i < |borders|
  {
    if i + 1 < |borders| then borders[i + 1] else borders[0]
  }

  /** The first n edges, in order; all of them when n == |borders|. */
  function BorderPass(m: Libm, c: Circle, borders: seq<Point>, n: nat): Circle
    requires n <= |borders|
  {
    if n == 0 then c else EdgeStep(m, BorderPass(m, c, borders, n - 1), borders[n - 1], Next(borders, n - 1))
  }

  /** The loop as the game writes it. An empty border makes `size() - 1` wrap around, so it is excluded. */
  method PushInsideBorder(m: Libm, c: Circle, borders: seq<Point>) returns (moved: Circle)
    requires borders != []
    ensures moved == BorderPass(m, c, borders, |borders|)
  {
    moved := c;
    var i := 0;
    while i < |borders| - 1
      invariant 0 <= i <= |borders| - 1
      invariant moved == BorderPass(m, c, borders, i)
    {
      if CircleSegmentCollide(m, moved, borders[i], borders[i + 1]) {
        moved := PushOffEdge(m, moved, borders[i], borders[i + 1]);
      }
      i := i + 1;
    }
    if CircleSegmentCollide(m, moved, borders[|borders| - 1], borders[0]) {
      moved := PushOffEdge(m, moved, borders[|borders| - 1], borders[0]);
    }
  }

  // ---------- frames ----------

  lemma AlongInFrame(a: Point, d: Point, l: real, k: real)
    ensures AlongSegment(a, InFrame(a, d, l, 0.0), k) == InFrame(a, d, k * l, 0.0)
  {
    assert InFrame(a, d, l, 0.0) == Point(a.x + l * d.x, a.y + l * d.y);
    assert InFrame(a, d, k * l, 0.0) == Point(a.x + (k * l) * d.x, a.y + (k * l) * d.y);
    hide InFrame;
    assert k * (l * d.x) == (k * l) * d.x && k * (l * d.y) == (k * l) * d.y;
  }

  // ---------- a rectangular border ----------

  /** A w by h rectangle with corner o, first side along d, wound so that left normals point inward. */
  function RectangularBorder(o: Point, d: Point, w: real, h: real): seq<Point> {
    [InFrame(o, d, 0.0, 0.0), InFrame(o, d, w, 0.0), InFrame(o, d, w, h), InFrame(o, d, 0.0, h)]
  }

  function LeftOf(d: Point): Point {
    Point(-d.y, d.x)
  }

  function Opposite(d: Point): Point {
    Point(-d.x, -d.y)
  }

  lemma SideDirections(d: Point)
    requires UnitLength(d)
    ensures UnitLength(LeftOf(d)) && UnitLength(Opposite(d)) && UnitLength(Opposite(LeftOf(d)))
  {}

  lemma InFrameTimes(a: Point, d: Point, t: real, s: real)
    ensures InFrame(a, d, t, s)
         == Point(a.x + Times(t, d.x) - Times(s, d.y), a.y + Times(t, d.y) + Times(s, d.x))
  {}

  lemma TimesMinus(x: real, y: real, z: real, k: real)
    requires x == y + z
    ensures Times(z, k) == Times(x, k) - Times(y, k)
  {
    TimesDistributes(k, y, z, x);
    assert Times(k, x) == Times(x, k) && Times(k, y) == Times(y, k) && Times(k, z) == Times(z, k);
  }

  lemma TimesNegated(x: real, k: real)
    ensures Times(x, -k) == -Times(x, k) && Times(0.0, k) == 0.0
  {}

  lemma Distributes(x: real, y: real, k: real)
    ensures Times(x - y, k) == Times(x, k) - Times(y, k) && Times(0.0, k) == 0.0
    ensures Times(x - y, -k) == Times(y, k) - Times(x, k) && Times(x, -k) == -Times(x, k)
  {
    hide Times;
    TimesMinus(x, y, x - y, k);
    TimesNegated(x - y, k);
    TimesNegated(x, k);
  }

  lemma SecondFrame(o: Point, d: Point, w: real, u: real, v: real)
    ensures InFrame(InFrame(o, d, w, 0.0), LeftOf(d), v, w - u) == InFrame(o, d, u, v)
  {
    InFrameTimes(o, d, w, 0.0);
    InFrameTimes(o, d, u, v);
    InFrameTimes(InFrame(o, d, w, 0.0), LeftOf(d), v, w - u);
    assert LeftOf(d) == Point(-d.y, d.x);
    hide InFrame, Times, LeftOf;
    Distributes(w, u, d.x);
    Distributes(w, u, d.y);
    Distributes(v, 0.0, d.y);
  }

  lemma ThirdFrame(o: Point, d: Point, w: real, h: real, u: real, v: real)
    ensures InFrame(InFrame(o, d, w, h), Opposite(d), w - u, h - v) == InFrame(o, d, u, v)
  {
    InFrameTimes(o, d, w, h);
    InFrameTimes(o, d, u, v);
    InFrameTimes(InFrame(o, d, w, h), Opposite(d), w - u, h - v);
    assert Opposite(d) == Point(-d.x, -d.y);
    hide InFrame, Times, Opposite;
    Distributes(w, u, d.x);
    Distributes(w, u, d.y);
    Distributes(h, v, d.x);
    Distributes(h, v, d.y);
  }

  lemma FourthFrame(o: Point, d: Point, h: real, u: real, v: real)
    ensures InFrame(InFrame(o, d, 0.0, h), Opposite(LeftOf(d)), h - v, u) == InFrame(o, d, u, v)
  {
    InFrameTimes(o, d, 0.0, h);
    InFrameTimes(o, d, u, v);
    InFrameTimes(InFrame(o, d, 0.0, h), Opposite(LeftOf(d)), h - v, u);
    assert Opposite(LeftOf(d)) == Point(d.y, -d.x);
    hide InFrame, Times, Opposite, LeftOf;
    Distributes(h, v, d.x);
    Distributes(h, v, d.y);
    Distributes(u, 0.0, d.x);
    Distributes(u, 0.0, d.y);
  }

  /** The same point in the frames of the four sides. */
  lemma FourFrames(o: Point, d: Point, w: real, h: real, u: real, v: real)
    ensures InFrame(InFrame(o, d, 0.0, 0.0), d, u, v) == InFrame(o, d, u, v)
    ensures InFrame(InFrame(o, d, w, 0.0), LeftOf(d), v, w - u) == InFrame(o, d, u, v)
    ensures InFrame(InFrame(o, d, w, h), Opposite(d), w - u, h - v) == InFrame(o, d, u, v)
    ensures InFrame(InFrame(o, d, 0.0, h), Opposite(LeftOf(d)), h - v, u) == InFrame(o, d, u, v)
  {
    assert InFrame(o, d, 0.0, 0.0) == o;
    hide InFrame, LeftOf, Opposite;
    SecondFrame(o, d, w, u, v);
    ThirdFrame(o, d, w, h, u, v);
    FourthFrame(o, d, h, u, v);
  }

  function Clamp(x: real, low: real, high: real): real {
    if x < low then low else if high < x then high else x
  }
}
