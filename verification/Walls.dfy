/** A player running into a rectangular wall: where the push leaves it, and when that is straight out
    (moveAlongNormal for a Rectangle and its guard in checkCollisions, Host/game.cpp). */
module Walls {
  import opened Geometry
  import opened SegmentTest
  import opened QuadTest
  import opened Pushes
  import opened Border
  import opened World

  // ---------- one edge of a wall ----------

  /** One edge of a wall: tested from a to b, pushed off from b to a. */
  function SideStep(m: Libm, c: Circle, a: Point, b: Point): Circle {
    if CircleSegmentCollide(m, c, a, b) then PushOffEdge(m, c, b, a) else c
  }

  lemma PushOffWallIsFourSteps(m: Libm, c: Circle, q: Rectangle)
    ensures PushOffWall(m, c, q)
         == SideStep(m, SideStep(m, SideStep(m, SideStep(m, c, q.p0, q.p1), q.p1, q.p2), q.p2, q.p3), q.p3, q.p0)
  {
    hide CircleSegmentCollide, PushOffEdge;
  }

  /** The side of length l fires on a player at t along it and s behind it: an end of the side is in the disc, or the
      foot on its line is, and lies past neither end by more than 0.005. */
  predicate Fires(t: real, s: real, l: real, r: real) {
    || Square(t) + Square(s) <= Square(r)
    || Square(t - l) + Square(s) <= Square(r)
    || (-(LENGTH_TOLERANCE / 2.0) <= t <= l + LENGTH_TOLERANCE / 2.0 && Abs(s) <= r)
  }

  /** How far behind the side it leaves the player. */
  function Shifted(t: real, s: real, l: real, r: real): real {
    if Fires(t, s, l, r) then s - r + Abs(s) else s
  }

  /** The foot of the perpendicular, in the frame of the edge. */
  lemma FootInFrame(a: Point, d: Point, l: real, t: real, s: real)
    requires UnitLength(d) && 0.0 < l
    ensures InFrame(a, d, l, 0.0) != a && Times(Foot(InFrame(a, d, t, s), a, InFrame(a, d, l, 0.0)), l) == t
  {
    var b, p := InFrame(a, d, l, 0.0), InFrame(a, d, t, s);
    assert InFrame(a, d, 0.0, 0.0) == a;
    FrameDist2(a, d, 0.0, 0.0, l, 0.0);
    PositiveProduct(l, l, l * l);
    assert Dist2(a, b) == l * l by { assert Square(0.0) == 0.0; }
    FootSpec(p, a, b);
    DotInFrame(a, d, l, t, s);
    var f := Foot(p, a, b);
    hide InFrame, Foot, Dot, Dist2, UnitLength;
    assert f * (l * l) == (f * l) * l;
    CancelFactor(f * l, t, l);
  }

  lemma DotInFrame(a: Point, d: Point, l: real, t: real, s: real)
    requires UnitLength(d)
    ensures Dot(Minus(InFrame(a, d, t, s), a), Minus(InFrame(a, d, l, 0.0), a)) == t * l
  {
    DotReal(d.x, d.y, l, t, s);
  }

  lemma DotReal(c: real, d: real, l: real, t: real, s: real)
    requires c * c + d * d == 1.0
    ensures (t * c - s * d) * (l * c) + (t * d + s * c) * (l * d) == t * l
  {
    assert (t * c - s * d) * (l * c) + (t * d + s * c) * (l * d) == t * l * (c * c + d * d);
  }

  lemma AbsSquares(x: real, r: real)
    requires 0.0 <= r
    ensures Abs(x) <= r <==> Square(x) <= Square(r)
    ensures Square(-x) == Square(x) && 0.0 <= Square(x) && (x != 0.0 ==> 0.0 < Square(x))
  {
    SquareSign(x);
    CompareSquares(Abs(x), r);
  }

  /** The distances in the frame that the segment test compares with r. */
  lemma FrameDistances(a: Point, d: Point, l: real, t: real, s: real, f: real)
    requires UnitLength(d) && f * l == t
    ensures Dist2(InFrame(a, d, t, s), a) == Square(t) + Square(s)
    ensures Dist2(InFrame(a, d, t, s), InFrame(a, d, l, 0.0)) == Square(t - l) + Square(s)
    ensures Dist2(InFrame(a, d, t, s), AlongSegment(a, InFrame(a, d, l, 0.0), f)) == Square(s)
  {
    assert InFrame(a, d, 0.0, 0.0) == a;
    AlongInFrame(a, d, l, f);
    FrameDist2(a, d, t, s, 0.0, 0.0);
    FrameDist2(a, d, t, s, l, 0.0);
    FrameDist2(a, d, t, s, t, 0.0);
    SquareSign(t);
    SquareSign(s);
    SquareSign(t - l);
    assert 0.0 - t == -t && 0.0 - s == -s && l - t == -(t - l) && t - t == 0.0;
    assert Square(0.0) == 0.0;
    hide Square, Dist2, InFrame, AlongSegment;
  }

  lemma SideFires(m: Libm, a: Point, d: Point, l: real, t: real, s: real, r: real)
    requires m.Exact() && UnitLength(d) && 0.0 < l && 0.0 <= r
    ensures CircleSegmentCollide(m, Circle(InFrame(a, d, t, s), r), a, InFrame(a, d, l, 0.0)) <==> Fires(t, s, l, r)
  {
    var b, p := InFrame(a, d, l, 0.0), InFrame(a, d, t, s);
    FootInFrame(a, d, l, t, s);
    FrameDistance(m, a, d, 0.0, 0.0, l, 0.0, l) by { assert Square(l) == Square(l - 0.0) + Square(0.0 - 0.0); }
    assert InFrame(a, d, 0.0, 0.0) == a;
    FrameDistances(a, d, l, t, s, Foot(p, a, b));
    AbsSquares(s, r);
    hide InFrame, UnitLength, CircleSegmentCollide, Foot, Distance, Dist2, Square, AlongSegment;
    SegmentTestExact(m, Circle(p, r), a, b);
  }

  /** The same edge walked backwards. */
  lemma Backwards(a: Point, d: Point, l: real, t: real, s: real)
    ensures InFrame(InFrame(a, d, l, 0.0), Opposite(d), l - t, -s) == InFrame(a, d, t, s)
    ensures InFrame(InFrame(a, d, l, 0.0), Opposite(d), l, 0.0) == a
  {
    ThirdFrame(a, d, l, 0.0, t, s);
    ThirdFrame(a, d, l, 0.0, 0.0, 0.0);
    assert InFrame(a, d, 0.0, 0.0) == a;
    hide InFrame, Opposite;
    assert l - 0.0 == l && 0.0 - s == -s && 0.0 - 0.0 == 0.0;
  }

  /** Exactly what one side does to a player, wherever it is. */
  lemma SideStepExact(m: Libm, a: Point, d: Point, l: real, t: real, s: real, r: real)
    requires m.Exact() && UnitLength(d) && 0.0 < l && 0.0 <= r
    ensures SideStep(m, Circle(InFrame(a, d, t, s), r), a, InFrame(a, d, l, 0.0))
         == Circle(InFrame(a, d, t, Shifted(t, s, l, r)), r)
  {
    SideFires(m, a, d, l, t, s, r);
    SideDirections(d);
    hide InFrame, UnitLength, CircleSegmentCollide, PushOffEdge, Opposite, Fires;
    var s' := s - r + Abs(s);
    Backwards(a, d, l, t, s);
    Backwards(a, d, l, t, s');
    PushOffEdgeExact(m, InFrame(a, d, l, 0.0), Opposite(d), l, l - t, -s, r);
    assert -s + r - Abs(-s) == -s';
  }

  // ---------- a rectangular wall ----------

  /** A w by h wall with corner o and first side along d, its interior to the left of each side. */
  function RectangularWall(o: Point, d: Point, w: real, h: real): Rectangle {
    Rectangle(InFrame(o, d, 0.0, 0.0), InFrame(o, d, w, 0.0), InFrame(o, d, w, h), InFrame(o, d, 0.0, h))
  }

  ghost predicate Proper(m: Libm, d: Point, w: real, h: real, r: real) {
    m.Exact() && UnitLength(d) && 0.0 < w && 0.0 < h && 0.0 <= r
  }

  lemma BottomSide(m: Libm, o: Point, d: Point, w: real, h: real, u: real, v: real, r: real)
    requires Proper(m, d, w, h, r)
    ensures SideStep(m, Circle(InFrame(o, d, u, v), r), InFrame(o, d, 0.0, 0.0), InFrame(o, d, w, 0.0))
         == Circle(InFrame(o, d, u, Shifted(u, v, w, r)), r)
  {
    hide InFrame, SideStep, UnitLength, LeftOf, Opposite, Shifted;
    FourFrames(o, d, w, h, u, v);
    FourFrames(o, d, w, h, u, Shifted(u, v, w, r));
    FourFrames(o, d, w, h, w, 0.0);
    SideStepExact(m, InFrame(o, d, 0.0, 0.0), d, w, u, v, r);
  }

  lemma RightSide(m: Libm, o: Point, d: Point, w: real, h: real, u: real, v: real, r: real)
    requires Proper(m, d, w, h, r)
    ensures SideStep(m, Circle(InFrame(o, d, u, v), r), InFrame(o, d, w, 0.0), InFrame(o, d, w, h))
         == Circle(InFrame(o, d, w - Shifted(v, w - u, h, r), v), r)
  {
    SideDirections(d);
    hide InFrame, SideStep, UnitLength, LeftOf, Opposite, Shifted;
    var s := Shifted(v, w - u, h, r);
    FourFrames(o, d, w, h, u, v);
    FourFrames(o, d, w, h, w - s, v);
    FourFrames(o, d, w, h, w, h);
    SideStepExact(m, InFrame(o, d, w, 0.0), LeftOf(d), h, v, w - u, r);
    assert w - (w - s) == s && w - w == 0.0;
  }

  lemma TopSide(m: Libm, o: Point, d: Point, w: real, h: real, u: real, v: real, r: real)
    requires Proper(m, d, w, h, r)
    ensures SideStep(m, Circle(InFrame(o, d, u, v), r), InFrame(o, d, w, h), InFrame(o, d, 0.0, h))
         == Circle(InFrame(o, d, u, h - Shifted(w - u, h - v, w, r)), r)
  {
    SideDirections(d);
    hide InFrame, SideStep, UnitLength, LeftOf, Opposite, Shifted;
    var s := Shifted(w - u, h - v, w, r);
    FourFrames(o, d, w, h, u, v);
    FourFrames(o, d, w, h, u, h - s);
    FourFrames(o, d, w, h, 0.0, h);
    SideStepExact(m, InFrame(o, d, w, h), Opposite(d), w, w - u, h - v, r);
    assert h - (h - s) == s && w - 0.0 == w && h - h == 0.0;
  }

  lemma LeftSide(m: Libm, o: Point, d: Point, w: real, h: real, u: real, v: real, r: real)
    requires Proper(m, d, w, h, r)
    ensures SideStep(m, Circle(InFrame(o, d, u, v), r), InFrame(o, d, 0.0, h), InFrame(o, d, 0.0, 0.0))
         == Circle(InFrame(o, d, Shifted(h - v, u, h, r), v), r)
  {
    SideDirections(d);
    hide InFrame, SideStep, UnitLength, LeftOf, Opposite, Shifted;
    var s := Shifted(h - v, u, h, r);
    FourFrames(o, d, w, h, u, v);
    FourFrames(o, d, w, h, s, v);
    FourFrames(o, d, w, h, 0.0, 0.0);
    SideStepExact(m, InFrame(o, d, 0.0, h), Opposite(LeftOf(d)), h, h - v, u, r);
    assert h - 0.0 == h;
  }

  /** The four sides in turn, in the coordinates of the wall. */
  function PushedOff(w: real, h: real, u: real, v: real, r: real): (real, real) {
    var v1 := Shifted(u, v, w, r);
    var u2 := w - Shifted(v1, w - u, h, r);
    var v3 := h - Shifted(w - u2, h - v1, w, r);
    (Shifted(h - v3, u2, h, r), v3)
  }

  /** Where the push leaves a player: for every wall, every radius and every position, inside the wall included. */
  lemma WallPushExact(m: Libm, o: Point, d: Point, w: real, h: real, u: real, v: real, r: real)
    requires Proper(m, d, w, h, r)
    ensures var (u', v') := PushedOff(w, h, u, v, r);
            PushOffWall(m, Circle(InFrame(o, d, u, v), r), RectangularWall(o, d, w, h))
                == Circle(InFrame(o, d, u', v'), r)
  {
    PushOffWallIsFourSteps(m, Circle(InFrame(o, d, u, v), r), RectangularWall(o, d, w, h));
    hide InFrame, SideStep, UnitLength, PushOffWall, Shifted;
    BottomSide(m, o, d, w, h, u, v, r);
    var v1 := Shifted(u, v, w, r);
    RightSide(m, o, d, w, h, u, v1, r);
    var u2 := w - Shifted(v1, w - u, h, r);
    TopSide(m, o, d, w, h, u2, v1, r);
    var v3 := h - Shifted(w - u2, h - v1, w, r);
    LeftSide(m, o, d, w, h, u2, v3, r);
  }

  // ---------- straight out ----------

  datatype Side = Bottom | Right | Top | Left

  /** The player overlaps or touches this side from outside, its centre between the ends of the side. */
  predicate InFront(side: Side, w: real, h: real, u: real, v: real, r: real) {
    match side
    case Bottom => 0.0 <= u <= w && -r <= v <= 0.0
    case Right => 0.0 <= v <= h && w <= u <= w + r
    case Top => 0.0 <= u <= w && h <= v <= h + r
    case Left => 0.0 <= v <= h && -r <= u <= 0.0
  }

  /** Just touching the side, at the same place along it. */
  function StraightOut(side: Side, w: real, h: real, u: real, v: real, r: real): (real, real) {
    match side
    case Bottom => (u, -r)
    case Right => (w + r, v)
    case Top => (u, h + r)
    case Left => (-r, v)
  }

  /** The side fires and moves the player: it does not when the player is at distance r from its line already. */
  predicate Shoves(side: Side, w: real, h: real, u: real, v: real, r: real) {
    match side
    case Bottom => Fires(u, v, w, r) && Abs(v) != r
    case Right => Fires(v, w - u, h, r) && Abs(w - u) != r
    case Top => Fires(w - u, h - v, w, r) && Abs(h - v) != r
    case Left => Fires(h - v, u, h, r) && Abs(u) != r
  }

  function Order(side: Side): nat {
    match side
    case Bottom => 0
    case Right => 1
    case Top => 2
    case Left => 3
  }

  /** No other side shoves the player at its turn: the sides before this one meet it where it came from, those after
      it where this side has put it. */
  predicate OthersQuiet(side: Side, w: real, h: real, u: real, v: real, r: real) {
    var (u', v') := StraightOut(side, w, h, u, v, r);
    forall other: Side ::
      && (Order(other) < Order(side) ==> !Shoves(other, w, h, u, v, r))
      && (Order(side) < Order(other) ==> !Shoves(other, w, h, u', v', r))
  }

  lemma SidesInTurn(side: Side, w: real, h: real, u: real, v: real, r: real)
    ensures var (u', v') := StraightOut(side, w, h, u, v, r);
            OthersQuiet(side, w, h, u, v, r) <==>
            match side
            case Bottom => !Shoves(Right, w, h, u', v', r) && !Shoves(Top, w, h, u', v', r)
                && !Shoves(Left, w, h, u', v', r)
            case Right => !Shoves(Bottom, w, h, u, v, r) && !Shoves(Top, w, h, u', v', r)
                && !Shoves(Left, w, h, u', v', r)
            case Top => !Shoves(Bottom, w, h, u, v, r) && !Shoves(Right, w, h, u, v, r)
                && !Shoves(Left, w, h, u', v', r)
            case Left => !Shoves(Bottom, w, h, u, v, r) && !Shoves(Right, w, h, u, v, r) && !Shoves(Top, w, h, u, v, r)
  {
    hide Shoves;
    assert Order(Bottom) == 0 && Order(Right) == 1 && Order(Top) == 2 && Order(Left) == 3;
  }

  /** What is needed of Fires, free of squares. */
  lemma FiresFacts(t: real, s: real, l: real, r: real)
    requires 0.0 <= r
    ensures r < Abs(s) ==> !Fires(t, s, l, r)
    ensures 0.0 <= t <= l && Abs(s) <= r ==> Fires(t, s, l, r)
    ensures (t <= -r || l + r <= t) && LENGTH_TOLERANCE / 2.0 < r && s != 0.0 && 0.0 < l ==> !Fires(t, s, l, r)
    ensures Fires(l - t, s, l, r) == Fires(t, s, l, r)
  {
    AbsSquares(s, r);
    AbsSquares(t, r);
    AbsSquares(t - l, r);
    AbsSquares(r, Abs(t));
    AbsSquares(r, Abs(t - l));
    assert Square(Abs(t)) == Square(t) && Square(Abs(t - l)) == Square(t - l);
    assert l - t == -(t - l) && l - t - l == -t;
    hide Square;
  }

  /** If no other side shoves it, the player is moved straight out until it just touches, however thin the wall. */
  lemma QuietSidesPushStraight(side: Side, w: real, h: real, u: real, v: real, r: real)
    requires 0.0 < w && 0.0 < h && 0.0 <= r && InFront(side, w, h, u, v, r) && OthersQuiet(side, w, h, u, v, r)
    ensures PushedOff(w, h, u, v, r) == StraightOut(side, w, h, u, v, r)
  {
    SidesInTurn(side, w, h, u, v, r);
    match side
    case Bottom => FiresFacts(u, v, w, r);
    case Right => FiresFacts(v, w - u, h, r);
    case Top => FiresFacts(w - u, h - v, w, r);
    case Left => FiresFacts(h - v, u, h, r);
    hide Fires, OthersQuiet;
  }

  /** What the sides that have had their turn before Top and Left made of the player's place. */
  function Stages(w: real, h: real, u: real, v: real, r: real): (real, real, real) {
    var v1 := Shifted(u, v, w, r);
    var u2 := w - Shifted(v1, w - u, h, r);
    (v1, u2, h - Shifted(w - u2, h - v1, w, r))
  }

  /** When the player goes straight out. For Bottom and Right: no other side shoves it. In front of Top the bottom may
      shove it, as long as that leaves it above the wall: the top makes up for it. In front of Left the right side may
      shove it unless it ends inside, and bottom and top may shove it back and forth along the side. */
  predicate KeepsStraight(side: Side, w: real, h: real, u: real, v: real, r: real) {
    var (v1, u2, _) := Stages(w, h, u, v, r);
    match side
    case Bottom => OthersQuiet(Bottom, w, h, u, v, r)
    case Right => OthersQuiet(Right, w, h, u, v, r)
    case Top => h <= v1 && !Shoves(Right, w, h, u, v1, r) && !Shoves(Left, w, h, u, h + r, r)
    case Left =>
      && u2 <= 0.0
      && Shoves(Bottom, w, h, u, v, r) == Shoves(Top, w, h, u2, v1, r)
      && (Shoves(Bottom, w, h, u, v, r) ==> 3.0 * v == h + r)
  }

  lemma BottomStraightIff(w: real, h: real, u: real, v: real, r: real)
    requires 0.0 < w && 0.0 < h && LENGTH_TOLERANCE / 2.0 < r && InFront(Bottom, w, h, u, v, r)
    ensures PushedOff(w, h, u, v, r) == StraightOut(Bottom, w, h, u, v, r) <==> KeepsStraight(Bottom, w, h, u, v, r)
  {
    SidesInTurn(Bottom, w, h, u, v, r);
    var (v1, u2, v3) := Stages(w, h, u, v, r);
    FiresFacts(u, v, w, r);
    FiresFacts(v1, w - u, h, r);
    FiresFacts(w - u2, h - v1, w, r);
    FiresFacts(h - v3, u2, h, r);
    FiresFacts(w - u, h + r, w, r);
    FiresFacts(h + r, u, h, r);
    hide Fires, OthersQuiet;
  }

  lemma RightStraightIff(w: real, h: real, u: real, v: real, r: real)
    requires 0.0 < w && 0.0 < h && LENGTH_TOLERANCE / 2.0 < r && InFront(Right, w, h, u, v, r)
    ensures PushedOff(w, h, u, v, r) == StraightOut(Right, w, h, u, v, r) <==> KeepsStraight(Right, w, h, u, v, r)
  {
    SidesInTurn(Right, w, h, u, v, r);
    var (v1, u2, v3) := Stages(w, h, u, v, r);
    FiresFacts(u, v, w, r);
    FiresFacts(v1, w - u, h, r);
    FiresFacts(w - u2, h - v1, w, r);
    FiresFacts(h - v3, u2, h, r);
    FiresFacts(w - (w + r), h - v, w, r);
    FiresFacts(h - v, w + r, h, r);
    hide Fires, OthersQuiet;
  }

  lemma TopStraightIff(w: real, h: real, u: real, v: real, r: real)
    requires 0.0 < w && 0.0 < h && LENGTH_TOLERANCE / 2.0 < r && InFront(Top, w, h, u, v, r)
    ensures PushedOff(w, h, u, v, r) == StraightOut(Top, w, h, u, v, r) <==> KeepsStraight(Top, w, h, u, v, r)
  {
    var (v1, u2, v3) := Stages(w, h, u, v, r);
    FiresFacts(u, v, w, r);
    FiresFacts(v1, w - u, h, r);
    FiresFacts(w - u2, h - v1, w, r);
    FiresFacts(h - v3, u2, h, r);
    FiresFacts(h - (h + r), u, h, r);
    hide Fires, OthersQuiet;
  }

  lemma LeftStraightIff(w: real, h: real, u: real, v: real, r: real)
    requires 0.0 < w && 0.0 < h && LENGTH_TOLERANCE / 2.0 < r && InFront(Left, w, h, u, v, r)
    ensures PushedOff(w, h, u, v, r) == StraightOut(Left, w, h, u, v, r) <==> KeepsStraight(Left, w, h, u, v, r)
  {
    var (v1, u2, v3) := Stages(w, h, u, v, r);
    FiresFacts(u, v, w, r);
    FiresFacts(v1, w - u, h, r);
    FiresFacts(w - u2, h - v1, w, r);
    FiresFacts(h - v3, u2, h, r);
    hide Fires, OthersQuiet;
  }

  /** A player in front of a side, however thin the wall, is pushed straight out until it just touches exactly if its
      turn after turn keeps it so. */
  lemma StraightOutIff(side: Side, w: real, h: real, u: real, v: real, r: real)
    requires 0.0 < w && 0.0 < h && LENGTH_TOLERANCE / 2.0 < r && InFront(side, w, h, u, v, r)
    ensures PushedOff(w, h, u, v, r) == StraightOut(side, w, h, u, v, r) <==> KeepsStraight(side, w, h, u, v, r)
  {
    hide *;
    match side
    case Bottom => BottomStraightIff(w, h, u, v, r);
    case Right => RightStraightIff(w, h, u, v, r);
    case Top => TopStraightIff(w, h, u, v, r);
    case Left => LeftStraightIff(w, h, u, v, r);
  }

  // ---------- contacts ----------

  /** How far a coordinate lies outside [0, size]. */
  function Beyond(x: real, size: real): real {
    if x < 0.0 then -x else if size < x then x - size else 0.0
  }

  /** The squared distance of a position from the wall. */
  function Gap2(w: real, h: real, u: real, v: real): real {
    Square(Beyond(u, w)) + Square(Beyond(v, h))
  }

  // ---------- behind the guard ----------

  /** The corners of the wall turn counterclockwise. */
  lemma WallIsConvex(o: Point, d: Point, w: real, h: real)
    requires UnitLength(d) && 0.0 < w && 0.0 < h
    ensures ConvexQuad(RectangularWall(o, d, w, h), CounterClockwise)
  {
    SideDirections(d);
    PositiveProduct(w, h, Times(w, h));
    assert Times(h, w) == Times(w, h);
    hide InFrame, UnitLength, Cross, LeftOf, Opposite, Times;
    WallSides(o, d, w, h, w, h);
    WallSides(o, d, w, h, 0.0, h);
    WallSides(o, d, w, h, 0.0, 0.0);
    WallSides(o, d, w, h, w, 0.0);
    assert w - 0.0 == w && h - 0.0 == h;
  }

  /** How far inside each side a point of the frame lies. */
  lemma WallSides(o: Point, d: Point, w: real, h: real, u: real, v: real)
    requires UnitLength(d)
    ensures var q, p := RectangularWall(o, d, w, h), InFrame(o, d, u, v);
            && Cross(q.p0, q.p1, p) == Times(w, v)
            && Cross(q.p1, q.p2, p) == Times(h, w - u)
            && Cross(q.p2, q.p3, p) == Times(w, h - v)
            && Cross(q.p3, q.p0, p) == Times(h, u)
  {
    SideDirections(d);
    hide InFrame, UnitLength, Cross, LeftOf, Opposite, Times;
    FourFrames(o, d, w, h, u, v);
    FourFrames(o, d, w, h, w, 0.0);
    FourFrames(o, d, w, h, w, h);
    FourFrames(o, d, w, h, 0.0, h);
    FourFrames(o, d, w, h, 0.0, 0.0);
    assert w - w == 0.0 && h - h == 0.0 && w - 0.0 == w && h - 0.0 == h;
    FrameCross(InFrame(o, d, 0.0, 0.0), d, w, u, v);
    FrameCross(InFrame(o, d, w, 0.0), LeftOf(d), h, v, w - u);
    FrameCross(InFrame(o, d, w, h), Opposite(d), w, w - u, h - v);
    FrameCross(InFrame(o, d, 0.0, h), Opposite(LeftOf(d)), h, h - v, u);
  }

  /** The point of the wall nearest to the player. */
  function Nearest(o: Point, d: Point, w: real, h: real, u: real, v: real): Point {
    InFrame(o, d, Clamp(u, 0.0, w), Clamp(v, 0.0, h))
  }

  lemma NearestIsInWall(o: Point, d: Point, w: real, h: real, u: real, v: real)
    requires UnitLength(d) && 0.0 < w && 0.0 < h
    ensures InQuad(RectangularWall(o, d, w, h), CounterClockwise, Nearest(o, d, w, h, u, v))
  {
    hide InFrame, UnitLength, Cross, Times;
    var u', v' := Clamp(u, 0.0, w), Clamp(v, 0.0, h);
    WallSides(o, d, w, h, u', v');
    assert 0.0 <= Times(w, v') && 0.0 <= Times(h, w - u') && 0.0 <= Times(w, h - v') && 0.0 <= Times(h, u') by {
      TimesSign(w, v');
      TimesSign(h, w - u');
      TimesSign(w, h - v');
      TimesSign(h, u');
    }
    hide RectangularWall;
  }

  lemma TimesSign(x: real, y: real)
    requires 0.0 <= x && 0.0 <= y
    ensures 0.0 <= Times(x, y)
  {
    NonNegativeProduct(x, y, x * y);
  }

  lemma BeyondSquared(x: real, size: real)
    requires 0.0 < size
    ensures Square(Clamp(x, 0.0, size) - x) == Square(Beyond(x, size))
  {
    SquareSign(Beyond(x, size));
    assert Clamp(x, 0.0, size) - x == Beyond(x, size) || Clamp(x, 0.0, size) - x == -Beyond(x, size);
    hide Square;
  }

  /** A contact is noticed: the test that guards the push is true. */
  lemma ContactIsNoticed(m: Libm, o: Point, d: Point, w: real, h: real, u: real, v: real, r: real)
    requires Proper(m, d, w, h, r) && Gap2(w, h, u, v) <= Square(r)
    ensures CircleQuadCollide(m, Circle(InFrame(o, d, u, v), r), RectangularWall(o, d, w, h))
  {
    WallIsConvex(o, d, w, h);
    NearestIsInWall(o, d, w, h, u, v);
    FrameDist2(o, d, u, v, Clamp(u, 0.0, w), Clamp(v, 0.0, h));
    BeyondSquared(u, w);
    BeyondSquared(v, h);
    hide InFrame, UnitLength, Square, Dist2, CircleQuadCollide, ConvexQuad, RectangularWall, InQuad, Clamp, Beyond;
    QuadTestComplete(m, Circle(InFrame(o, d, u, v), r), RectangularWall(o, d, w, h), CounterClockwise,
                     Nearest(o, d, w, h, u, v));
  }

  /** One wall of the loop over all walls: a player that touches it is pushed, to the place the numbers say. */
  lemma WallLoopPushes(m: Libm, c: Circle, walls: seq<Rectangle>, n: nat, o: Point, d: Point, w: real, h: real,
                       u: real, v: real)
    requires Proper(m, d, w, h, c.r) && n < |walls| && walls[n] == RectangularWall(o, d, w, h)
    requires WallsPass(m, c, walls, n) == Circle(InFrame(o, d, u, v), c.r) && Gap2(w, h, u, v) <= Square(c.r)
    ensures var (u', v') := PushedOff(w, h, u, v, c.r);
            WallsPass(m, c, walls, n + 1) == Circle(InFrame(o, d, u', v'), c.r)
  {
    ContactIsNoticed(m, o, d, w, h, u, v, c.r);
    WallPushExact(m, o, d, w, h, u, v, c.r);
    hide InFrame, UnitLength, CircleQuadCollide, PushOffWall, PushedOff, Gap2;
  }

  /** A shove need not show: the player at (0.5, 28) above a wall of 25 by 5 is shoved by the bottom, but it stays above
      the wall, and the top makes up for it. */
  lemma ShovedButStraight()
    ensures InFront(Top, 25.0, 5.0, 0.5, 28.0, 30.0) && Shoves(Bottom, 25.0, 5.0, 0.5, 28.0, 30.0)
    ensures PushedOff(25.0, 5.0, 0.5, 28.0, 30.0) == StraightOut(Top, 25.0, 5.0, 0.5, 28.0, 30.0) == (0.5, 35.0)
  {}

  /** A side that is not the first shoves a player in front of the last one sideways, and the push is not straight: the
      player at (-20, 10) on a 100 by 100 wall. */
  lemma ShovedSideways()
    ensures InFront(Left, 100.0, 100.0, -20.0, 10.0, 30.0)
    ensures PushedOff(100.0, 100.0, -20.0, 10.0, 30.0) == (-30.0, -10.0)
  {}
}
