/** Where the border pass leaves a player: for a rectangular border and every position, outside the border included
    (Game::checkCollisions, Host/game.cpp). */
module Boundary {
  import opened Geometry
  import opened Pushes
  import opened Border
  import opened Walls

  // ---------- one edge ----------

  /** How far inside the edge it leaves a player at t along it and s inside it. */
  function Lifted(t: real, s: real, l: real, r: real): real {
    if Fires(t, s, l, r) then s + r - Abs(s) else s
  }

  lemma EdgeStepExact(m: Libm, a: Point, d: Point, l: real, t: real, s: real, r: real)
    requires m.Exact() && UnitLength(d) && 0.0 < l && 0.0 <= r
    ensures EdgeStep(m, Circle(InFrame(a, d, t, s), r), a, InFrame(a, d, l, 0.0))
         == Circle(InFrame(a, d, t, Lifted(t, s, l, r)), r)
  {
    SideFires(m, a, d, l, t, s, r);
    PushOffEdgeExact(m, a, d, l, t, s, r);
    hide InFrame, UnitLength, CircleSegmentCollide, PushOffEdge, Fires;
  }

  // ---------- the four edges ----------

  lemma FirstEdge(m: Libm, o: Point, d: Point, w: real, h: real, u: real, v: real, r: real)
    requires Proper(m, d, w, h, r)
    ensures EdgeStep(m, Circle(InFrame(o, d, u, v), r), InFrame(o, d, 0.0, 0.0), InFrame(o, d, w, 0.0))
         == Circle(InFrame(o, d, u, Lifted(u, v, w, r)), r)
  {
    hide InFrame, EdgeStep, UnitLength, Lifted;
    FourFrames(o, d, w, h, u, v);
    FourFrames(o, d, w, h, u, Lifted(u, v, w, r));
    FourFrames(o, d, w, h, w, 0.0);
    EdgeStepExact(m, InFrame(o, d, 0.0, 0.0), d, w, u, v, r);
  }

  lemma SecondEdge(m: Libm, o: Point, d: Point, w: real, h: real, u: real, v: real, r: real)
    requires Proper(m, d, w, h, r)
    ensures EdgeStep(m, Circle(InFrame(o, d, u, v), r), InFrame(o, d, w, 0.0), InFrame(o, d, w, h))
         == Circle(InFrame(o, d, w - Lifted(v, w - u, h, r), v), r)
  {
    SideDirections(d);
    hide InFrame, EdgeStep, UnitLength, LeftOf, Opposite, Lifted;
    var s := Lifted(v, w - u, h, r);
    FourFrames(o, d, w, h, u, v);
    FourFrames(o, d, w, h, w - s, v);
    FourFrames(o, d, w, h, w, h);
    EdgeStepExact(m, InFrame(o, d, w, 0.0), LeftOf(d), h, v, w - u, r);
    assert w - (w - s) == s && w - w == 0.0;
  }

  lemma ThirdEdge(m: Libm, o: Point, d: Point, w: real, h: real, u: real, v: real, r: real)
    requires Proper(m, d, w, h, r)
    ensures EdgeStep(m, Circle(InFrame(o, d, u, v), r), InFrame(o, d, w, h), InFrame(o, d, 0.0, h))
         == Circle(InFrame(o, d, u, h - Lifted(w - u, h - v, w, r)), r)
  {
    SideDirections(d);
    hide InFrame, EdgeStep, UnitLength, LeftOf, Opposite, Lifted;
    var s := Lifted(w - u, h - v, w, r);
    FourFrames(o, d, w, h, u, v);
    FourFrames(o, d, w, h, u, h - s);
    FourFrames(o, d, w, h, 0.0, h);
    EdgeStepExact(m, InFrame(o, d, w, h), Opposite(d), w, w - u, h - v, r);
    assert h - (h - s) == s && w - 0.0 == w && h - h == 0.0;
  }

  lemma FourthEdge(m: Libm, o: Point, d: Point, w: real, h: real, u: real, v: real, r: real)
    requires Proper(m, d, w, h, r)
    ensures EdgeStep(m, Circle(InFrame(o, d, u, v), r), InFrame(o, d, 0.0, h), InFrame(o, d, 0.0, 0.0))
         == Circle(InFrame(o, d, Lifted(h - v, u, h, r), v), r)
  {
    SideDirections(d);
    hide InFrame, EdgeStep, UnitLength, LeftOf, Opposite, Lifted;
    var s := Lifted(h - v, u, h, r);
    FourFrames(o, d, w, h, u, v);
    FourFrames(o, d, w, h, s, v);
    FourFrames(o, d, w, h, 0.0, 0.0);
    EdgeStepExact(m, InFrame(o, d, 0.0, h), Opposite(LeftOf(d)), h, h - v, u, r);
    assert h - 0.0 == h;
  }

  /** The four edges in turn, in the coordinates of the border. */
  function Bounded(w: real, h: real, u: real, v: real, r: real): (real, real) {
    var v1 := Lifted(u, v, w, r);
    var u2 := w - Lifted(v1, w - u, h, r);
    var v3 := h - Lifted(w - u2, h - v1, w, r);
    (Lifted(h - v3, u2, h, r), v3)
  }

  /** Where a whole border pass leaves a player: for every rectangle, every radius and every position. */
  lemma BorderPassExact(m: Libm, o: Point, d: Point, w: real, h: real, u: real, v: real, r: real)
    requires Proper(m, d, w, h, r)
    ensures var (u', v') := Bounded(w, h, u, v, r);
            BorderPass(m, Circle(InFrame(o, d, u, v), r), RectangularBorder(o, d, w, h), 4)
            == Circle(InFrame(o, d, u', v'), r)
  {
    hide UnitLength, InFrame, EdgeStep, Lifted;
    var b := RectangularBorder(o, d, w, h);
    var c := Circle(InFrame(o, d, u, v), r);
    var v1 := Lifted(u, v, w, r);
    var u2 := w - Lifted(v1, w - u, h, r);
    var v3 := h - Lifted(w - u2, h - v1, w, r);
    FirstEdge(m, o, d, w, h, u, v, r);
    assert BorderPass(m, c, b, 0) == c;
    assert BorderPass(m, c, b, 1) == EdgeStep(m, c, b[0], b[1]);
    SecondEdge(m, o, d, w, h, u, v1, r);
    assert BorderPass(m, c, b, 2) == EdgeStep(m, BorderPass(m, c, b, 1), b[1], b[2]);
    ThirdEdge(m, o, d, w, h, u2, v1, r);
    assert BorderPass(m, c, b, 3) == EdgeStep(m, BorderPass(m, c, b, 2), b[2], b[3]);
    FourthEdge(m, o, d, w, h, u2, v3, r);
    assert BorderPass(m, c, b, 4) == EdgeStep(m, BorderPass(m, c, b, 3), b[3], b[0]);
  }

  // ---------- from inside, and from just outside ----------

  /** A border pass that starts inside the rectangle clamps both coordinates: it ends at least r from all four sides,
      and moves the centre no further than that. */
  lemma InsideIsClamped(w: real, h: real, u: real, v: real, r: real)
    requires 0.0 <= r && 2.0 * r <= w && 2.0 * r <= h && 0.0 <= u <= w && 0.0 <= v <= h
    ensures Bounded(w, h, u, v, r) == (Clamp(u, r, w - r), Clamp(v, r, h - r))
  {
    var v1, u2 := Clamp(v, r, h), Clamp(u, 0.0, w - r);
    var v3 := Clamp(v, r, h - r);
    FiresFacts(u, v, w, r);
    FiresFacts(v1, w - u, h, r);
    FiresFacts(w - u2, h - v1, w, r);
    FiresFacts(h - v3, u2, h, r);
    hide Fires;
  }

  /** An edge seen from at most k outside, past its ends by at most k. */
  lemma LiftedEnough(t: real, s: real, l: real, r: real, k: real)
    requires 0.0 < l && 0.0 <= k && 5.0 * k <= r && -k <= t <= l + k && -k <= s
    ensures r - 2.0 * k <= Lifted(t, s, l, r)
    ensures Lifted(t, s, l, r) <= s || Lifted(t, s, l, r) <= r
  {
    FiresFacts(t, s, l, r);
    if t < 0.0 {
      BesideTheEnd(t, s, r, k);
    } else if l < t {
      BesideTheEnd(t - l, s, r, k);
    }
    hide Square;
  }

  lemma BesideTheEnd(t: real, s: real, r: real, k: real)
    requires 0.0 <= k && 5.0 * k <= r && -k <= t <= k && -k <= s
    ensures Square(r) < Square(t) + Square(s) ==> r - 2.0 * k < s
  {
    AbsSquares(t, k);
    AbsSquares(s, r - 2.0 * k);
    CompareSquares(k, r - 2.0 * k);
    RoomLeft(r, k, k * (4.0 * r - 5.0 * k));
  }

  lemma RoomLeft(r: real, k: real, room: real)
    requires 0.0 <= k && 5.0 * k <= r && room == k * (4.0 * r - 5.0 * k)
    ensures Square(r - 2.0 * k) + Square(k) <= Square(r)
  {
    NonNegativeProduct(k, 4.0 * r - 5.0 * k, room);
  }

  /** From at most k outside, k at most a fifth of the radius, a pass brings the centre to within 2k of that. */
  lemma OutsideIsBroughtBack(w: real, h: real, u: real, v: real, r: real, k: real)
    requires 0.0 <= k && 0.0 < r && 5.0 * k <= r && 2.0 * r <= w && 2.0 * r <= h
    requires -k <= u <= w + k && -k <= v <= h + k
    ensures var (u', v'), room := Bounded(w, h, u, v, r), r - 2.0 * k;
            room <= u' <= w - room && room <= v' <= h - room
  {
    var v1 := Lifted(u, v, w, r);
    LiftedEnough(u, v, w, r, k);
    var u2 := w - Lifted(v1, w - u, h, r);
    LiftedEnough(v1, w - u, h, r, k);
    var v3 := h - Lifted(w - u2, h - v1, w, r);
    LiftedEnough(w - u2, h - v1, w, r, k);
    LiftedEnough(h - v3, u2, h, r, k);
    hide Lifted;
  }
}
