/** A player running into a corner of a rectangular wall: the first of the two sides pushes it, and then whichever of
    the others it has come near (moveAlongNormal for a Rectangle, Host/game.cpp). */
module Corners {
  import opened Geometry
  import opened Walls

  /** The player touches the wall from outside: its centre is not inside, and the wall is no further away than r. */
  predicate Contact(w: real, h: real, u: real, v: real, r: real) {
    !(0.0 < u < w && 0.0 < v < h) && Gap2(w, h, u, v) <= Square(r)
  }

  /** Only the corner is in reach. */
  predicate AtCorner(w: real, h: real, u: real, v: real, r: real) {
    0.0 < Beyond(u, w) && 0.0 < Beyond(v, h) && Gap2(w, h, u, v) <= Square(r)
  }

  /** Every contact is in front of a side or at a corner, and at a corner the centre is in front of no side. */
  lemma ContactIsFrontOrCorner(w: real, h: real, u: real, v: real, r: real)
    requires 0.0 < w && 0.0 < h && 0.0 <= r && Contact(w, h, u, v, r)
    ensures AtCorner(w, h, u, v, r) <==> !exists side: Side :: InFront(side, w, h, u, v, r)
  {
    AbsSquares(Beyond(u, w), r);
    AbsSquares(Beyond(v, h), r);
    hide Square;
    if !AtCorner(w, h, u, v, r) {
      if Beyond(v, h) == 0.0 {
        if u <= 0.0 {
          assert InFront(Left, w, h, u, v, r);
        } else if w <= u {
          assert InFront(Right, w, h, u, v, r);
        } else if v == 0.0 {
          assert InFront(Bottom, w, h, u, v, r);
        } else {
          assert InFront(Top, w, h, u, v, r);
        }
      } else if v < 0.0 {
        assert InFront(Bottom, w, h, u, v, r);
      } else {
        assert InFront(Top, w, h, u, v, r);
      }
    }
  }

  // ---------- squares ----------

  /** The two coordinates past a corner are shorter than the radius. */
  lemma Overhang(x: real, y: real, r: real)
    requires 0.0 < x && 0.0 < y && 0.0 <= r && Square(x) + Square(y) <= Square(r)
    ensures x < r && y < r && 0.0 < Square(x)
  {
    AbsSquares(x, r);
    AbsSquares(y, r);
    CompareSquares(r, x);
    CompareSquares(r, y);
  }

  /** A coordinate lies between the ends of the side exactly if it adds nothing to the distance. */
  lemma BeyondNothing(x: real, size: real)
    requires 0.0 < size
    ensures Square(Beyond(x, size)) == 0.0 <==> 0.0 <= x <= size
    ensures 0.0 <= Square(Beyond(x, size))
  {
    AbsSquares(Beyond(x, size), 0.0);
  }

  lemma CornerFires(w: real, h: real, u: real, v: real, r: real)
    requires 0.0 < w && 0.0 < h && AtCorner(w, h, u, v, r)
    ensures Fires(u, v, w, r) || h < v
    ensures Fires(v, w - u, h, r) || u < 0.0 || v < 0.0
    ensures Fires(w - u, h - v, w, r) || v < 0.0
  {
    SquareSign(u);
    SquareSign(v);
    SquareSign(u - w);
    SquareSign(v - h);
    assert w - u == -(u - w) && h - v == -(v - h) && w - u - w == -u;
    hide Square;
  }

  // ---------- one push ----------

  /** What one push off the corner comes to: the first of its two sides alone. */
  function CornerPushed(w: real, h: real, u: real, v: real, r: real): (real, real) {
    if v < 0.0 then (u, -r) else if w < u then (w + r, v) else (u, h + r)
  }

  /** When it is pushed no further: always at a lower corner; at an upper one if the bottom, and on the left the right
      side, are too far away to move it. */
  predicate OnePush(w: real, h: real, u: real, v: real, r: real) {
    var (v1, _, _) := Stages(w, h, u, v, r);
    v < 0.0 || (if w < u then !Shoves(Bottom, w, h, u, v, r) else h <= v1 && !Shoves(Right, w, h, u, v1, r))
  }

  lemma CornerPushOvershoots(w: real, h: real, u: real, v: real, r: real)
    requires 0.0 < w && 0.0 < h && LENGTH_TOLERANCE / 2.0 < r && AtCorner(w, h, u, v, r)
    ensures var (u', v') := CornerPushed(w, h, u, v, r);
            Square(r) < Gap2(w, h, u', v')
  {
    Overhang(Beyond(u, w), Beyond(v, h), r);
    Overhang(Beyond(v, h), Beyond(u, w), r);
    assert Beyond(-r, h) == r && Beyond(h + r, h) == r && Beyond(w + r, w) == r;
    hide Square;
  }

  // ---------- an upper corner ----------

  /** The last push comes from the inner side of a side, because an earlier one has carried the centre across. */
  predicate Crosses(w: real, h: real, u: real, v: real, r: real) {
    var (v1, u2, _) := Stages(w, h, u, v, r);
    && h < v
    && if w < u then
         Fires(u, v, w, r) && !Fires(v1, w - u, h, r) && Fires(w - u, h - v1, w, r)
       else
         0.0 < u2 && !(h <= v1 && Fires(w - u2, h - v1, w, r))
  }

  /** Where a player that crosses ends. */
  function Carried(w: real, h: real, u: real, v: real, r: real): (real, real) {
    var (_, u2, v3) := Stages(w, h, u, v, r);
    (if Fires(h - v3, u2, h, r) then 2.0 * u2 - r else u2, v3)
  }

  /** The last side to push has the player in front. */
  predicate EndsInFront(w: real, h: real, u: real, v: real, r: real) {
    var (v1, u2, v3) := Stages(w, h, u, v, r);
    && h < v
    && if w < u then
         Fires(u, v, w, r) && 0.0 <= v1 < h
       else if u2 <= 0.0 then
         0.0 <= v3 <= h
       else
         u2 <= w
  }

  /** How a push off a corner ends if the player does not cross. */
  ghost predicate Ends(w: real, h: real, u: real, v: real, r: real) {
    var (u', v') := PushedOff(w, h, u, v, r);
    && Square(r) <= Gap2(w, h, u', v')
    && (Gap2(w, h, u', v') == Square(r) <==> EndsInFront(w, h, u, v, r))
    && ((u', v') == CornerPushed(w, h, u, v, r) <==> OnePush(w, h, u, v, r))
  }

  // ---------- the lower corners ----------

  lemma LowerCornerEnds(w: real, h: real, u: real, v: real, r: real)
    requires 0.0 < w && 0.0 < h && LENGTH_TOLERANCE / 2.0 < r && AtCorner(w, h, u, v, r) && v < 0.0
    ensures Ends(w, h, u, v, r)
  {
    CornerPushOvershoots(w, h, u, v, r);
    Overhang(Beyond(u, w), Beyond(v, h), r);
    Overhang(Beyond(v, h), Beyond(u, w), r);
    CornerFires(w, h, u, v, r);
    var (v1, u2, v3) := Stages(w, h, u, v, r);
    FiresFacts(u, v, w, r);
    FiresFacts(v1, w - u, h, r);
    FiresFacts(w - u2, h - v1, w, r);
    FiresFacts(h - v3, u2, h, r);
    hide Fires, Square;
  }

  // ---------- the upper right corner ----------

  /** The right side pushes it: top and left leave it there. */
  lemma RightMovesIt(w: real, h: real, u: real, v: real, r: real)
    requires 0.0 < w && 0.0 < h && LENGTH_TOLERANCE / 2.0 < r && AtCorner(w, h, u, v, r) && h < v && w < u
    requires var (v1, _, _) := Stages(w, h, u, v, r);
             Fires(v1, w - u, h, r)
    ensures var (v1, _, _) := Stages(w, h, u, v, r);
            PushedOff(w, h, u, v, r) == (w + r, if v1 == h then h + r else v1)
  {
    Overhang(Beyond(u, w), Beyond(v, h), r);
    var (v1, u2, v3) := Stages(w, h, u, v, r);
    assert u2 == w + r;
    FiresFacts(w - u2, h - v1, w, r);
    FiresFacts(h - v3, u2, h, r);
    if v1 == h {
      TouchedEnd(w, r);
    }
    hide Fires, Square, Beyond;
  }

  /** A side fires on a player on its line whose circle touches its end. */
  lemma TouchedEnd(l: real, r: real)
    ensures Fires(-r, 0.0, l, r)
  {
    SquareSign(r);
    assert Square(0.0) == 0.0;
    hide Square;
  }

  lemma RightMovesItEnds(w: real, h: real, u: real, v: real, r: real)
    requires 0.0 < w && 0.0 < h && LENGTH_TOLERANCE / 2.0 < r && AtCorner(w, h, u, v, r) && h < v && w < u
    requires var (v1, _, _) := Stages(w, h, u, v, r);
             Fires(v1, w - u, h, r)
    ensures Ends(w, h, u, v, r)
  {
    RightMovesIt(w, h, u, v, r);
    Overhang(Beyond(v, h), Beyond(u, w), r);
    var (v1, _, _) := Stages(w, h, u, v, r);
    FiresFacts(u, v, w, r);
    BeyondNothing(v1, h);
    BeyondNothing(h + r, h);
    assert Beyond(w + r, w) == r;
    hide Fires, Square, PushedOff;
  }

  /** Nearer to 0, smaller square. */
  lemma SquaresGrow(x: real, y: real)
    requires Abs(x) <= Abs(y)
    ensures Square(x) <= Square(y)
  {
    AbsSquares(y, Abs(y));
    AbsSquares(x, Abs(y));
    assert Square(Abs(y)) == Square(y);
  }

  /** The right side does not reach it: the bottom has carried it past the lower end, out of reach of the left side. */
  lemma RightMissesIt(w: real, h: real, u: real, v: real, r: real)
    requires 0.0 < w && 0.0 < h && LENGTH_TOLERANCE / 2.0 < r && AtCorner(w, h, u, v, r) && h < v && w < u
    requires var (v1, _, _) := Stages(w, h, u, v, r);
             !Fires(v1, w - u, h, r)
    ensures var (v1, u2, _) := Stages(w, h, u, v, r);
            && u2 == u && Fires(u, v, w, r) && v1 == 2.0 * v - r && v1 < -(LENGTH_TOLERANCE / 2.0)
            && Square(r) < Square(u - w) + Square(v1) && !Fires(h - v1, u, h, r)
  {
    Overhang(Beyond(u, w), Beyond(v, h), r);
    Overhang(Beyond(v, h), Beyond(u, w), r);
    CornerFires(w, h, u, v, r);
    FiresFacts(u, v, w, r);
    var (v1, u2, _) := Stages(w, h, u, v, r);
    assert v1 == 2.0 * v - r by { hide Square; }
    AbsSquares(u - w, r);
    assert w - u == -(u - w);
    assert v1 < h by {
      if h <= v1 {
        SquaresGrow(v1 - h, v - h);
      }
      hide Square;
    }
    SquaresGrow(u - w, u);
    AbsSquares(v1 - h, r);
    AbsSquares(v1, r);
    assert h - v1 == -(v1 - h) && h - v1 - h == -v1;
    hide Square;
  }

  lemma RightMissesItEnds(w: real, h: real, u: real, v: real, r: real)
    requires 0.0 < w && 0.0 < h && LENGTH_TOLERANCE / 2.0 < r && AtCorner(w, h, u, v, r) && h < v && w < u
    requires var (v1, _, _) := Stages(w, h, u, v, r);
             !Fires(v1, w - u, h, r)
    requires !Crosses(w, h, u, v, r)
    ensures Ends(w, h, u, v, r)
  {
    RightMissesIt(w, h, u, v, r);
    Overhang(Beyond(u, w), Beyond(v, h), r);
    Overhang(Beyond(v, h), Beyond(u, w), r);
    var (v1, _, _) := Stages(w, h, u, v, r);
    AbsSquares(v1, r);
    assert Beyond(v1, h) == -v1 && Beyond(u, w) == u - w;
    hide Fires, Square;
  }

  /** That takes a wall lower than a quarter of the tolerance. */
  lemma CrossedUpwards(w: real, h: real, u: real, v: real, r: real)
    requires 0.0 < w && 0.0 < h && LENGTH_TOLERANCE / 2.0 < r && AtCorner(w, h, u, v, r) && h < v && w < u
    requires Crosses(w, h, u, v, r)
    ensures h < LENGTH_TOLERANCE / 4.0 && u - w <= LENGTH_TOLERANCE / 2.0
  {
    RightMissesIt(w, h, u, v, r);
    Overhang(Beyond(v, h), Beyond(u, w), r);
    var (v1, _, _) := Stages(w, h, u, v, r);
    var e := LENGTH_TOLERANCE / 2.0;
    AbsSquares(h - v1, r);
    assert u - w <= e by {
      FiresFacts(w - u, h - v1, w, r);
      hide Square;
    }
    SquaresGrow(u - w, e);
    if e / 2.0 <= v {
      SquaresGrow(v1, r - e);
      assert Square(r - e) == r * r - 2.0 * e * r + e * e;
    }
  }

  // ---------- the upper left corner ----------

  /** Top and left at their turn, the player past the end of the top and in front of the left side or beside it. */
  lemma StillOutside(w: real, h: real, u: real, v: real, r: real)
    requires 0.0 < w && 0.0 < h && LENGTH_TOLERANCE / 2.0 < r && AtCorner(w, h, u, v, r) && h < v && u < 0.0
    requires Stages(w, h, u, v, r).1 <= 0.0
    ensures var (v1, u2, v3) := Stages(w, h, u, v, r);
            && u <= u2 && (h <= v1 ==> v3 == h + r) && (v1 < h ==> v3 < h + r)
  {
    Overhang(Beyond(u, w), Beyond(v, h), r);
    Overhang(Beyond(v, h), Beyond(u, w), r);
    var (v1, u2, v3) := Stages(w, h, u, v, r);
    FiresFacts(u, v, w, r);
    FiresFacts(v1, w - u, h, r);
    assert v1 <= v && u <= u2 by { hide Fires, Square; }
    if h <= v1 {
      SquaresGrow(u2, u);
      SquaresGrow(v1 - h, v - h);
      AbsSquares(v1 - h, r);
      assert Square(u) == Square(Beyond(u, w)) by { AbsSquares(u, r); }
      assert w - u2 - w == -u2 && h - v1 == -(v1 - h);
      AbsSquares(u2, r);
      hide Square;
    } else {
      hide Fires, Square;
    }
  }

  /** What the left side makes of it. */
  lemma LeftsTurn(w: real, h: real, u2: real, v3: real, r: real)
    requires 0.0 < w && 0.0 < h && LENGTH_TOLERANCE / 2.0 < r && -r < u2 <= 0.0
    ensures var u' := Shifted(h - v3, u2, h, r);
            && (u' == u2 || u' == -r)
            && Square(r) <= Gap2(w, h, u', v3) && (Gap2(w, h, u', v3) == Square(r) <==> 0.0 <= v3 <= h)
            && (v3 == h + r ==> u' == if u2 == 0.0 then -r else u2)
  {
    BeyondNothing(v3, h);
    FiresFacts(h - v3, u2, h, r);
    assert Beyond(-r, w) == r && Beyond(u2, w) == -u2;
    if u2 == 0.0 {
      TouchedEnd(h, r);
    }
    if !Fires(h - v3, u2, h, r) {
      AbsSquares(u2, r);
      AbsSquares(v3, r);
      AbsSquares(v3 - h, r);
      assert h - v3 == -(v3 - h) && h - v3 - h == -v3;
      assert Square(r) < Square(u2) + Square(Beyond(v3, h)) by {
        hide Square;
      }
    }
    hide Fires, Square;
  }

  lemma StillOutsideEnds(w: real, h: real, u: real, v: real, r: real)
    requires 0.0 < w && 0.0 < h && LENGTH_TOLERANCE / 2.0 < r && AtCorner(w, h, u, v, r) && h < v && u < 0.0
    requires Stages(w, h, u, v, r).1 <= 0.0
    ensures Ends(w, h, u, v, r)
  {
    StillOutside(w, h, u, v, r);
    Overhang(Beyond(u, w), Beyond(v, h), r);
    var (_, u2, v3) := Stages(w, h, u, v, r);
    LeftsTurn(w, h, u2, v3, r);
    hide Fires, Square, Gap2;
  }

  /** Carried to the right of the wall's left side, and pushed off the top last. */
  lemma OffTheTopEnds(w: real, h: real, u: real, v: real, r: real)
    requires 0.0 < w && 0.0 < h && LENGTH_TOLERANCE / 2.0 < r && AtCorner(w, h, u, v, r) && h < v && u < 0.0
    requires 0.0 < Stages(w, h, u, v, r).1 && !Crosses(w, h, u, v, r)
    ensures Ends(w, h, u, v, r)
  {
    var (v1, u2, v3) := Stages(w, h, u, v, r);
    assert v3 == h + r;
    FiresFacts(h - v3, u2, h, r);
    BeyondNothing(u2, w);
    assert Beyond(h + r, h) == r;
    hide Fires, Square;
  }

  // ---------- every corner ----------

  lemma EndsWithoutCrossing(w: real, h: real, u: real, v: real, r: real)
    requires 0.0 < w && 0.0 < h && LENGTH_TOLERANCE / 2.0 < r && AtCorner(w, h, u, v, r) && !Crosses(w, h, u, v, r)
    ensures Ends(w, h, u, v, r)
  {
    var (v1, u2, _) := Stages(w, h, u, v, r);
    hide Ends, Crosses, Stages, Fires, Square;
    if v < 0.0 {
      LowerCornerEnds(w, h, u, v, r);
    } else if w < u {
      if Fires(v1, w - u, h, r) {
        RightMovesItEnds(w, h, u, v, r);
      } else {
        RightMissesItEnds(w, h, u, v, r);
      }
    } else if u2 <= 0.0 {
      StillOutsideEnds(w, h, u, v, r);
    } else {
      OffTheTopEnds(w, h, u, v, r);
    }
  }

  lemma EndsAcross(w: real, h: real, u: real, v: real, r: real)
    requires 0.0 < w && 0.0 < h && LENGTH_TOLERANCE / 2.0 < r && AtCorner(w, h, u, v, r) && Crosses(w, h, u, v, r)
    ensures PushedOff(w, h, u, v, r) == Carried(w, h, u, v, r) != CornerPushed(w, h, u, v, r)
    ensures !OnePush(w, h, u, v, r)
  {
    Overhang(Beyond(u, w), Beyond(v, h), r);
    Overhang(Beyond(v, h), Beyond(u, w), r);
    var (v1, u2, v3) := Stages(w, h, u, v, r);
    FiresFacts(u, v, w, r);
    FiresFacts(v1, w - u, h, r);
    FiresFacts(h - v3, u2, h, r);
    hide Fires, Square;
  }

  /** A player that overlaps only a corner, however thin the wall: when it ends just touching the wall, when it still
      overlaps it, and when one push is all it gets. */
  lemma CornerEnds(w: real, h: real, u: real, v: real, r: real)
    requires 0.0 < w && 0.0 < h && LENGTH_TOLERANCE / 2.0 < r && AtCorner(w, h, u, v, r)
    ensures var ((u', v'), (x, y)) := (PushedOff(w, h, u, v, r), Carried(w, h, u, v, r));
            && (Gap2(w, h, u', v') == Square(r)
                <==> if Crosses(w, h, u, v, r) then Gap2(w, h, x, y) == Square(r) else EndsInFront(w, h, u, v, r))
            && (Gap2(w, h, u', v') < Square(r) <==> Crosses(w, h, u, v, r) && Gap2(w, h, x, y) < Square(r))
            && ((u', v') == CornerPushed(w, h, u, v, r) <==> OnePush(w, h, u, v, r))
  {
    hide Crosses, OnePush, EndsInFront, PushedOff, CornerPushed, Carried, Square, Gap2;
    if Crosses(w, h, u, v, r) {
      EndsAcross(w, h, u, v, r);
    } else {
      EndsWithoutCrossing(w, h, u, v, r);
    }
  }

  /** Only a wall thinner than the player's radius can be crossed; at a right corner it is lower than a quarter of the
      tolerance. */
  lemma ThinWallsAreCrossed(w: real, h: real, u: real, v: real, r: real)
    requires 0.0 < w && 0.0 < h && LENGTH_TOLERANCE / 2.0 < r && AtCorner(w, h, u, v, r) && Crosses(w, h, u, v, r)
    ensures if w < u then h < LENGTH_TOLERANCE / 4.0 else w < r
  {
    if w < u {
      CrossedUpwards(w, h, u, v, r);
    } else {
      var (v1, _, _) := Stages(w, h, u, v, r);
      FiresFacts(v1, w - u, h, r);
      hide Fires, Square;
    }
  }

  /** Off a wall no thinner than its radius the player gets one push. */
  lemma ThickWallsPushOnce(w: real, h: real, u: real, v: real, r: real)
    requires LENGTH_TOLERANCE / 2.0 < r <= w && r <= h && AtCorner(w, h, u, v, r)
    ensures OnePush(w, h, u, v, r)
  {
    var (v1, _, _) := Stages(w, h, u, v, r);
    FiresFacts(u, v, w, r);
    FiresFacts(v1, w - u, h, r);
    hide Fires, Square;
  }

  // ---------- thin walls ----------

  /** A post of 5 by 5: from its corner the bottom pulls the player down beside it, where it just touches. */
  lemma PulledBeside()
    ensures AtCorner(5.0, 5.0, 6.0, 16.0, 30.0) && PushedOff(5.0, 5.0, 6.0, 16.0, 30.0) == (35.0, 2.0)
    ensures Gap2(5.0, 5.0, 35.0, 2.0) == Square(30.0)
  {}

  /** A post of 10 by 10: the four sides pull a player that overlaps its upper left corner into it. */
  lemma PulledInside()
    ensures AtCorner(10.0, 10.0, -2.0, 11.0, 30.0) && PushedOff(10.0, 10.0, -2.0, 11.0, 30.0) == (2.0, 4.0)
    ensures Gap2(10.0, 10.0, 2.0, 4.0) == 0.0
  {}
}
