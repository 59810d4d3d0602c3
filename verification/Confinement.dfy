/** A player alone in a rectangular arena never gets out (Host/game.cpp: updatePositions and the border pass). */
module Confinement {
  import opened Geometry
  import opened Pushes
  import opened Border
  import opened Walls
  import opened Boundary
  import opened World
  import opened Host
  import opened Runs

  /** The inside of a w by h rectangle with corner o and first side along d. */
  datatype Arena = Arena(o: Point, d: Point, w: real, h: real)

  /** The map is that rectangle, its border wound inward, with room for a player and nothing else in it. */
  ghost predicate Empty(g: Setting, a: Arena) {
    && g.m.Exact() && UnitLength(a.d) && 2.0 * PLAYER_RADIUS <= a.w && 2.0 * PLAYER_RADIUS <= a.h
    && g.ground == GameMap(RectangularBorder(a.o, a.d, a.w, a.h), [], [])
  }

  /** At least `margin` from all four sides. */
  ghost predicate Inside(a: Arena, p: Point, margin: real) {
    exists u, v :: p == InFrame(a.o, a.d, u, v) && margin <= u <= a.w - margin && margin <= v <= a.h - margin
  }

  /** A tick carries a player less than this before anything pushes it. */
  const STRIDE := 1.0

  /** Only this client plays, and it is put down at least `room` from all four sides. */
  ghost predicate PlaysAlone(a: Arena, es: seq<Event>, id: nat, room: real) {
    forall i :: 0 <= i < |es| && es[i].Handle? ==>
      && (!es[i].message.Empty? ==> es[i].message.client == id)
      && Inside(a, es[i].at, room)
  }

  /** The ticks since the player was last put down. */
  ghost function TicksAlive(g: Setting, es: seq<Event>, id: nat): nat
    requires RunOk(g, es)
  {
    if es == [] then 0
    else
      var es0 := es[..|es| - 1];
      match es[|es| - 1]
      case Advance(_, _) => TicksAlive(g, es0, id) + 1
      case Handle(message, _) => if PutsDown(After(g, es0), message, id) then 0 else TicksAlive(g, es0, id)
  }

  predicate PutsDown(s: State, message: Message, id: nat) {
    message == FromClient(id, Spawn) && (id !in s.players || !s.players[id].alive)
  }

  /** How far inside the border the player keeps. A player put down on the border may step out of it in its first tick,
      and the push is as much too short as it stepped out. */
  function Margin(room: real, ticks: nat): real {
    if ticks == 0 then room
    else if ticks == 1 && room < STRIDE then PLAYER_RADIUS - 2.0 * STRIDE
    else PLAYER_RADIUS
  }

  /** There is nobody else, every projectile is the player's own, and while it lives it keeps the margin. */
  ghost predicate Kept(a: Arena, s: State, id: nat, margin: real) {
    && (forall k :: k in s.players ==> k == id)
    && (forall i :: 0 <= i < |s.projectiles| ==> s.projectiles[i].owner == id)
    && (id in s.players ==> s.players[id].body.r == PLAYER_RADIUS)
    && (id in s.players && s.players[id].alive ==> Inside(a, s.players[id].body.centre, margin))
  }

  // ---------- one stride ----------

  lemma StrideReal(x: real, y: real, c: real, e: real, du: real, dv: real)
    requires c * c + e * e == 1.0 && du == x * c + y * e && dv == c * y - e * x
    ensures Square(du) + Square(dv) == Square(x) + Square(y)
    ensures du * c - dv * e == x && du * e + dv * c == y
  {
    ResolveInFrame(c, e, x, y);
    assert Square(du) + Square(dv) == (c * c + e * e) * (Square(x) + Square(y));
  }

  lemma ShortStep(du: real, dv: real)
    requires Square(du) + Square(dv) < 1.0
    ensures -1.0 < du < 1.0 && -1.0 < dv < 1.0
  {
    SquareSign(du);
    SquareSign(dv);
    CompareSquares(1.0, Abs(du));
    CompareSquares(1.0, Abs(dv));
  }

  /** In the frame of the arena a tick changes both coordinates by less than one. */
  lemma StrideInFrame(a: Arena, u: real, v: real, velocity: Point) returns (u': real, v': real)
    requires UnitLength(a.d) && Square(velocity.x) + Square(velocity.y) <= 1.0 + EPSILON_ONE
    ensures Plus(InFrame(a.o, a.d, u, v), Step(velocity, PLAYER_SPEED)) == InFrame(a.o, a.d, u', v')
    ensures -STRIDE < u' - u < STRIDE && -STRIDE < v' - v < STRIDE
  {
    var x, y := Step(velocity, PLAYER_SPEED).x, Step(velocity, PLAYER_SPEED).y;
    assert x == 0.9 * velocity.x && y == 0.9 * velocity.y;
    assert Square(x) + Square(y) == 0.81 * (Square(velocity.x) + Square(velocity.y));
    var du, dv := x * a.d.x + y * a.d.y, a.d.x * y - a.d.y * x;
    StrideReal(x, y, a.d.x, a.d.y, du, dv);
    ShortStep(du, dv);
    u', v' := u + du, v + dv;
    StrideAdds(a, u, v, du, dv, x, y);
  }

  lemma StrideAdds(a: Arena, u: real, v: real, du: real, dv: real, x: real, y: real)
    requires du * a.d.x - dv * a.d.y == x && du * a.d.y + dv * a.d.x == y
    ensures Plus(InFrame(a.o, a.d, u, v), Point(x, y)) == InFrame(a.o, a.d, u + du, v + dv)
  {
    assert x == Times(du, a.d.x) - Times(dv, a.d.y) && y == Times(du, a.d.y) + Times(dv, a.d.x);
    hide InFrame, Times;
    InFrameTimes(a.o, a.d, u, v);
    InFrameTimes(a.o, a.d, u + du, v + dv);
    TimesMinus(u + du, u, du, a.d.x);
    TimesMinus(u + du, u, du, a.d.y);
    TimesMinus(v + dv, v, dv, a.d.x);
    TimesMinus(v + dv, v, dv, a.d.y);
  }

  /** What a tick leaves of the margin. */
  function Tightened(margin: real): real {
    if margin < STRIDE then PLAYER_RADIUS - 2.0 * STRIDE else PLAYER_RADIUS
  }

  lemma StrideIsUndone(w: real, h: real, u: real, v: real, margin: real) returns (u': real, v': real)
    requires 2.0 * PLAYER_RADIUS <= w && 2.0 * PLAYER_RADIUS <= h && 0.0 <= margin
    requires margin - STRIDE <= u <= w - margin + STRIDE && margin - STRIDE <= v <= h - margin + STRIDE
    ensures (u', v') == Bounded(w, h, u, v, PLAYER_RADIUS)
    ensures var room := Tightened(margin);
            room <= u' <= w - room && room <= v' <= h - room
  {
    var end := Bounded(w, h, u, v, PLAYER_RADIUS);
    u', v' := end.0, end.1;
    if margin < STRIDE {
      OutsideIsBroughtBack(w, h, u, v, PLAYER_RADIUS, STRIDE);
    } else {
      InsideIsClamped(w, h, u, v, PLAYER_RADIUS);
    }
    hide Bounded;
  }

  /** One tick of a living player: it may step out by less than a stride, and the border pass puts it back. */
  lemma StrideIsClamped(g: Setting, a: Arena, p: Player, margin: real)
    requires Empty(g, a) && WithinSpeedLimit(p) && p.alive && p.body.r == PLAYER_RADIUS
    requires 0.0 <= margin && Inside(a, p.body.centre, margin)
    ensures var c := SceneryPass(g.m, g.ground, PlayerMoved(p).body);
            c.r == PLAYER_RADIUS && Inside(a, c.centre, Tightened(margin))
  {
    var u, v :| p.body.centre == InFrame(a.o, a.d, u, v)
                && margin <= u <= a.w - margin && margin <= v <= a.h - margin;
    var u', v' := StrideInFrame(a, u, v, p.velocity);
    var moved := Circle(InFrame(a.o, a.d, u', v'), PLAYER_RADIUS);
    assert PlayerMoved(p).body == moved;
    hide InFrame, UnitLength, BorderPass, Step, Bounded;
    assert SceneryPass(g.m, g.ground, moved) == BorderPass(g.m, moved, g.ground.borders, 4);
    BorderPassExact(g.m, a.o, a.d, a.w, a.h, u', v', PLAYER_RADIUS);
    var room := Tightened(margin);
    var u2, v2 := StrideIsUndone(a.w, a.h, u', v', margin);
    assert room <= u2 <= a.w - room && room <= v2 <= a.h - room
        && InFrame(a.o, a.d, u2, v2) == InFrame(a.o, a.d, u2, v2);
  }

  // ---------- one tick ----------

  /** With nobody else about, the resolved position is that of the scenery alone. */
  lemma AloneResolved(g: Setting, players: map<nat, Player>, id: nat, order: seq<nat>)
    requires players.Keys == {id} && Enumerates(order, players.Keys)
    ensures var after := PlayersResolved(g.m, g.ground, players, order, |order|);
            after.Keys == {id} && after[id] == (if players[id].alive
                                                then players[id].(body := SceneryPass(g.m, g.ground, players[id].body))
                                                else players[id])
  {
    hide SceneryPass, CirclesCollide, PushApart;
    assert id in order && |order| > 0;
    assert order[0] == id && order[|order| - 1] == id;
    assert order == [id];
    assert PlayersResolved(g.m, g.ground, players, order, 0) == players;
    assert OthersPass(g.m, players, id, order, 0) == players;
    assert OthersPass(g.m, players, id, order, 1) == players;
  }

  lemma OwnDoNotStrike(players: map<nat, Player>, p: Projectile, id: nat)
    requires (forall k :: k in players ==> k == id) && p.owner == id
    ensures forall v :: !Strikes(players, p, v)
  {}

  /** The player's own projectiles do not hit it, so a pass leaves it as it is. */
  lemma {:induction false} PassHitsNobody(g: Setting, players: map<nat, Player>, ps: seq<Projectile>, os: seq<Outcome>,
                                          id: nat)
    requires PassOk(g.m, g.ground, players, ps, os)
    requires (forall k :: k in players ==> k == id) && forall i :: 0 <= i < |ps| ==> ps[i].owner == id
    ensures PassPlayers(g.m, g.ground, players, ps, os) == players
  {
    hide HitsWall, HitsObstacle, HitsBorder, CirclesCollide;
    if os != [] {
      var k := |os| - 1;
      PassHitsNobody(g, players, ps, os[..k], id);
      OwnDoNotStrike(players, ps[k], id);
    }
  }

  lemma {:induction false} SurvivorsAreOwn(ps: seq<Projectile>, os: seq<Outcome>, id: nat)
    requires |os| <= |ps| && forall i :: 0 <= i < |ps| ==> ps[i].owner == id
    ensures forall i :: 0 <= i < |Survivors(ps, os)| ==> Survivors(ps, os)[i].owner == id
  {
    if os != [] {
      SurvivorsAreOwn(ps, os[..|os| - 1], id);
    }
  }

  lemma TickConfines(g: Setting, a: Arena, s: State, order: seq<nat>, os: seq<Outcome>, id: nat, margin: real)
    requires Empty(g, a) && TickOk(g.m, g.ground, s, order, os) && AllWithinSpeedLimit(s.players)
    requires 0.0 <= margin && Kept(a, s, id, margin)
    ensures Kept(a, Ticked(g.m, g.ground, s, order, os), id, Tightened(margin))
  {
    var b := BeforeChecks(g.m, g.ground, s, order);
    assert b.players.Keys == s.players.Keys;
    assert forall i :: 0 <= i < |b.projectiles| ==> b.projectiles[i].owner == id;
    SurvivorsAreOwn(b.projectiles, os, id);
    PassHitsNobody(g, b.players, b.projectiles, os, id);
    MovedInside(g, a, s, order, id, margin);
    hide BeforeChecks, PassOk, PassPlayers, Survivors, Inside, Empty;
  }

  lemma MovedInside(g: Setting, a: Arena, s: State, order: seq<nat>, id: nat, margin: real)
    requires Empty(g, a) && Enumerates(order, s.players.Keys) && AllWithinSpeedLimit(s.players)
    requires 0.0 <= margin && Kept(a, s, id, margin)
    ensures var b := BeforeChecks(g.m, g.ground, s, order);
            id in b.players ==>
              && b.players[id].body.r == PLAYER_RADIUS
              && (b.players[id].alive ==> Inside(a, b.players[id].body.centre, Tightened(margin)))
  {
    if id in s.players {
      var p := s.players[id];
      assert WithinSpeedLimit(p);
      if p.alive {
        StrideIsClamped(g, a, p, margin);
      }
      assert AllMoved(s).players.Keys == {id};
      hide SceneryPass, Inside, Empty, PlayersResolved;
      AloneResolved(g, AllMoved(s).players, id, order);
    }
  }

  // ---------- whole runs ----------

  /** A message moves nobody but the player it puts down. */
  lemma MessageConfines(g: Setting, a: Arena, s: State, message: Message, at: Point, id: nat, margin: real, room: real)
    requires Kept(a, s, id, margin) && (!message.Empty? ==> message.client == id) && Inside(a, at, room)
    ensures Kept(a, Handled(g.m, s, message, at), id, if PutsDown(s, message, id) then room else margin)
  {
    hide Inside, Square;
  }

  lemma {:induction false} StaysInside(g: Setting, a: Arena, es: seq<Event>, id: nat, room: real)
    requires Empty(g, a) && RunOk(g, es) && 0.0 <= room && PlaysAlone(a, es, id, room)
    ensures Kept(a, After(g, es), id, Margin(room, TicksAlive(g, es, id)))
  {
    hide Handled, Ticked, TickOk, Inside, Empty, Kept, PutsDown;
    if es == [] {
      NobodyThere(a, id, room);
    } else {
      var es0, e := es[..|es| - 1], es[|es| - 1];
      var s, margin := After(g, es0), Margin(room, TicksAlive(g, es0, id));
      StaysInside(g, a, es0, id, room);
      match e
      case Handle(message, at) => MessageConfines(g, a, s, message, at, id, margin, room);
      case Advance(order, outcomes) =>
        SpeedLimitHolds(g, es0);
        TickConfines(g, a, s, order, outcomes, id, margin);
        assert Tightened(margin) == Margin(room, TicksAlive(g, es, id));
    }
  }

  lemma NobodyThere(a: Arena, id: nat, room: real)
    ensures Kept(a, State(map[], []), id, room)
  {}

  /** A player alone in a rectangular arena, wherever in it it is put down, is in it at every moment of every run: at
      least its radius from all four sides after every tick but the first since it was put down, and after that one too
      if it was put down a stride inside. */
  lemma NeverLeavesTheArena(g: Setting, a: Arena, es: seq<Event>, id: nat, room: real)
    requires Empty(g, a) && RunOk(g, es) && 0.0 <= room && PlaysAlone(a, es, id, room)
    requires id in After(g, es).players && After(g, es).players[id].alive
    ensures Inside(a, After(g, es).players[id].body.centre, Margin(room, TicksAlive(g, es, id)))
  {
    StaysInside(g, a, es, id, room);
    hide RunOk, After, Inside, Empty;
  }

  /** The first tick may leave less: a player put down on the left side of a 2000 by 2000 arena that walks out of it is
      0.9 outside, */
  lemma PutDownOnTheBorder()
    ensures Plus(Point(0.0, 500.0), Step(Point(-1.0, 0.0), PLAYER_SPEED)) == Point(-0.9, 500.0)
  {}

  /** and is pushed back to 28.2 from that side. */
  lemma PushedBackTooLittle()
    ensures Bounded(2000.0, 2000.0, -0.9, 500.0, PLAYER_RADIUS) == (28.2, 500.0)
  {
    FiresFacts(-0.9, 500.0, 2000.0, PLAYER_RADIUS);
    FiresFacts(500.0, 2000.9, 2000.0, PLAYER_RADIUS);
    FiresFacts(2000.9, 1500.0, 2000.0, PLAYER_RADIUS);
    FiresFacts(1500.0, -0.9, 2000.0, PLAYER_RADIUS);
    hide Fires;
  }
}
