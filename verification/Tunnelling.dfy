/** Projectiles never tunnel: over whole runs, a projectile that has survived one check stays clear of everything
    solid during all of its next tick (Host/game.cpp, Host/collisions.cpp). */
module Tunnelling {
  import opened Geometry
  import opened SegmentTest
  import opened QuadTest
  import opened Pushes
  import opened Border
  import opened World
  import opened Host
  import opened Runs

  // ---------- what must not be crossed ----------

  ghost predicate OnBorder(ground: GameMap, e: Point) {
    exists i: nat, t :: i < |ground.borders| && 0.0 <= t <= 1.0
        && e == AlongSegment(ground.borders[i], Next(ground.borders, i), t)
  }

  ghost predicate OnWallEdge(ground: GameMap, e: Point) {
    exists i: nat, k: nat, t :: i < |ground.walls| && k < 4 && 0.0 <= t <= 1.0
      && e == AlongSegment(Edge(ground.walls[i], k).0, Edge(ground.walls[i], k).1, t)
  }

  ghost predicate InConvexWall(ground: GameMap, e: Point) {
    exists i: nat, w :: i < |ground.walls| && ConvexQuad(ground.walls[i], w) && InQuad(ground.walls[i], w, e)
  }

  /** Border edges, the edges of every wall whatever its shape, and the inside of every convex wall. */
  ghost predicate Solid(ground: GameMap, e: Point) {
    OnBorder(ground, e) || OnWallEdge(ground, e) || InConvexWall(ground, e)
  }

  ghost predicate ClearOfSolid(ground: GameMap, p: Point, d: real) {
    forall e :: Solid(ground, e) ==> Square(d) < Dist2(p, e)
  }

  ghost predicate ClearOfObstacles(ground: GameMap, p: Point, d: real) {
    forall i: nat :: i < |ground.obstacles| && 0.0 <= ground.obstacles[i].r
      ==> Square(ground.obstacles[i].r + d) <= Dist2(p, ground.obstacles[i].centre)
  }

  const CHECKED_CLEARANCE := 4.0
  const FLIGHT_CLEARANCE := 2.5
  const CHECKED_OBSTACLE_CLEARANCE := 3.9
  const FLIGHT_OBSTACLE_CLEARANCE := 2.4
  const STEP_LENGTH := 1.5

  // ---------- a check that comes back false ----------

  lemma MissedBorder(g: Setting, c: Circle, e: Point)
    requires g.m.Exact() && 0.0 <= c.r && !HitsBorder(g.m, g.ground, c) && OnBorder(g.ground, e)
    ensures Square(c.r) < Dist2(c.centre, e)
  {
    hide CircleSegmentCollide, AlongSegment, Dist2, Square;
    var i: nat, t :| i < |g.ground.borders| && 0.0 <= t <= 1.0
                     && e == AlongSegment(g.ground.borders[i], Next(g.ground.borders, i), t);
    assert !CircleSegmentCollide(g.m, c, g.ground.borders[i], Next(g.ground.borders, i));
    if Within(c.centre, e, c.r) {
      assert DiscMeetsSegment(c, g.ground.borders[i], Next(g.ground.borders, i));
      SegmentTestComplete(g.m, c, g.ground.borders[i], Next(g.ground.borders, i));
    }
  }

  lemma MissedWallEdge(g: Setting, c: Circle, e: Point)
    requires g.m.Exact() && 0.0 <= c.r && !HitsWall(g.m, g.ground, c) && OnWallEdge(g.ground, e)
    ensures Square(c.r) < Dist2(c.centre, e)
  {
    hide CircleQuadCollide, AlongSegment, Dist2, Square;
    var i: nat, k: nat, t :| i < |g.ground.walls| && k < 4 && 0.0 <= t <= 1.0
                             && e == AlongSegment(Edge(g.ground.walls[i], k).0, Edge(g.ground.walls[i], k).1, t);
    var q := g.ground.walls[i];
    assert !CircleQuadCollide(g.m, c, q);
    CollideUnfolds(g.m, c, q);
    if Within(c.centre, e, c.r) {
      assert DiscMeetsSegment(c, Edge(q, k).0, Edge(q, k).1);
      SegmentTestComplete(g.m, c, Edge(q, k).0, Edge(q, k).1);
    }
  }

  lemma MissedConvexWall(g: Setting, c: Circle, e: Point)
    requires g.m.Exact() && 0.0 <= c.r && !HitsWall(g.m, g.ground, c) && InConvexWall(g.ground, e)
    ensures Square(c.r) < Dist2(c.centre, e)
  {
    hide CircleQuadCollide, ConvexQuad, InQuad, Dist2, Square;
    var i: nat, w :| i < |g.ground.walls| && ConvexQuad(g.ground.walls[i], w) && InQuad(g.ground.walls[i], w, e);
    assert !CircleQuadCollide(g.m, c, g.ground.walls[i]);
    if Within(c.centre, e, c.r) {
      QuadTestComplete(g.m, c, g.ground.walls[i], w, e);
    }
  }

  lemma MissedObstacles(ground: GameMap, c: Circle)
    requires c.r == PROJECTILE_RADIUS && !HitsObstacle(ground, c)
    ensures ClearOfObstacles(ground, c.centre, CHECKED_OBSTACLE_CLEARANCE)
  {
    forall i: nat | i < |ground.obstacles| && 0.0 <= ground.obstacles[i].r
      ensures Square(ground.obstacles[i].r + CHECKED_OBSTACLE_CLEARANCE) <= Dist2(c.centre, ground.obstacles[i].centre)
    {
      assert !CirclesCollide(c, ground.obstacles[i]);
      NoCollisionDistance(c, ground.obstacles[i]);
    }
  }

  lemma NoCollisionDistance(c: Circle, o: Circle)
    requires !CirclesCollide(c, o) && c.r == PROJECTILE_RADIUS && 0.0 <= o.r
    ensures Square(o.r + CHECKED_OBSTACLE_CLEARANCE) <= Dist2(c.centre, o.centre)
  {
    Dist2Sign(c.centre, o.centre);
    var r := o.r;
    assert Square(r + 4.0) == Square(r + 3.9) + 0.2 * r + 0.79;
  }

  lemma MissedIsClear(g: Setting, players: map<nat, Player>, p: Projectile)
    requires g.m.Exact() && p.body.r == PROJECTILE_RADIUS && OutcomeOk(g.m, g.ground, players, p, Missed)
    ensures ClearOfSolid(g.ground, p.body.centre, CHECKED_CLEARANCE)
    ensures ClearOfObstacles(g.ground, p.body.centre, CHECKED_OBSTACLE_CLEARANCE)
  {
    MissedObstacles(g.ground, p.body);
    hide HitsWall, HitsBorder, HitsObstacle, OnBorder, OnWallEdge, InConvexWall, ClearOfObstacles, Dist2, Square;
    forall e | Solid(g.ground, e) ensures Square(CHECKED_CLEARANCE) < Dist2(p.body.centre, e) {
      if OnBorder(g.ground, e) {
        MissedBorder(g, p.body, e);
      } else if OnWallEdge(g.ground, e) {
        MissedWallEdge(g, p.body, e);
      } else {
        MissedConvexWall(g, p.body, e);
      }
    }
  }

  // ---------- one tick of flight ----------

  /** A tick moves a projectile by exactly 1.5 along its unit velocity. */
  lemma StepIsExact(v: Point)
    ensures Step(v, PROJECTILE_SPEED) == Scale(v, STEP_LENGTH)
  {}

  lemma ApproachReal(d: real, k: real, uu: real, uv: real, dist2: real)
    requires uu == d * d && uv <= d && 0.0 <= k && dist2 == uu - 2.0 * (k * uv) + k * k
    ensures Square(d - k) <= dist2
  {
    NonNegativeProduct(k, d - uv, k * d - k * uv);
    assert Square(d - k) == d * d - 2.0 * (k * d) + k * k;
  }

  lemma SquaredAsDot(p: Point, e: Point, v: Point)
    ensures Dist2(p, e) == Dot(Minus(e, p), Minus(e, p))
    ensures UnitLength(v) ==> Dot(v, v) == 1.0
  {}

  lemma ApproachVector(p: Point, e: Point, q: Point, v: Point, k: real)
    requires Minus(q, p) == Scale(v, k)
    ensures e.x - q.x == Minus(e, p).x - k * v.x && e.y - q.y == Minus(e, p).y - k * v.y
  {
    assert q.x - p.x == v.x * k && q.y - p.y == v.y * k;
  }

  /** Moving k towards anything reduces the distance by at most k. */
  lemma Approach(m: Libm, p: Point, e: Point, q: Point, v: Point, k: real)
    requires m.Exact() && UnitLength(v) && 0.0 <= k && Minus(q, p) == Scale(v, k) && k <= Distance(m, p, e)
    ensures Square(Distance(m, p, e) - k) <= Dist2(q, e)
  {
    hide *;
    var d, u := Distance(m, p, e), Minus(e, p);
    DistanceSpec(m, p, e);
    SquaredAsDot(p, e, v);
    assert 1.0 * 1.0 == 1.0 && d * 1.0 == d;
    CauchySchwarz(u, v, d, 1.0);
    ApproachVector(p, e, q, v, k);
    ExpandApproach(u, v, k, Dot(u, u), Dot(u, v), q, e);
    ApproachReal(d, k, Dot(u, u), Dot(u, v), Dist2(q, e));
  }

  lemma ExpandApproach(u: Point, v: Point, k: real, uu: real, uv: real, q: Point, e: Point)
    requires UnitLength(v) && uu == Dot(u, u) && uv == Dot(u, v)
    requires e.x - q.x == u.x - k * v.x && e.y - q.y == u.y - k * v.y
    ensures Dist2(q, e) == uu - 2.0 * (k * uv) + k * k
  {
    ExpandReal(u.x, u.y, v.x, v.y, k, e.x - q.x, e.y - q.y);
  }

  lemma ExpandReal(ux: real, uy: real, vx: real, vy: real, k: real, dx: real, dy: real)
    requires vx * vx + vy * vy == 1.0 && dx == ux - k * vx && dy == uy - k * vy
    ensures Square(dx) + Square(dy) == (ux * ux + uy * uy) - 2.0 * (k * (ux * vx + uy * vy)) + k * k
  {
    assert Square(dx) + Square(dy)
        == (ux * ux + uy * uy) - 2.0 * (k * (ux * vx + uy * vy)) + k * k * (vx * vx + vy * vy);
  }

  lemma ApproachKeepsClear(m: Libm, p: Point, e: Point, q: Point, v: Point, k: real, d: real)
    requires m.Exact() && UnitLength(v) && 0.0 <= k <= STEP_LENGTH && Minus(q, p) == Scale(v, k) && STEP_LENGTH <= d
    ensures Square(d) <= Dist2(p, e) ==> Square(d - STEP_LENGTH) <= Dist2(q, e)
    ensures Square(d) < Dist2(p, e) ==> Square(d - STEP_LENGTH) < Dist2(q, e)
  {
    hide Dist2, Distance, UnitLength, Minus, Scale;
    var l := Distance(m, p, e);
    DistanceSpec(m, p, e);
    if Square(d) <= Dist2(p, e) {
      CompareSquares(d, l);
      Approach(m, p, e, q, v, k);
      CompareSquares(d - STEP_LENGTH, l - k);
    }
  }

  /** Where a projectile is a fraction s of the way through its next tick. */
  function InFlight(p: Projectile, s: real): Point {
    AlongSegment(p.body.centre, ProjectileMoved(p).body.centre, s)
  }

  lemma FlightIsScaled(p: Projectile, s: real)
    requires UnitLength(p.velocity)
    ensures Minus(InFlight(p, s), p.body.centre) == Scale(p.velocity, s * STEP_LENGTH)
  {
    StepIsExact(p.velocity);
    ScaledCoordinate(p.body.centre.x, p.velocity.x, s);
    ScaledCoordinate(p.body.centre.y, p.velocity.y, s);
  }

  lemma ScaledCoordinate(x: real, v: real, s: real)
    ensures (x + s * ((x + v * STEP_LENGTH) - x)) - x == v * (s * STEP_LENGTH)
  {}

  lemma FlightKeepsClear(g: Setting, p: Projectile, s: real)
    requires g.m.Exact() && UnitLength(p.velocity) && 0.0 <= s <= 1.0
    requires ClearOfSolid(g.ground, p.body.centre, CHECKED_CLEARANCE)
    requires ClearOfObstacles(g.ground, p.body.centre, CHECKED_OBSTACLE_CLEARANCE)
    ensures ClearOfSolid(g.ground, InFlight(p, s), FLIGHT_CLEARANCE)
    ensures ClearOfObstacles(g.ground, InFlight(p, s), FLIGHT_OBSTACLE_CLEARANCE)
  {
    FlightIsScaled(p, s);
    hide Dist2, Square, Solid, UnitLength, InFlight, Minus, Scale;
    var q := InFlight(p, s);
    forall e | Solid(g.ground, e) ensures Square(FLIGHT_CLEARANCE) < Dist2(q, e) {
      ApproachKeepsClear(g.m, p.body.centre, e, q, p.velocity, s * STEP_LENGTH, CHECKED_CLEARANCE);
    }
    forall i: nat | i < |g.ground.obstacles| && 0.0 <= g.ground.obstacles[i].r
      ensures Square(g.ground.obstacles[i].r + FLIGHT_OBSTACLE_CLEARANCE) <= Dist2(q, g.ground.obstacles[i].centre)
    {
      var o := g.ground.obstacles[i];
      ApproachKeepsClear(g.m, p.body.centre, o.centre, q, p.velocity, s * STEP_LENGTH,
                         o.r + CHECKED_OBSTACLE_CLEARANCE);
      assert o.r + CHECKED_OBSTACLE_CLEARANCE - STEP_LENGTH == o.r + FLIGHT_OBSTACLE_CLEARANCE;
    }
  }

  // ---------- whole runs ----------

  predicate WellMade(p: Projectile) {
    p.body.r == PROJECTILE_RADIUS && UnitLength(p.velocity)
  }

  /** New shots join at the back, so the projectiles that have survived a check are the first ones. */
  ghost function Seasoned(g: Setting, es: seq<Event>): nat
    requires RunOk(g, es)
  {
    if es == [] then 0
    else if es[|es| - 1].Advance? then |After(g, es).projectiles|
    else Seasoned(g, es[..|es| - 1])
  }

  ghost predicate Checked(g: Setting, p: Projectile) {
    ClearOfSolid(g.ground, p.body.centre, CHECKED_CLEARANCE)
    && ClearOfObstacles(g.ground, p.body.centre, CHECKED_OBSTACLE_CLEARANCE)
  }

  lemma {:induction false} SurvivorsAreChecked(g: Setting, players: map<nat, Player>, ps: seq<Projectile>,
                                               os: seq<Outcome>)
    requires g.m.Exact() && PassOk(g.m, g.ground, players, ps, os)
    requires forall p :: p in ps ==> WellMade(p)
    ensures forall p :: p in Survivors(ps, os) ==> WellMade(p) && Checked(g, p)
  {
    hide WellMade, Checked, OutcomeOk, AfterOutcome;
    if os != [] {
      var k := |os| - 1;
      SurvivorsAreChecked(g, players, ps, os[..k]);
      if os[k].Missed? {
        MissedIsChecked(g, PassPlayers(g.m, g.ground, players, ps, os[..k]), ps[k]);
      }
    }
  }

  lemma MissedIsChecked(g: Setting, players: map<nat, Player>, p: Projectile)
    requires g.m.Exact() && WellMade(p) && OutcomeOk(g.m, g.ground, players, p, Missed)
    ensures Checked(g, p)
  {
    hide OutcomeOk, ClearOfSolid, ClearOfObstacles;
    MissedIsClear(g, players, p);
  }

  ghost predicate FlightOk(g: Setting, ps: seq<Projectile>, seasoned: nat) {
    && seasoned <= |ps|
    && (forall p :: p in ps ==> WellMade(p))
    && (forall i :: 0 <= i < seasoned ==> Checked(g, ps[i]))
  }

  lemma MessageFlight(g: Setting, s: State, message: Message, at: Point, seasoned: nat)
    requires g.m.Exact() && FlightOk(g, s.projectiles, seasoned)
    ensures FlightOk(g, Handled(g.m, s, message, at).projectiles, seasoned)
  {
    hide Checked;
  }

  lemma MovedStaysWellMade(g: Setting, s: State, order: seq<nat>)
    requires Enumerates(order, s.players.Keys) && forall p :: p in s.projectiles ==> WellMade(p)
    ensures forall p :: p in BeforeChecks(g.m, g.ground, s, order).projectiles ==> WellMade(p)
  {
    hide PlayersResolved, UnitLength, Step;
    var ps := BeforeChecks(g.m, g.ground, s, order).projectiles;
    forall p | p in ps ensures WellMade(p) {
      var i :| 0 <= i < |ps| && ps[i] == p;
      assert WellMade(s.projectiles[i]);
    }
  }

  lemma TickFlight(g: Setting, s: State, order: seq<nat>, os: seq<Outcome>)
    requires g.m.Exact() && TickOk(g.m, g.ground, s, order, os)
    requires forall p :: p in s.projectiles ==> WellMade(p)
    ensures FlightOk(g, Ticked(g.m, g.ground, s, order, os).projectiles,
                     |Ticked(g.m, g.ground, s, order, os).projectiles|)
  {
    hide WellMade, Checked, BeforeChecks, PassOk, PassPlayers;
    var b := BeforeChecks(g.m, g.ground, s, order);
    MovedStaysWellMade(g, s, order);
    SurvivorsAreChecked(g, b.players, b.projectiles, os);
  }

  lemma {:induction false} RunsFlyClear(g: Setting, es: seq<Event>)
    requires g.m.Exact() && RunOk(g, es)
    ensures FlightOk(g, After(g, es).projectiles, Seasoned(g, es))
  {
    hide WellMade, Checked, Handled, Ticked;
    if es != [] {
      var es0, e := es[..|es| - 1], es[|es| - 1];
      RunsFlyClear(g, es0);
      match e
      case Handle(message, at) => MessageFlight(g, After(g, es0), message, at, Seasoned(g, es0));
      case Advance(order, outcomes) => TickFlight(g, After(g, es0), order, outcomes);
    }
  }

  /** No tunnelling: in every reachable state, during the whole next step of every projectile that has survived
      a check, no solid point comes within 2.5 of its centre, so its path crosses no edge and enters no wall. */
  lemma NoTunnelling(g: Setting, es: seq<Event>, i: nat, s: real)
    requires g.m.Exact() && RunOk(g, es) && i < Seasoned(g, es) && 0.0 <= s <= 1.0
    ensures i < |After(g, es).projectiles|
    ensures var q := InFlight(After(g, es).projectiles[i], s);
            ClearOfSolid(g.ground, q, FLIGHT_CLEARANCE) && !Solid(g.ground, q)
            && ClearOfObstacles(g.ground, q, FLIGHT_OBSTACLE_CLEARANCE)
  {
    RunsFlyClear(g, es);
    var p := After(g, es).projectiles[i];
    assert WellMade(p) && Checked(g, p);
    FlightKeepsClear(g, p, s);
    Dist2Sign(InFlight(p, s), InFlight(p, s));
    SquareSign(FLIGHT_CLEARANCE);
    hide Solid, InFlight, ClearOfObstacles;
  }
}
