/** Whom and what a player meets in a tick, and where each encounter leaves it (checkCollisions, Host/game.cpp): one
    encounter after the other, in the order of the loops, each told in distances and coordinates. */
module Encounters {
  import opened Geometry
  import opened SegmentTest
  import opened QuadTest
  import opened Pushes
  import opened Border
  import opened World
  import opened Host
  import opened Walls
  import opened Boundary
  import opened Contacts
  import Runs

  // ---------- two circles ----------

  /** From c1 and c2 to d1 and d2: they share the way, end exactly touching, and neither jumps over the other. */
  ghost predicate Parted(c1: Circle, c2: Circle, d1: Circle, d2: Circle) {
    && d1.r == c1.r && d2.r == c2.r && Plus(d1.centre, d2.centre) == Plus(c1.centre, c2.centre)
    && Dist2(d1.centre, d2.centre) == Square(c1.r + c2.r)
    && exists k :: 0.0 < k && Minus(d1.centre, d2.centre) == Scale(Minus(c1.centre, c2.centre), k)
  }

  /** From c to d: off the obstacle, exactly touching it, on the same side of its centre. */
  ghost predicate PushedFrom(c: Circle, o: Circle, d: Circle) {
    && d.r == c.r && Dist2(d.centre, o.centre) == Square(c.r + o.r)
    && exists k :: 0.0 < k && Minus(d.centre, o.centre) == Scale(Minus(c.centre, o.centre), k)
  }

  lemma PositiveQuotient(r: real, l: real, q: real)
    requires 0.0 < l && 0.0 < r && q * l == r
    ensures 0.0 < q
  {
    if q <= 0.0 {
      NonNegativeProduct(-q, l, -r);
    }
  }

  lemma RadiiArePositive(c1: Circle, c2: Circle)
    requires !Apart(c1, c2) && 0.0 <= c1.r + c2.r
    ensures 0.0 < c1.r + c2.r
  {
    Dist2Sign(c1.centre, c2.centre);
    assert Square(0.0) == 0.0;
    hide Dist2, Square;
  }

  lemma ApartCoordinate(x: real, l: real, r: real, k: real, n: real, p: real, q: real, p': real, q': real)
    requires n * l == x && k * l == r && x == p - q
    requires p' == p + n * ((r - l) / 2.0) && q' == q + n * ((r - l) / 2.0) * -1.0
    ensures p' - q' == x * k
  {
    HalvesAddUp(p, q, n, r - l, p', q');
    assert n * (r - l) == n * r - n * l;
    assert n * (k * l) == (n * l) * k;
  }

  lemma OffCoordinate(x: real, l: real, r: real, k: real, n: real, p: real, q: real, p': real)
    requires n * l == x && k * l == r && x == p - q && p' == p + n * (r - l)
    ensures p' - q == x * k
  {
    assert n * (r - l) == n * r - n * l;
    assert n * (k * l) == (n * l) * k;
  }

  lemma Ratio(r: real, l: real) returns (k: real)
    requires 0.0 < l
    ensures k * l == r
  {
    k := r / l;
  }

  lemma UnitBetween(m: Libm, p: Point, q: Point)
    requires m.Exact() && p != q
    ensures var (n, l) := (Normalized(m, Minus(p, q)), Distance(m, p, q));
            0.0 < l && n.x * l == p.x - q.x && n.y * l == p.y - q.y
  {
    DistanceSpec(m, p, q);
    LengthIsDistance(m, p, q);
    hide Distance, Length, Dist2, Square;
  }

  lemma ApartAlong(n: Point, l: real, r: real, k: real, p: Point, q: Point, p': Point, q': Point)
    requires n.x * l == p.x - q.x && n.y * l == p.y - q.y && k * l == r
    requires p' == Plus(p, Scale(n, (r - l) / 2.0)) && q' == Plus(q, Scale(Scale(n, (r - l) / 2.0), -1.0))
    ensures Minus(p', q') == Scale(Minus(p, q), k)
  {
    ApartCoordinate(p.x - q.x, l, r, k, n.x, p.x, q.x, p'.x, q'.x);
    ApartCoordinate(p.y - q.y, l, r, k, n.y, p.y, q.y, p'.y, q'.y);
  }

  lemma ApartDirection(m: Libm, c1: Circle, c2: Circle) returns (k: real)
    requires m.Exact() && c1.centre != c2.centre
    ensures var (d1, d2) := PushApart(m, c1, c2);
            Minus(d1.centre, d2.centre) == Scale(Minus(c1.centre, c2.centre), k)
    ensures k * Distance(m, c1.centre, c2.centre) == c1.r + c2.r
  {
    var l, r := Distance(m, c1.centre, c2.centre), c1.r + c2.r;
    var (d1, d2) := PushApart(m, c1, c2);
    var n := Normalized(m, Minus(c1.centre, c2.centre));
    UnitBetween(m, c1.centre, c2.centre);
    hide Distance, Normalized, Plus, Scale, Minus;
    k := Ratio(r, l);
    ApartAlong(n, l, r, k, c1.centre, c2.centre, d1.centre, d2.centre);
  }

  lemma PushApartParts(m: Libm, c1: Circle, c2: Circle)
    requires m.Exact() && c1.centre != c2.centre && 0.0 <= c1.r + c2.r && !Apart(c1, c2)
    ensures var (d1, d2) := PushApart(m, c1, c2);
            Parted(c1, c2, d1, d2)
  {
    var (d1, d2) := PushApart(m, c1, c2);
    var l, r := Distance(m, c1.centre, c2.centre), c1.r + c2.r;
    RadiiArePositive(c1, c2);
    PushApartKeepsSum(m, c1, c2);
    PushApartTouches(m, c1, c2);
    DistanceSpec(m, d1.centre, d2.centre);
    DistanceSpec(m, c1.centre, c2.centre);
    var k := ApartDirection(m, c1, c2);
    PositiveQuotient(r, l, k);
    hide PushApart, Distance, Dist2, Apart;
  }

  lemma OffAlong(n: Point, l: real, r: real, k: real, p: Point, q: Point, p': Point)
    requires n.x * l == p.x - q.x && n.y * l == p.y - q.y && k * l == r
    requires p' == Plus(p, Scale(n, r - l))
    ensures Minus(p', q) == Scale(Minus(p, q), k)
  {
    OffCoordinate(p.x - q.x, l, r, k, n.x, p.x, q.x, p'.x);
    OffCoordinate(p.y - q.y, l, r, k, n.y, p.y, q.y, p'.y);
  }

  lemma OffDirection(m: Libm, c: Circle, o: Circle) returns (k: real)
    requires m.Exact() && c.centre != o.centre
    ensures var d := PushOffCircle(m, c, o);
            d.r == c.r && Minus(d.centre, o.centre) == Scale(Minus(c.centre, o.centre), k)
    ensures k * Distance(m, c.centre, o.centre) == c.r + o.r
  {
    var l, r := Distance(m, c.centre, o.centre), c.r + o.r;
    var n := Normalized(m, Minus(c.centre, o.centre));
    UnitBetween(m, c.centre, o.centre);
    hide Distance, Normalized, Plus, Scale, Minus;
    k := Ratio(r, l);
    OffAlong(n, l, r, k, c.centre, o.centre, PushOffCircle(m, c, o).centre);
  }

  lemma PushOffCircleParts(m: Libm, c: Circle, o: Circle)
    requires m.Exact() && c.centre != o.centre && 0.0 <= c.r + o.r && !Apart(c, o)
    ensures PushedFrom(c, o, PushOffCircle(m, c, o))
  {
    var d := PushOffCircle(m, c, o);
    var l, r := Distance(m, c.centre, o.centre), c.r + o.r;
    RadiiArePositive(c, o);
    PushOffCircleTouches(m, c, o);
    DistanceSpec(m, d.centre, o.centre);
    DistanceSpec(m, c.centre, o.centre);
    var k := OffDirection(m, c, o);
    PositiveQuotient(r, l, k);
    hide PushOffCircle, Distance, Dist2, Apart;
  }

  // ---------- player against player ----------

  /** Two players meet: if they overlap they part, each keeping its own end of the way; nothing else changes. Nothing is
      said of where two players with the same centre go. */
  ghost predicate Met(s: map<nat, Player>, t: map<nat, Player>, id: nat, other: nat)
    requires id in s && other in s
  {
    if other == id || Apart(s[id].body, s[other].body) then t == s
    else
      && t.Keys == s.Keys
      && t == s[id := s[id].(body := t[id].body)][other := s[other].(body := t[other].body)]
      && (s[id].body.centre != s[other].body.centre && 0.0 <= s[id].body.r + s[other].body.r
          ==> Parted(s[id].body, s[other].body, t[id].body, t[other].body))
  }

  lemma PairMeets(m: Libm, players: map<nat, Player>, id: nat, other: nat)
    requires m.Exact() && id in players && other in players
    ensures Met(players, PairResolved(m, players, id, other), id, other)
  {
    var c1, c2 := players[id].body, players[other].body;
    CircleTestExact(c1, c2);
    hide Parted, PushApart, Dist2, Square;
    if other != id && !Apart(c1, c2) {
      if c1.centre != c2.centre && 0.0 <= c1.r + c2.r {
        PushApartParts(m, c1, c2);
      }
      hide CirclesCollide, Apart;
    }
  }

  /** One player meets all in turn. */
  ghost predicate MeetsAll(s: map<nat, Player>, id: nat, order: seq<nat>, ts: seq<map<nat, Player>>) {
    && |ts| == |order| + 1 && ts[0] == s
    && (forall n :: 0 <= n < |ts| ==> ts[n].Keys == s.Keys)
    && id in s && (forall n :: 0 <= n < |order| ==> order[n] in s)
    && forall n :: 0 <= n < |order| ==> Met(ts[n], ts[n + 1], id, order[n])
  }

  /** A player against all others in turn: each with the places the earlier encounters left, none left out. */
  lemma OthersInTurn(m: Libm, players: map<nat, Player>, id: nat, order: seq<nat>) returns (ts: seq<map<nat, Player>>)
    requires m.Exact() && id in players && forall i :: 0 <= i < |order| ==> order[i] in players
    ensures MeetsAll(players, id, order, ts) && ts[|order|] == OthersPass(m, players, id, order, |order|)
  {
    hide Met, PairResolved;
    ts := seq(|order| + 1, n requires 0 <= n <= |order| => OthersPass(m, players, id, order, n));
    forall n | 0 <= n < |order| ensures Met(ts[n], ts[n + 1], id, order[n]) {
      PairMeets(m, ts[n], id, order[n]);
    }
  }

  /** One other player only, visited before or after the player itself: the two part if they overlap, and nothing
      happens otherwise. */
  lemma OneOther(m: Libm, players: map<nat, Player>, id: nat, other: nat, order: seq<nat>)
    requires m.Exact() && id in players && other in players && id != other
    requires order == [id, other] || order == [other, id]
    ensures Met(players, OthersPass(m, players, id, order, 2), id, other)
  {
    hide Met, CirclesCollide, PushApart;
    assert OthersPass(m, players, id, order, 0) == players;
    PairMeets(m, players, id, other);
    assert PairResolved(m, players, id, id) == players;
    var after := PairResolved(m, players, id, other);
    assert PairResolved(m, after, id, id) == after;
    hide PairResolved;
    assert OthersPass(m, players, id, order, 1) == PairResolved(m, players, id, order[0]);
  }

  // ---------- player against scenery ----------

  /** One thing a player may be pushed off: a side of a wall, an obstacle, an edge of the border. */
  datatype Bump = Side(a: Point, b: Point) | Round(o: Circle) | Fence(a: Point, b: Point)

  function WallBumps(walls: seq<Rectangle>): seq<Bump> {
    if walls == [] then []
    else
      var q := walls[|walls| - 1];
      WallBumps(walls[..|walls| - 1]) + [Side(q.p0, q.p1), Side(q.p1, q.p2), Side(q.p2, q.p3), Side(q.p3, q.p0)]
  }

  function ObstacleBumps(obstacles: seq<Circle>): seq<Bump> {
    seq(|obstacles|, i requires 0 <= i < |obstacles| => Round(obstacles[i]))
  }

  function BorderBumps(borders: seq<Point>): seq<Bump> {
    seq(|borders|, i requires 0 <= i < |borders| => Fence(borders[i], Next(borders, i)))
  }

  /** All of a map: the walls side by side, then the obstacles, then the border. */
  function Bumps(ground: GameMap): seq<Bump> {
    WallBumps(ground.walls) + ObstacleBumps(ground.obstacles) + BorderBumps(ground.borders)
  }

  /** Where a bump leaves the player, in the frame of the edge or by the distance to the obstacle. Nothing is said of an
      edge of no length, nor of a player whose centre is that of the obstacle. */
  ghost predicate Bumped(b: Bump, c: Circle, d: Circle) {
    match b
    case Side(p, q) => d.r == c.r && forall e, l, t, s ::
      UnitLength(e) && 0.0 < l && q == InFrame(p, e, l, 0.0) && c.centre == InFrame(p, e, t, s)
      ==> d.centre == InFrame(p, e, t, Shifted(t, s, l, c.r))
    case Fence(p, q) => d.r == c.r && forall e, l, t, s ::
      UnitLength(e) && 0.0 < l && q == InFrame(p, e, l, 0.0) && c.centre == InFrame(p, e, t, s)
      ==> d.centre == InFrame(p, e, t, Lifted(t, s, l, c.r))
    case Round(o) =>
      if Apart(c, o) then d == c else d.r == c.r && (c.centre != o.centre && 0.0 <= c.r + o.r ==> PushedFrom(c, o, d))
  }

  ghost predicate BumpsAll(bs: seq<Bump>, cs: seq<Circle>) {
    |cs| == |bs| + 1 && forall i :: 0 <= i < |bs| ==> Bumped(bs[i], cs[i], cs[i + 1])
  }

  lemma SideBumps(m: Libm, a: Point, b: Point, c: Circle)
    requires m.Exact() && 0.0 <= c.r
    ensures Bumped(Side(a, b), c, SideStep(m, c, a, b))
  {
    hide CircleSegmentCollide, EdgeDisplacement, Shifted, InFrame, UnitLength;
    forall e, l, t, s | UnitLength(e) && 0.0 < l && b == InFrame(a, e, l, 0.0) && c.centre == InFrame(a, e, t, s)
      ensures SideStep(m, c, a, b).centre == InFrame(a, e, t, Shifted(t, s, l, c.r))
    {
      SideStepExact(m, a, e, l, t, s, c.r);
    }
  }

  lemma FenceBumps(m: Libm, a: Point, b: Point, c: Circle)
    requires m.Exact() && 0.0 <= c.r
    ensures Bumped(Fence(a, b), c, EdgeStep(m, c, a, b))
  {
    hide CircleSegmentCollide, EdgeDisplacement, Lifted, InFrame, UnitLength;
    forall e, l, t, s | UnitLength(e) && 0.0 < l && b == InFrame(a, e, l, 0.0) && c.centre == InFrame(a, e, t, s)
      ensures EdgeStep(m, c, a, b).centre == InFrame(a, e, t, Lifted(t, s, l, c.r))
    {
      EdgeStepExact(m, a, e, l, t, s, c.r);
    }
  }

  lemma ObstacleBumped(m: Libm, c: Circle, o: Circle)
    requires m.Exact()
    ensures Bumped(Round(o), c, if CirclesCollide(c, o) then PushOffCircle(m, c, o) else c)
  {
    CircleTestExact(c, o);
    if !Apart(c, o) && c.centre != o.centre && 0.0 <= c.r + o.r {
      PushOffCircleParts(m, c, o);
    }
    hide PushedFrom, Dist2, Square, CircleDisplacement;
  }

  /** The test that guards the push off a wall changes nothing: where it is false no side would push. */
  lemma GuardChangesNothing(m: Libm, c: Circle, q: Rectangle)
    ensures (if CircleQuadCollide(m, c, q) then PushOffWall(m, c, q) else c) == PushOffWall(m, c, q)
  {
    hide CircleSegmentCollide, CentreTest, PushOffEdge;
  }

  lemma ChainJoins(bs: seq<Bump>, cs: seq<Circle>, bs': seq<Bump>, cs': seq<Circle>)
    requires BumpsAll(bs, cs) && BumpsAll(bs', cs') && cs[|bs|] == cs'[0]
    ensures BumpsAll(bs + bs', cs + cs'[1..])
    ensures (cs + cs'[1..])[0] == cs[0] && (cs + cs'[1..])[|bs + bs'|] == cs'[|bs'|]
  {
    hide Bumped;
    var bs2, cs2 := bs + bs', cs + cs'[1..];
    forall i | 0 <= i < |bs2| ensures Bumped(bs2[i], cs2[i], cs2[i + 1]) {
      if i >= |bs| {
        assert Bumped(bs'[i - |bs|], cs'[i - |bs|], cs'[i - |bs| + 1]);
      }
    }
  }

  lemma FourSidesChain(m: Libm, c: Circle, q: Rectangle) returns (cs: seq<Circle>)
    requires m.Exact() && 0.0 <= c.r
    ensures BumpsAll([Side(q.p0, q.p1), Side(q.p1, q.p2), Side(q.p2, q.p3), Side(q.p3, q.p0)], cs)
    ensures cs[0] == c && cs[4] == PushOffWall(m, c, q)
  {
    PushOffWallIsFourSteps(m, c, q);
    hide SideStep, Bumped;
    var c1 := SideStep(m, c, q.p0, q.p1);
    SideBumps(m, q.p0, q.p1, c);
    var c2 := SideStep(m, c1, q.p1, q.p2);
    assert c1.r == c.r by { BumpKeepsRadius(Side(q.p0, q.p1), c, c1); }
    SideBumps(m, q.p1, q.p2, c1);
    var c3 := SideStep(m, c2, q.p2, q.p3);
    assert c2.r == c.r by { BumpKeepsRadius(Side(q.p1, q.p2), c1, c2); }
    SideBumps(m, q.p2, q.p3, c2);
    var c4 := SideStep(m, c3, q.p3, q.p0);
    assert c3.r == c.r by { BumpKeepsRadius(Side(q.p2, q.p3), c2, c3); }
    SideBumps(m, q.p3, q.p0, c3);
    cs := [c, c1, c2, c3, c4];
  }

  lemma BumpKeepsRadius(b: Bump, c: Circle, d: Circle)
    requires Bumped(b, c, d)
    ensures d.r == c.r
  {}

  lemma {:induction false} WallsChain(m: Libm, c: Circle, walls: seq<Rectangle>, n: nat) returns (cs: seq<Circle>)
    requires m.Exact() && 0.0 <= c.r && n <= |walls|
    ensures BumpsAll(WallBumps(walls[..n]), cs) && cs[0] == c && cs[|cs| - 1] == WallsPass(m, c, walls, n)
  {
    hide Bumped, PushOffWall, CircleQuadCollide;
    if n == 0 {
      cs := [c];
    } else {
      cs := WallsChain(m, c, walls, n - 1);
      assert walls[..n][..n - 1] == walls[..n - 1] && walls[..n][n - 1] == walls[n - 1];
      var q, before := walls[n - 1], WallsPass(m, c, walls, n - 1);
      GuardChangesNothing(m, before, q);
      Runs.WallsPassKeepsRadius(m, c, walls, n - 1);
      var more := FourSidesChain(m, before, q);
      var sides := [Side(q.p0, q.p1), Side(q.p1, q.p2), Side(q.p2, q.p3), Side(q.p3, q.p0)];
      ChainJoins(WallBumps(walls[..n - 1]), cs, sides, more);
      cs := cs + more[1..];
    }
  }

  lemma ObstaclesChain(m: Libm, c: Circle, obstacles: seq<Circle>) returns (cs: seq<Circle>)
    requires m.Exact()
    ensures BumpsAll(ObstacleBumps(obstacles), cs) && cs[0] == c
    ensures cs[|cs| - 1] == ObstaclesPass(m, c, obstacles, |obstacles|)
  {
    hide Bumped, CirclesCollide, PushOffCircle;
    cs := seq(|obstacles| + 1, n requires 0 <= n <= |obstacles| => ObstaclesPass(m, c, obstacles, n));
    forall i | 0 <= i < |obstacles| ensures Bumped(Round(obstacles[i]), cs[i], cs[i + 1]) {
      ObstacleBumped(m, cs[i], obstacles[i]);
    }
  }

  lemma BorderChain(m: Libm, c: Circle, borders: seq<Point>) returns (cs: seq<Circle>)
    requires m.Exact() && 0.0 <= c.r
    ensures BumpsAll(BorderBumps(borders), cs) && cs[0] == c
    ensures cs[|cs| - 1] == BorderPass(m, c, borders, |borders|)
  {
    hide Bumped, EdgeStep;
    cs := seq(|borders| + 1, n requires 0 <= n <= |borders| => BorderPass(m, c, borders, n));
    forall i | 0 <= i < |borders| ensures Bumped(Fence(borders[i], Next(borders, i)), cs[i], cs[i + 1]) {
      Runs.BorderPassKeepsRadius(m, c, borders, i);
      FenceBumps(m, borders[i], Next(borders, i), cs[i]);
    }
  }

  /** A player against the whole scenery of any map: every side of every wall, every obstacle and every edge of the
      border in turn, each from the place the earlier ones left. */
  lemma SceneryInTurn(m: Libm, ground: GameMap, c: Circle) returns (cs: seq<Circle>)
    requires m.Exact() && 0.0 <= c.r
    ensures BumpsAll(Bumps(ground), cs) && cs[0] == c && cs[|cs| - 1] == SceneryPass(m, ground, c)
  {
    hide Bumped, WallsPass, ObstaclesPass, BorderPass, WallBumps, ObstacleBumps, BorderBumps;
    assert ground.walls[..|ground.walls|] == ground.walls;
    var c1 := WallsPass(m, c, ground.walls, |ground.walls|);
    var c2 := ObstaclesPass(m, c1, ground.obstacles, |ground.obstacles|);
    cs := WallsChain(m, c, ground.walls, |ground.walls|);
    var cs1 := ObstaclesChain(m, c1, ground.obstacles);
    Runs.WallsPassKeepsRadius(m, c, ground.walls, |ground.walls|);
    Runs.ObstaclesPassKeepsRadius(m, c1, ground.obstacles, |ground.obstacles|);
    var cs2 := BorderChain(m, c2, ground.borders);
    ChainJoins(WallBumps(ground.walls), cs, ObstacleBumps(ground.obstacles), cs1);
    cs := cs + cs1[1..];
    ChainJoins(WallBumps(ground.walls) + ObstacleBumps(ground.obstacles), cs, BorderBumps(ground.borders), cs2);
    cs := cs + cs2[1..];
  }

  // ---------- a whole tick ----------

  /** What the tick does before anything is met: a living player goes 0.9 times its velocity. */
  function Strode(p: Player): Player {
    if p.alive then p.(body := Circle(Plus(p.body.centre, Scale(p.velocity, 0.9)), p.body.r)) else p
  }

  lemma MovedStrides(p: Player)
    ensures PlayerMoved(p) == Strode(p)
  {
    StridesAlong(p.velocity.x);
    StridesAlong(p.velocity.y);
  }

  lemma StridesAlong(x: real)
    ensures x * PLAYER_SPEED * TIMESTEP == x * 0.9
  {}

  /** One player's turn: a dead one does nothing; a living one meets all the others and then the scenery. */
  ghost predicate Turn(ground: GameMap, order: seq<nat>, s: map<nat, Player>, t: map<nat, Player>, id: nat) {
    id in s
    && if !s[id].alive then t == s
       else exists ts, cs :: Turned(ground, order, s, t, id, ts, cs)
  }

  ghost predicate Turned(ground: GameMap, order: seq<nat>, s: map<nat, Player>, t: map<nat, Player>, id: nat,
                         ts: seq<map<nat, Player>>, cs: seq<Circle>) {
    && MeetsAll(s, id, order, ts) && BumpsAll(Bumps(ground), cs)
    && var met := ts[|order|];
       cs[0] == met[id].body && t == met[id := met[id].(body := cs[|cs| - 1])]
  }

  lemma TurnTaken(m: Libm, ground: GameMap, players: map<nat, Player>, id: nat, order: seq<nat>)
    requires m.Exact() && id in players && forall i :: 0 <= i < |order| ==> order[i] in players
    requires forall k :: k in players ==> 0.0 <= players[k].body.r
    ensures Turn(ground, order, players, PlayerResolved(m, ground, players, id, order), id)
  {
    hide OthersPass, SceneryPass, MeetsAll, BumpsAll, Bumps;
    if players[id].alive {
      var ts := OthersInTurn(m, players, id, order);
      var met := OthersPass(m, players, id, order, |order|);
      Runs.OthersPassKeepsAllButPlaces(m, players, id, order, |order|);
      assert Runs.SameButPlace(players[id], met[id]);
      var cs := SceneryInTurn(m, ground, met[id].body);
      MeetingsCount(players, id, order, ts);
      assert Turned(ground, order, players, PlayerResolved(m, ground, players, id, order), id, ts, cs);
    }
  }

  lemma MeetingsCount(s: map<nat, Player>, id: nat, order: seq<nat>, ts: seq<map<nat, Player>>)
    requires MeetsAll(s, id, order, ts)
    ensures |ts| == |order| + 1 && id in s && forall n :: 0 <= n < |ts| ==> ts[n].Keys == s.Keys
  {}

  /** Every tick, on every map, in whatever order the players are visited: they stride, and then each has one turn, with
      the places the earlier turns left. */
  ghost predicate Turns(ground: GameMap, before: map<nat, Player>, order: seq<nat>, ts: seq<map<nat, Player>>) {
    && |ts| == |order| + 1 && ts[0] == (map id | id in before :: Strode(before[id]))
    && forall n :: 0 <= n < |order| ==> Turn(ground, order, ts[n], ts[n + 1], order[n])
  }

  lemma AllStride(s: State)
    ensures AllMoved(s).players == map id | id in s.players :: Strode(s.players[id])
  {
    hide PlayerMoved, Strode;
    forall id | id in s.players ensures PlayerMoved(s.players[id]) == Strode(s.players[id]) {
      MovedStrides(s.players[id]);
    }
  }

  lemma TurnTakenAt(m: Libm, ground: GameMap, moved: map<nat, Player>, order: seq<nat>, n: nat)
    requires m.Exact() && n < |order| && forall i :: 0 <= i < |order| ==> order[i] in moved
    requires forall k :: k in moved ==> 0.0 <= moved[k].body.r
    ensures Turn(ground, order, PlayersResolved(m, ground, moved, order, n),
                 PlayersResolved(m, ground, moved, order, n + 1), order[n])
  {
    var before := PlayersResolved(m, ground, moved, order, n);
    Runs.PlayersResolvedKeepsAllButPlaces(m, ground, moved, order, n);
    assert forall k :: k in moved ==> Runs.SameButPlace(moved[k], before[k]);
    hide Turn, PlayerResolved;
    TurnTaken(m, ground, before, order[n], order);
  }

  lemma TickInTurns(m: Libm, ground: GameMap, s: State, order: seq<nat>) returns (ts: seq<map<nat, Player>>)
    requires m.Exact() && Enumerates(order, s.players.Keys)
    requires forall k :: k in s.players ==> 0.0 <= s.players[k].body.r
    ensures Turns(ground, s.players, order, ts) && ts[|order|] == BeforeChecks(m, ground, s, order).players
  {
    hide Turn, PlayersResolved;
    var moved := AllMoved(s).players;
    AllStride(s);
    ts := seq(|order| + 1, n requires 0 <= n <= |order| => PlayersResolved(m, ground, moved, order, n));
    assert PlayersResolved(m, ground, moved, order, 0) == moved by { NobodyYet(m, ground, moved, order); }
    forall n | 0 <= n < |order| ensures Turn(ground, order, ts[n], ts[n + 1], order[n]) {
      TurnTakenAt(m, ground, moved, order, n);
    }
  }

  lemma NobodyYet(m: Libm, ground: GameMap, moved: map<nat, Player>, order: seq<nat>)
    requires forall i :: 0 <= i < |order| ==> order[i] in moved
    ensures PlayersResolved(m, ground, moved, order, 0) == moved
  {}

  // ---------- single encounters ----------

  /** Out of the reach of the segment test for every edge of the border. */
  ghost predicate FreeOfBorder(ground: GameMap, c: Circle) {
    forall i: nat :: i < |ground.borders| ==> !NearEdge(c, ground.borders[i], Next(ground.borders, i))
  }

  lemma {:induction false} BorderPassLeaves(m: Libm, ground: GameMap, c: Circle, n: nat)
    requires m.Exact() && FreeOfBorder(ground, c) && n <= |ground.borders|
    ensures BorderPass(m, c, ground.borders, n) == c
  {
    hide CircleSegmentCollide, NearEdge;
    if n > 0 {
      BorderPassLeaves(m, ground, c, n - 1);
      NotNearNotHit(m, c, ground.borders[n - 1], Next(ground.borders, n - 1));
    }
  }

  lemma NotNearNotHit(m: Libm, c: Circle, a: Point, b: Point)
    requires m.Exact() && !NearEdge(c, a, b)
    ensures !CircleSegmentCollide(m, c, a, b)
  {
    hide CircleSegmentCollide, SegmentNearer, Square;
    if CircleSegmentCollide(m, c, a, b) {
      SegmentTestSound(m, c, a, b);
    }
  }

  /** One obstacle and nothing else in reach: a player that overlaps it ends just touching it, on the side it came from;
      any other stays where it is. */
  lemma OneObstacle(m: Libm, ground: GameMap, c: Circle, o: Circle)
    requires m.Exact() && ground.walls == [] && ground.obstacles == [o] && c.centre != o.centre && 0.0 <= c.r + o.r
    requires forall d :: d == c || PushedFrom(c, o, d) ==> FreeOfBorder(ground, d)
    ensures var d := SceneryPass(m, ground, c);
            if Apart(c, o) then d == c else PushedFrom(c, o, d)
  {
    hide Bumped, PushedFrom, Apart, FreeOfBorder, CirclesCollide, PushOffCircle;
    var d := if CirclesCollide(c, o) then PushOffCircle(m, c, o) else c;
    assert WallsPass(m, c, ground.walls, 0) == c;
    assert ObstaclesPass(m, c, ground.obstacles, 0) == c;
    assert ObstaclesPass(m, c, ground.obstacles, 1) == d;
    ObstacleBumped(m, c, o);
    assert d == c || PushedFrom(c, o, d) by { BumpedOff(c, o, d); }
    BumpedOff(c, o, d);
    BorderPassLeaves(m, ground, d, |ground.borders|);
    hide WallsPass, ObstaclesPass, BorderPass;
  }

  lemma BumpedOff(c: Circle, o: Circle, d: Circle)
    requires Bumped(Round(o), c, d) && c.centre != o.centre && 0.0 <= c.r + o.r
    ensures if Apart(c, o) then d == c else PushedFrom(c, o, d)
  {}

  /** One rectangular wall and nothing else in reach: the player ends where the closed form of the four sides says, from
      every position. */
  lemma OneWall(m: Libm, ground: GameMap, o: Point, d: Point, w: real, h: real, u: real, v: real, r: real)
    requires Proper(m, d, w, h, r) && ground.walls == [RectangularWall(o, d, w, h)] && ground.obstacles == []
    requires var (u', v') := PushedOff(w, h, u, v, r);
             FreeOfBorder(ground, Circle(InFrame(o, d, u', v'), r))
    ensures var (u', v') := PushedOff(w, h, u, v, r);
            SceneryPass(m, ground, Circle(InFrame(o, d, u, v), r)) == Circle(InFrame(o, d, u', v'), r)
  {
    hide RectangularWall, InFrame, UnitLength, PushOffWall, CircleQuadCollide, PushedOff, FreeOfBorder, BorderPass;
    var c, q := Circle(InFrame(o, d, u, v), r), RectangularWall(o, d, w, h);
    var (u', v') := PushedOff(w, h, u, v, r);
    var c' := Circle(InFrame(o, d, u', v'), r);
    assert WallsPass(m, c, ground.walls, 0) == c;
    GuardChangesNothing(m, c, q);
    assert WallsPass(m, c, ground.walls, 1) == PushOffWall(m, c, q);
    WallPushExact(m, o, d, w, h, u, v, r);
    assert ObstaclesPass(m, c', ground.obstacles, 0) == c';
    BorderPassLeaves(m, ground, c', |ground.borders|);
    hide WallsPass, ObstaclesPass;
  }

  // ---------- nothing to touch ----------

  /** In the reach of no side, obstacle or edge. */
  ghost predicate FreeOfScenery(ground: GameMap, c: Circle) {
    && FreeOfBorder(ground, c)
    && (forall i: nat :: i < |ground.obstacles| ==> Apart(c, ground.obstacles[i]))
    && forall i: nat, k: nat :: i < |ground.walls| && k < 4 ==>
         !NearEdge(c, Edge(ground.walls[i], k).0, Edge(ground.walls[i], k).1)
  }

  /** No two players overlap, and no living one is in reach of the scenery. */
  ghost predicate NothingToTouch(ground: GameMap, players: map<nat, Player>) {
    && (forall i, k :: i in players && k in players && i != k ==> Apart(players[i].body, players[k].body))
    && forall i :: i in players && players[i].alive ==> FreeOfScenery(ground, players[i].body)
  }

  lemma {:induction false} WallsPassLeaves(m: Libm, ground: GameMap, c: Circle, n: nat)
    requires m.Exact() && FreeOfScenery(ground, c) && n <= |ground.walls|
    ensures WallsPass(m, c, ground.walls, n) == c
  {
    hide CircleSegmentCollide, NearEdge, CentreTest, FreeOfBorder, Apart;
    if n > 0 {
      WallsPassLeaves(m, ground, c, n - 1);
      var q := ground.walls[n - 1];
      NotNearNotHit(m, c, Edge(q, 0).0, Edge(q, 0).1);
      NotNearNotHit(m, c, Edge(q, 1).0, Edge(q, 1).1);
      NotNearNotHit(m, c, Edge(q, 2).0, Edge(q, 2).1);
      NotNearNotHit(m, c, Edge(q, 3).0, Edge(q, 3).1);
    }
  }

  lemma {:induction false} ObstaclesPassLeaves(m: Libm, ground: GameMap, c: Circle, n: nat)
    requires FreeOfScenery(ground, c) && n <= |ground.obstacles|
    ensures ObstaclesPass(m, c, ground.obstacles, n) == c
  {
    hide NearEdge, FreeOfBorder, Apart, CirclesCollide, PushOffCircle;
    if n > 0 {
      ObstaclesPassLeaves(m, ground, c, n - 1);
      CircleTestExact(c, ground.obstacles[n - 1]);
      ApartIsNoCollision(c, ground.obstacles[n - 1]);
    }
  }

  lemma ApartIsNoCollision(c1: Circle, c2: Circle)
    requires Apart(c1, c2)
    ensures !CirclesCollide(c1, c2)
  {
    CircleTestExact(c1, c2);
    hide Dist2, Square;
  }

  lemma SceneryLeaves(m: Libm, ground: GameMap, c: Circle)
    requires m.Exact() && FreeOfScenery(ground, c)
    ensures SceneryPass(m, ground, c) == c
  {
    WallsPassLeaves(m, ground, c, |ground.walls|);
    ObstaclesPassLeaves(m, ground, c, |ground.obstacles|);
    BorderPassLeaves(m, ground, c, |ground.borders|);
    hide WallsPass, ObstaclesPass, BorderPass, FreeOfScenery;
  }

  lemma {:induction false} OthersLeave(m: Libm, ground: GameMap, players: map<nat, Player>, id: nat, order: seq<nat>,
                                       n: nat)
    requires NothingToTouch(ground, players) && n <= |order| && id in players
    requires forall i :: 0 <= i < |order| ==> order[i] in players
    ensures OthersPass(m, players, id, order, n) == players
  {
    hide FreeOfScenery, Apart, CirclesCollide, PushApart;
    if n > 0 {
      OthersLeave(m, ground, players, id, order, n - 1);
      if order[n - 1] != id {
        ApartIsNoCollision(players[id].body, players[order[n - 1]].body);
      }
    }
  }

  lemma {:induction false} TurnsLeave(m: Libm, ground: GameMap, players: map<nat, Player>, order: seq<nat>, n: nat)
    requires m.Exact() && NothingToTouch(ground, players) && n <= |order|
    requires forall i :: 0 <= i < |order| ==> order[i] in players
    ensures PlayersResolved(m, ground, players, order, n) == players
  {
    hide FreeOfScenery, Apart, OthersPass, SceneryPass;
    if n > 0 {
      var id := order[n - 1];
      TurnsLeave(m, ground, players, order, n - 1);
      OthersLeave(m, ground, players, id, order, |order|);
      if players[id].alive {
        SceneryLeaves(m, ground, players[id].body);
      }
    }
  }

  /** With nothing to touch, a tick is the strides and no more. */
  lemma NothingTouched(m: Libm, ground: GameMap, s: State, order: seq<nat>)
    requires m.Exact() && Enumerates(order, s.players.Keys)
    requires NothingToTouch(ground, map id | id in s.players :: Strode(s.players[id]))
    ensures var b := BeforeChecks(m, ground, s, order).players;
            b.Keys == s.players.Keys && forall id :: id in b ==> b[id] == Strode(s.players[id])
  {
    var moved := AllMoved(s).players;
    AllStride(s);
    hide NothingToTouch, PlayersResolved, Strode;
    TurnsLeave(m, ground, moved, order, |order|);
  }
}
