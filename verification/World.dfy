/** The state of the game and what each event does to it (Host/game.hpp, Host/game.cpp). */
module World {
  import opened Geometry
  import opened Pushes
  import opened Border

  const PLAYER_SPEED := 300.0
  const PROJECTILE_SPEED := 500.0
  const TIMESTEP := 0.003
  const PROJECTILE_DAMAGE := 10
  const PROJECTILE_RADIUS := 4.0
  const PLAYER_RADIUS := 30.0
  const EPSILON_ONE := 0.00001
  const FULL_HEALTH := 100

  /** kills and deaths are 16-bit counters. */
  function Increment16(x: nat): nat {
    (x + 1) % 0x1_0000
  }

  datatype Player = Player(body: Circle, playerId: nat, alive: bool, health: nat, velocity: Point,
                           orientation: real, kills: nat, deaths: nat)

  datatype Projectile = Projectile(body: Circle, owner: nat, velocity: Point)

  datatype GameMap = GameMap(borders: seq<Point>, walls: seq<Rectangle>, obstacles: seq<Circle>)

  datatype State = State(players: map<nat, Player>, projectiles: seq<Projectile>)

  function NewPlayer(id: nat): Player {
    Player(Circle(Point(0.0, 0.0), PLAYER_RADIUS), id, false, FULL_HEALTH, Point(0.0, 0.0), 0.0, 0, 0)
  }

  /** `players[id]`: an absent id is inserted as a default player, whose own id is 0. */
  function Touch(players: map<nat, Player>, id: nat): map<nat, Player> {
    if id in players then players else players[id := NewPlayer(0)]
  }

  // ---------- messages ----------

  datatype Command =
    | Spawn
    | Shoot
    | ChangeOrientation(angle: real)
    | ChangeMovement(velocity: Point)
    | Ping(number: nat)
    | Unknown

  datatype Message =
    | Empty
    | NewConnection(client: nat)
    | LostConnection(client: nat)
    | FromClient(client: nat, command: Command)

  datatype Reply = Welcome(client: nat) | MapData(client: nat) | Pong(client: nat, number: nat)

  function Join(s: State, id: nat): State {
    s.(players := s.players[id := NewPlayer(id)])
  }

  function Leave(s: State, id: nat): State {
    s.(players := s.players - {id})
  }

  /** `at` is the random position; the test that it lies inside the border always succeeds. */
  function SpawnAt(s: State, id: nat, at: Point): State {
    var players := Touch(s.players, id);
    var p := players[id];
    if p.alive then s.(players := players)
    else s.(players := players[id := p.(alive := true, health := FULL_HEALTH, body := Circle(at, p.body.r))])
  }

  function ShootFrom(m: Libm, s: State, id: nat): State {
    var players := Touch(s.players, id);
    var p := players[id];
    if !p.alive then s.(players := players)
    else
      var direction := Point(m.cos(p.orientation), m.sin(p.orientation));
      var start := Plus(p.body.centre, Scale(direction, p.body.r));
      State(players, s.projectiles + [Projectile(Circle(start, PROJECTILE_RADIUS), id, direction)])
  }

  function Turned(s: State, id: nat, angle: real): State {
    var players := Touch(s.players, id);
    s.(players := players[id := players[id].(orientation := angle)])
  }

  /** Too long a velocity is dropped before the player is looked up. */
  function Steered(s: State, id: nat, v: Point): State {
    if Square(v.x) + Square(v.y) <= 1.0 + EPSILON_ONE then
      var players := Touch(s.players, id);
      s.(players := players[id := players[id].(velocity := v)])
    else s
  }

  function Handled(m: Libm, s: State, message: Message, at: Point): State {
    match message
    case Empty => s
    case NewConnection(id) => Join(s, id)
    case LostConnection(id) => Leave(s, id)
    case FromClient(id, Spawn) => SpawnAt(s, id, at)
    case FromClient(id, Shoot) => ShootFrom(m, s, id)
    case FromClient(id, ChangeOrientation(angle)) => Turned(s, id, angle)
    case FromClient(id, ChangeMovement(v)) => Steered(s, id, v)
    case FromClient(id, Ping(n)) => s
    case FromClient(id, Unknown) => s
  }

  function Replies(message: Message): seq<Reply> {
    match message
    case NewConnection(id) => [Welcome(id), MapData(id)]
    case FromClient(id, Ping(n)) => [Pong(id, n)]
    case _ => []
  }

  // ---------- the tick: movement ----------

  function Step(velocity: Point, speed: real): Point {
    Scale(Scale(velocity, speed), TIMESTEP)
  }

  function PlayerMoved(p: Player): Player {
    if p.alive then p.(body := Moved(p.body, Step(p.velocity, PLAYER_SPEED))) else p
  }

  function ProjectileMoved(p: Projectile): Projectile {
    p.(body := Moved(p.body, Step(p.velocity, PROJECTILE_SPEED)))
  }

  function AllMoved(s: State): State {
    State(map id | id in s.players :: PlayerMoved(s.players[id]),
          seq(|s.projectiles|, i requires 0 <= i < |s.projectiles| => ProjectileMoved(s.projectiles[i])))
  }

  // ---------- the tick: players against everything solid ----------

  /** Some order in which an unordered_map may visit its entries. */
  predicate Enumerates(order: seq<nat>, ids: set<nat>) {
    && (forall i :: 0 <= i < |order| ==> order[i] in ids)
    && (forall id :: id in ids ==> id in order)
    && (forall i, j :: 0 <= i < j < |order| ==> order[i] != order[j])
  }

  /** One player against one other. */
  function PairResolved(m: Libm, players: map<nat, Player>, id: nat, other: nat): (r: map<nat, Player>)
    requires id in players && other in players
    ensures r.Keys == players.Keys
  {
    if other != id && CirclesCollide(players[id].body, players[other].body) then
      var (c1, c2) := PushApart(m, players[id].body, players[other].body);
      players[id := players[id].(body := c1)][other := players[other].(body := c2)]
    else players
  }

  function OthersPass(m: Libm, players: map<nat, Player>, id: nat, order: seq<nat>, n: nat): (r: map<nat, Player>)
    requires n <= |order| && id in players && forall i :: 0 <= i < |order| ==> order[i] in players
    ensures r.Keys == players.Keys
  {
    if n == 0 then players else PairResolved(m, OthersPass(m, players, id, order, n - 1), id, order[n - 1])
  }

  /** The four edges of a wall, walked backwards so that the left normals point outward. */
  function PushOffWall(m: Libm, c: Circle, q: Rectangle): Circle {
    var c1 := if CircleSegmentCollide(m, c, q.p0, q.p1) then PushOffEdge(m, c, q.p1, q.p0) else c;
    var c2 := if CircleSegmentCollide(m, c1, q.p1, q.p2) then PushOffEdge(m, c1, q.p2, q.p1) else c1;
    var c3 := if CircleSegmentCollide(m, c2, q.p2, q.p3) then PushOffEdge(m, c2, q.p3, q.p2) else c2;
    if CircleSegmentCollide(m, c3, q.p3, q.p0) then PushOffEdge(m, c3, q.p0, q.p3) else c3
  }

  function WallsPass(m: Libm, c: Circle, walls: seq<Rectangle>, n: nat): Circle
    requires n <= |walls|
  {
    if n == 0 then c
    else
      var before := WallsPass(m, c, walls, n - 1);
      if CircleQuadCollide(m, before, walls[n - 1]) then PushOffWall(m, before, walls[n - 1]) else before
  }

  function ObstaclesPass(m: Libm, c: Circle, obstacles: seq<Circle>, n: nat): Circle
    requires n <= |obstacles|
  {
    if n == 0 then c
    else
      var before := ObstaclesPass(m, c, obstacles, n - 1);
      if CirclesCollide(before, obstacles[n - 1]) then PushOffCircle(m, before, obstacles[n - 1]) else before
  }

  function SceneryPass(m: Libm, ground: GameMap, c: Circle): Circle {
    var c1 := WallsPass(m, c, ground.walls, |ground.walls|);
    var c2 := ObstaclesPass(m, c1, ground.obstacles, |ground.obstacles|);
    BorderPass(m, c2, ground.borders, |ground.borders|)
  }

  function PlayerResolved(m: Libm, ground: GameMap, players: map<nat, Player>, id: nat, order: seq<nat>)
    : (r: map<nat, Player>)
    requires id in players && forall i :: 0 <= i < |order| ==> order[i] in players
    ensures r.Keys == players.Keys
  {
    if !players[id].alive then players
    else
      var after := OthersPass(m, players, id, order, |order|);
      after[id := after[id].(body := SceneryPass(m, ground, after[id].body))]
  }

  function PlayersResolved(m: Libm, ground: GameMap, players: map<nat, Player>, order: seq<nat>, n: nat)
    : (r: map<nat, Player>)
    requires n <= |order| && forall i :: 0 <= i < |order| ==> order[i] in players
    ensures r.Keys == players.Keys
  {
    if n == 0 then players
    else PlayerResolved(m, ground, PlayersResolved(m, ground, players, order, n - 1), order[n - 1], order)
  }

  // ---------- the tick: projectiles ----------

  predicate HitsWall(m: Libm, ground: GameMap, c: Circle) {
    exists i :: 0 <= i < |ground.walls| && CircleQuadCollide(m, c, ground.walls[i])
  }

  predicate HitsObstacle(ground: GameMap, c: Circle) {
    exists i :: 0 <= i < |ground.obstacles| && CirclesCollide(c, ground.obstacles[i])
  }

  predicate HitsBorder(m: Libm, ground: GameMap, c: Circle) {
    exists i :: 0 <= i < |ground.borders| && CircleSegmentCollide(m, c, ground.borders[i], Next(ground.borders, i))
  }

  predicate Strikes(players: map<nat, Player>, p: Projectile, id: nat) {
    id in players && players[id].alive && id != p.owner && CirclesCollide(p.body, players[id].body)
  }

  /** How one projectile's check may end. */
  datatype Outcome = Missed | Scenery | Struck(victim: nat)

  /** Walls and obstacles come first, then the players in any order, then the border. */
  ghost predicate OutcomeOk(m: Libm, ground: GameMap, players: map<nat, Player>, p: Projectile, o: Outcome) {
    var solid := HitsWall(m, ground, p.body) || HitsObstacle(ground, p.body);
    var struck := exists id :: Strikes(players, p, id);
    match o
    case Missed => !solid && !struck && !HitsBorder(m, ground, p.body)
    case Scenery => solid || (!struck && HitsBorder(m, ground, p.body))
    case Struck(id) => !solid && Strikes(players, p, id)
  }

  /** Ten points of damage. The fatal hit leaves the health where it is, counts a death for the victim and
      a kill for the owner; an owner who has left is inserted again to receive it. */
  function Damaged(players: map<nat, Player>, victim: nat, owner: nat): map<nat, Player>
    requires victim in players
  {
    var v := players[victim];
    if v.health <= PROJECTILE_DAMAGE then
      var fallen := Touch(players[victim := v.(alive := false, deaths := Increment16(v.deaths))], owner);
      fallen[owner := fallen[owner].(kills := Increment16(fallen[owner].kills))]
    else players[victim := v.(health := v.health - PROJECTILE_DAMAGE)]
  }

  function AfterOutcome(players: map<nat, Player>, p: Projectile, o: Outcome): map<nat, Player>
    requires o.Struck? ==> o.victim in players
  {
    if o.Struck? then Damaged(players, o.victim, p.owner) else players
  }

  /** The outcomes of one whole pass: every projectile is checked once, each against the players the earlier
      checks left behind. */
  ghost predicate PassOk(m: Libm, ground: GameMap, players: map<nat, Player>, ps: seq<Projectile>, os: seq<Outcome>)
    decreases |os|, 0
  {
    |os| <= |ps| &&
    (os == [] ||
      var k := |os| - 1;
      PassOk(m, ground, players, ps, os[..k]) &&
      OutcomeOk(m, ground, PassPlayers(m, ground, players, ps, os[..k]), ps[k], os[k]))
  }

  ghost function PassPlayers(m: Libm, ground: GameMap, players: map<nat, Player>, ps: seq<Projectile>,
                             os: seq<Outcome>): map<nat, Player>
    requires PassOk(m, ground, players, ps, os)
    decreases |os|, 1
  {
    if os == [] then players
    else
      var k := |os| - 1;
      AfterOutcome(PassPlayers(m, ground, players, ps, os[..k]), ps[k], os[k])
  }

  /** The projectiles whose check was false, in their original order. */
  function Survivors(ps: seq<Projectile>, os: seq<Outcome>): seq<Projectile>
    requires |os| <= |ps|
  {
    if os == [] then []
    else
      var k := |os| - 1;
      if os[k].Missed? then Survivors(ps, os[..k]) + [ps[k]] else Survivors(ps, os[..k])
  }
}
