/** The Game object of Host/game.cpp: its fields, the message handlers and the tick. */
module Host {
  import opened Geometry
  import opened Pushes
  import opened Border
  import opened World

  /** Picks some visiting order for an unordered_map with these keys. */
  method VisitingOrder(ids: set<nat>) returns (order: seq<nat>)
    ensures Enumerates(order, ids)
  {
    order := [];
    var rest := ids;
    while rest != {}
      invariant rest <= ids && Enumerates(order, ids - rest)
      decreases rest
    {
      var id :| id in rest;
      order := order + [id];
      rest := rest - {id};
    }
  }

  class Game {
    const m: Libm
    const ground: GameMap
    var players: map<nat, Player>
    var projectiles: seq<Projectile>

    constructor (m: Libm, ground: GameMap)
      ensures this.m == m && this.ground == ground && Now() == State(map[], [])
    {
      this.m, this.ground := m, ground;
      players, projectiles := map[], [];
    }

    ghost function Now(): State
      reads this
    {
      State(players, projectiles)
    }

    // ---------- messages ----------

    method CreateNewPlayer(id: nat)
      modifies this`players
      ensures Now() == Join(old(Now()), id)
    {
      players := players[id := NewPlayer(id)];
    }

    method DeletePlayer(id: nat)
      modifies this`players
      ensures Now() == Leave(old(Now()), id)
    {
      players := players - {id};
    }

    method SpawnPlayer(id: nat, at: Point)
      modifies this`players
      ensures Now() == SpawnAt(old(Now()), id, at)
    {
      players := Touch(players, id);
      if !players[id].alive {
        players := players[id := players[id].(alive := true)];
        players := players[id := players[id].(health := FULL_HEALTH)];
        players := players[id := players[id].(body := Circle(at, players[id].body.r))];
        assert players == SpawnAt(old(Now()), id, at).players;
      }
    }

    method ShootProjectile(id: nat)
      modifies this
      ensures Now() == ShootFrom(m, old(Now()), id)
    {
      players := Touch(players, id);
      var player := players[id];
      if !player.alive {
        return;
      }
      var direction := Point(m.cos(player.orientation), m.sin(player.orientation));
      var start := Plus(player.body.centre, Scale(direction, player.body.r));
      projectiles := projectiles + [Projectile(Circle(start, PROJECTILE_RADIUS), id, direction)];
    }

    method ChangePlayerOrientation(id: nat, angle: real)
      modifies this`players
      ensures Now() == Turned(old(Now()), id, angle)
    {
      players := Touch(players, id);
      players := players[id := players[id].(orientation := angle)];
    }

    method ChangePlayerMovement(id: nat, v: Point)
      modifies this`players
      ensures Now() == Steered(old(Now()), id, v)
    {
      if Square(v.x) + Square(v.y) <= 1.0 + EPSILON_ONE {
        players := Touch(players, id);
        players := players[id := players[id].(velocity := v)];
      }
    }

    /** One message taken from the received queue; `at` is where a spawn would put the player. */
    method HandleMessage(message: Message, at: Point) returns (replies: seq<Reply>)
      modifies this
      ensures Now() == Handled(m, old(Now()), message, at)
      ensures replies == Replies(message)
    {
      replies := [];
      match message {
        case Empty =>
        case NewConnection(id) =>
          CreateNewPlayer(id);
          replies := replies + [Welcome(id)];
          replies := replies + [MapData(id)];
        case LostConnection(id) =>
          DeletePlayer(id);
        case FromClient(id, command) =>
          match command {
            case Spawn => SpawnPlayer(id, at);
            case Shoot => ShootProjectile(id);
            case ChangeOrientation(angle) => ChangePlayerOrientation(id, angle);
            case ChangeMovement(v) => ChangePlayerMovement(id, v);
            case Ping(n) => replies := replies + [Pong(id, n)];
            case Unknown =>
          }
      }
    }

    // ---------- the tick ----------

    method UpdatePositions()
      modifies this
      ensures Now() == AllMoved(old(Now()))
    {
      ghost var before := Now();
      var order := VisitingOrder(players.Keys);
      var n := 0;
      while n < |order|
        invariant 0 <= n <= |order|
        invariant projectiles == before.projectiles && players.Keys == before.players.Keys
        invariant forall i :: 0 <= i < n ==> players[order[i]] == PlayerMoved(before.players[order[i]])
        invariant forall i :: n <= i < |order| ==> players[order[i]] == before.players[order[i]]
      {
        var id := order[n];
        if players[id].alive {
          players := players[id := players[id].(body := Moved(players[id].body,
                                                              Step(players[id].velocity, PLAYER_SPEED)))];
        }
        n := n + 1;
      }
      assert players == AllMoved(before).players;
      n := 0;
      while n < |projectiles|
        invariant 0 <= n <= |projectiles| == |before.projectiles|
        invariant players == AllMoved(before).players
        invariant forall i :: 0 <= i < n ==> projectiles[i] == ProjectileMoved(before.projectiles[i])
        invariant forall i :: n <= i < |projectiles| ==> projectiles[i] == before.projectiles[i]
      {
        var p := projectiles[n];
        projectiles := projectiles[n := p.(body := Moved(p.body, Step(p.velocity, PROJECTILE_SPEED)))];
        n := n + 1;
      }
      assert projectiles == AllMoved(before).projectiles;
    }

    method PushAgainstOthers(id: nat, order: seq<nat>)
      requires id in players && forall i :: 0 <= i < |order| ==> order[i] in players
      modifies this`players
      ensures players == OthersPass(m, old(players), id, order, |order|)
    {
      hide CirclesCollide, PushApart;
      var n := 0;
      while n < |order|
        invariant 0 <= n <= |order|
        invariant players == OthersPass(m, old(players), id, order, n)
      {
        var other := order[n];
        if other != id {
          if CirclesCollide(players[id].body, players[other].body) {
            var (c1, c2) := PushApart(m, players[id].body, players[other].body);
            players := players[id := players[id].(body := c1)];
            players := players[other := players[other].(body := c2)];
          }
        }
        n := n + 1;
      }
    }

    method MoveOffWall(c: Circle, q: Rectangle) returns (moved: Circle)
      ensures moved == PushOffWall(m, c, q)
    {
      moved := c;
      if CircleSegmentCollide(m, moved, q.p0, q.p1) {
        moved := PushOffEdge(m, moved, q.p1, q.p0);
      }
      if CircleSegmentCollide(m, moved, q.p1, q.p2) {
        moved := PushOffEdge(m, moved, q.p2, q.p1);
      }
      if CircleSegmentCollide(m, moved, q.p2, q.p3) {
        moved := PushOffEdge(m, moved, q.p3, q.p2);
      }
      if CircleSegmentCollide(m, moved, q.p3, q.p0) {
        moved := PushOffEdge(m, moved, q.p0, q.p3);
      }
    }

    method PushAgainstScenery(c: Circle) returns (moved: Circle)
      requires ground.borders != []
      ensures moved == SceneryPass(m, ground, c)
    {
      hide CirclesCollide, CircleQuadCollide, PushOffCircle, PushOffWall, BorderPass;
      moved := c;
      var n := 0;
      while n < |ground.walls|
        invariant 0 <= n <= |ground.walls|
        invariant moved == WallsPass(m, c, ground.walls, n)
      {
        if CircleQuadCollide(m, moved, ground.walls[n]) {
          moved := MoveOffWall(moved, ground.walls[n]);
        }
        n := n + 1;
      }
      ghost var c1 := moved;
      n := 0;
      while n < |ground.obstacles|
        invariant 0 <= n <= |ground.obstacles|
        invariant moved == ObstaclesPass(m, c1, ground.obstacles, n)
      {
        if CirclesCollide(moved, ground.obstacles[n]) {
          moved := PushOffCircle(m, moved, ground.obstacles[n]);
        }
        n := n + 1;
      }
      moved := PushInsideBorder(m, moved, ground.borders);
    }

    method ResolvePlayers() returns (order: seq<nat>)
      requires ground.borders != []
      modifies this`players
      ensures Enumerates(order, old(players).Keys)
      ensures players == PlayersResolved(m, ground, old(players), order, |order|)
    {
      hide OthersPass, SceneryPass;
      order := VisitingOrder(players.Keys);
      var n := 0;
      while n < |order|
        invariant 0 <= n <= |order|
        invariant players == PlayersResolved(m, ground, old(players), order, n)
      {
        var id := order[n];
        if players[id].alive {
          PushAgainstOthers(id, order);
          var c := PushAgainstScenery(players[id].body);
          players := players[id := players[id].(body := c)];
        }
        n := n + 1;
      }
    }

    /** checkProjectileCollisions: the verdict, and how it came about. */
    method CheckProjectileCollisions(p: Projectile) returns (hit: bool, ghost outcome: Outcome)
      requires ground.borders != []
      modifies this`players
      ensures OutcomeOk(m, ground, old(players), p, outcome)
      ensures players == AfterOutcome(old(players), p, outcome)
      ensures hit <==> !outcome.Missed?
    {
      hide CirclesCollide, CircleQuadCollide, CircleSegmentCollide, Increment16;
      var n := 0;
      while n < |ground.walls|
        invariant 0 <= n <= |ground.walls|
        invariant forall i :: 0 <= i < n ==> !CircleQuadCollide(m, p.body, ground.walls[i])
      {
        if CircleQuadCollide(m, p.body, ground.walls[n]) {
          assert HitsWall(m, ground, p.body);
          return true, Scenery;
        }
        n := n + 1;
      }
      n := 0;
      while n < |ground.obstacles|
        invariant 0 <= n <= |ground.obstacles|
        invariant forall i :: 0 <= i < n ==> !CirclesCollide(p.body, ground.obstacles[i])
      {
        if CirclesCollide(p.body, ground.obstacles[n]) {
          assert HitsObstacle(ground, p.body);
          return true, Scenery;
        }
        n := n + 1;
      }
      var order := VisitingOrder(players.Keys);
      n := 0;
      while n < |order|
        invariant 0 <= n <= |order| && players == old(players)
        invariant forall i :: 0 <= i < n ==> !Strikes(players, p, order[i])
      {
        var id := order[n];
        var player := players[id];
        if player.alive && id != p.owner && CirclesCollide(p.body, player.body) {
          assert Strikes(players, p, id);
          if player.health <= PROJECTILE_DAMAGE {
            players := players[id := players[id].(alive := false)];
            players := players[id := players[id].(deaths := Increment16(players[id].deaths))];
            players := Touch(players, p.owner);
            players := players[p.owner := players[p.owner].(kills := Increment16(players[p.owner].kills))];
            assert players == Damaged(old(players), id, p.owner);
          } else {
            players := players[id := player.(health := player.health - PROJECTILE_DAMAGE)];
          }
          return true, Struck(id);
        }
        n := n + 1;
      }
      assert forall id :: !Strikes(players, p, id);
      n := 0;
      while n < |ground.borders| - 1
        invariant 0 <= n <= |ground.borders| - 1
        invariant forall i :: 0 <= i < n ==> !CircleSegmentCollide(m, p.body, ground.borders[i],
                                                                   Next(ground.borders, i))
      {
        if CircleSegmentCollide(m, p.body, ground.borders[n], ground.borders[n + 1]) {
          assert Next(ground.borders, n) == ground.borders[n + 1];
          assert HitsBorder(m, ground, p.body);
          return true, Scenery;
        }
        n := n + 1;
      }
      var last := |ground.borders| - 1;
      if CircleSegmentCollide(m, p.body, ground.borders[last], ground.borders[0]) {
        assert Next(ground.borders, last) == ground.borders[0];
        assert HitsBorder(m, ground, p.body);
        return true, Scenery;
      }
      return false, Missed;
    }

    /** The second half of checkCollisions: projectiles are erased from the vector while it is being walked. */
    method CheckProjectiles() returns (ghost outcomes: seq<Outcome>)
      requires ground.borders != []
      modifies this
      ensures |outcomes| == |old(projectiles)| && PassOk(m, ground, old(players), old(projectiles), outcomes)
      ensures players == PassPlayers(m, ground, old(players), old(projectiles), outcomes)
      ensures projectiles == Survivors(old(projectiles), outcomes)
    {
      outcomes := [];
      ghost var ps := projectiles;
      var i := 0;
      assert PassOk(m, ground, players, ps, []) && PassPlayers(m, ground, players, ps, []) == players;
      hide PassOk, PassPlayers, OutcomeOk, AfterOutcome;
      while i < |projectiles|
        invariant |outcomes| <= |ps| && PassOk(m, ground, old(players), ps, outcomes)
        invariant players == PassPlayers(m, ground, old(players), ps, outcomes)
        invariant 0 <= i == |Survivors(ps, outcomes)| <= |projectiles|
        invariant projectiles == Survivors(ps, outcomes) + ps[|outcomes|..]
        decreases |ps| - |outcomes|
      {
        ghost var os := outcomes;
        var p := projectiles[i];
        assert p == ps[|os|] && projectiles == Survivors(ps, os) + ps[|os|..];
        var hit, outcome := CheckProjectileCollisions(p);
        outcomes := os + [outcome];
        PassGoesOn(m, ground, old(players), ps, os, outcome);
        SurvivorsGoOn(ps, os, outcome);
        WalkGoesOn(Survivors(ps, os), ps, |os|);
        hide Survivors;
        if hit {
          projectiles := projectiles[..i] + projectiles[i + 1..];
        } else {
          i := i + 1;
        }
      }
    }

    /** updatePositions followed by checkCollisions. */
    method Tick() returns (order: seq<nat>, ghost outcomes: seq<Outcome>)
      requires ground.borders != []
      modifies this
      ensures TickOk(m, ground, old(Now()), order, outcomes)
      ensures Now() == Ticked(m, ground, old(Now()), order, outcomes)
    {
      UpdatePositions();
      order := ResolvePlayers();
      outcomes := CheckProjectiles();
    }
  }

  lemma PassGoesOn(m: Libm, ground: GameMap, players: map<nat, Player>, ps: seq<Projectile>, os: seq<Outcome>,
                   o: Outcome)
    requires |os| < |ps| && PassOk(m, ground, players, ps, os)
    requires OutcomeOk(m, ground, PassPlayers(m, ground, players, ps, os), ps[|os|], o)
    ensures PassOk(m, ground, players, ps, os + [o])
    ensures o.Struck? ==> o.victim in PassPlayers(m, ground, players, ps, os)
    ensures PassPlayers(m, ground, players, ps, os + [o])
        == AfterOutcome(PassPlayers(m, ground, players, ps, os), ps[|os|], o)
  {
    hide HitsWall, HitsObstacle, HitsBorder, CirclesCollide, AfterOutcome;
    assert (os + [o])[..|os|] == os;
  }

  /** Erasing the element the walk has reached, or stepping over it. */
  lemma WalkGoesOn(kept: seq<Projectile>, ps: seq<Projectile>, k: nat)
    requires k < |ps|
    ensures var all := kept + ps[k..];
            && all[..|kept|] + all[|kept| + 1..] == kept + ps[k + 1..]
            && all == (kept + [ps[k]]) + ps[k + 1..]
            && kept + [] == kept
  {
    assert ps[k..] == [ps[k]] + ps[k + 1..];
  }

  lemma SurvivorsGoOn(ps: seq<Projectile>, os: seq<Outcome>, o: Outcome)
    requires |os| < |ps|
    ensures Survivors(ps, os + [o]) == Survivors(ps, os) + (if o.Missed? then [ps[|os|]] else [])
  {
    assert (os + [o])[..|os|] == os;
  }

  /** The state in which the projectiles are checked. */
  function BeforeChecks(m: Libm, ground: GameMap, s: State, order: seq<nat>): State
    requires Enumerates(order, s.players.Keys)
  {
    var moved := AllMoved(s);
    moved.(players := PlayersResolved(m, ground, moved.players, order, |order|))
  }

  ghost predicate TickOk(m: Libm, ground: GameMap, s: State, order: seq<nat>, os: seq<Outcome>) {
    Enumerates(order, s.players.Keys) &&
    var b := BeforeChecks(m, ground, s, order);
    |os| == |b.projectiles| && PassOk(m, ground, b.players, b.projectiles, os)
  }

  ghost function Ticked(m: Libm, ground: GameMap, s: State, order: seq<nat>, os: seq<Outcome>): State
    requires TickOk(m, ground, s, order, os)
  {
    var b := BeforeChecks(m, ground, s, order);
    State(PassPlayers(m, ground, b.players, b.projectiles, os), Survivors(b.projectiles, os))
  }
}
