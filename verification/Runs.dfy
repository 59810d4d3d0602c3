/** Whole runs of the game: any interleaving of handled messages and ticks, from the empty state. */
module Runs {
  import opened Geometry
  import opened Pushes
  import opened Border
  import opened World
  import opened Host

  datatype Event =
    | Handle(message: Message, at: Point)
    | Advance(order: seq<nat>, outcomes: seq<Outcome>)

  datatype Setting = Setting(m: Libm, ground: GameMap)

  ghost predicate EventOk(g: Setting, s: State, e: Event) {
    e.Advance? ==> TickOk(g.m, g.ground, s, e.order, e.outcomes)
  }

  ghost function Apply(g: Setting, s: State, e: Event): State
    requires EventOk(g, s, e)
  {
    match e
    case Handle(message, at) => Handled(g.m, s, message, at)
    case Advance(order, outcomes) => Ticked(g.m, g.ground, s, order, outcomes)
  }

  ghost predicate RunOk(g: Setting, es: seq<Event>)
    decreases |es|, 0
  {
    es == [] ||
    (RunOk(g, es[..|es| - 1]) && EventOk(g, After(g, es[..|es| - 1]), es[|es| - 1]))
  }

  ghost function After(g: Setting, es: seq<Event>): State
    requires RunOk(g, es)
    decreases |es|, 1
  {
    if es == [] then State(map[], []) else Apply(g, After(g, es[..|es| - 1]), es[|es| - 1])
  }

  // ---------- what moving and pushing leaves alone ----------

  /** Nothing but the position may differ. */
  predicate SameButPlace(p: Player, q: Player) {
    q == p.(body := Circle(q.body.centre, p.body.r))
  }

  predicate SameButPlaces(ps: map<nat, Player>, qs: map<nat, Player>) {
    ps.Keys == qs.Keys && forall id :: id in ps ==> SameButPlace(ps[id], qs[id])
  }

  lemma PairKeepsAllButPlaces(m: Libm, players: map<nat, Player>, id: nat, other: nat)
    requires id in players && other in players
    ensures SameButPlaces(players, PairResolved(m, players, id, other))
  {
    PushApartKeepsSum(m, players[id].body, players[other].body);
    hide CirclesCollide, PushApart;
  }

  lemma {:induction false} WallsPassKeepsRadius(m: Libm, c: Circle, walls: seq<Rectangle>, n: nat)
    requires n <= |walls|
    ensures WallsPass(m, c, walls, n).r == c.r
  {
    hide CircleQuadCollide, CircleSegmentCollide, EdgeDisplacement;
    if n > 0 {
      WallsPassKeepsRadius(m, c, walls, n - 1);
    }
  }

  lemma {:induction false} ObstaclesPassKeepsRadius(m: Libm, c: Circle, obstacles: seq<Circle>, n: nat)
    requires n <= |obstacles|
    ensures ObstaclesPass(m, c, obstacles, n).r == c.r
  {
    hide CirclesCollide, CircleDisplacement;
    if n > 0 {
      ObstaclesPassKeepsRadius(m, c, obstacles, n - 1);
    }
  }

  lemma {:induction false} BorderPassKeepsRadius(m: Libm, c: Circle, borders: seq<Point>, n: nat)
    requires n <= |borders|
    ensures BorderPass(m, c, borders, n).r == c.r
  {
    hide CircleSegmentCollide, EdgeDisplacement;
    if n > 0 {
      BorderPassKeepsRadius(m, c, borders, n - 1);
    }
  }

  lemma SceneryPassKeepsRadius(m: Libm, ground: GameMap, c: Circle)
    ensures SceneryPass(m, ground, c).r == c.r
  {
    WallsPassKeepsRadius(m, c, ground.walls, |ground.walls|);
    var c1 := WallsPass(m, c, ground.walls, |ground.walls|);
    ObstaclesPassKeepsRadius(m, c1, ground.obstacles, |ground.obstacles|);
    var c2 := ObstaclesPass(m, c1, ground.obstacles, |ground.obstacles|);
    BorderPassKeepsRadius(m, c2, ground.borders, |ground.borders|);
  }

  lemma {:induction false} OthersPassKeepsAllButPlaces(m: Libm, players: map<nat, Player>, id: nat, order: seq<nat>,
                                                       n: nat)
    requires n <= |order| && id in players && forall i :: 0 <= i < |order| ==> order[i] in players
    ensures SameButPlaces(players, OthersPass(m, players, id, order, n))
  {
    hide PairResolved;
    if n > 0 {
      OthersPassKeepsAllButPlaces(m, players, id, order, n - 1);
      PairKeepsAllButPlaces(m, OthersPass(m, players, id, order, n - 1), id, order[n - 1]);
    }
  }

  lemma {:induction false} PlayersResolvedKeepsAllButPlaces(m: Libm, ground: GameMap, players: map<nat, Player>,
                                                            order: seq<nat>, n: nat)
    requires n <= |order| && forall i :: 0 <= i < |order| ==> order[i] in players
    ensures SameButPlaces(players, PlayersResolved(m, ground, players, order, n))
  {
    hide SceneryPass, OthersPass;
    if n > 0 {
      PlayersResolvedKeepsAllButPlaces(m, ground, players, order, n - 1);
      var before := PlayersResolved(m, ground, players, order, n - 1);
      OthersPassKeepsAllButPlaces(m, before, order[n - 1], order, |order|);
      var met := OthersPass(m, before, order[n - 1], order, |order|);
      SceneryPassKeepsRadius(m, ground, met[order[n - 1]].body);
    }
  }

  /** Up to the moment the projectiles are checked, a tick changes positions only. */
  lemma BeforeChecksKeepsAllButPlaces(g: Setting, s: State, order: seq<nat>)
    requires Enumerates(order, s.players.Keys)
    ensures SameButPlaces(s.players, BeforeChecks(g.m, g.ground, s, order).players)
    ensures |BeforeChecks(g.m, g.ground, s, order).projectiles| == |s.projectiles|
  {
    hide Plus, Step, PlayersResolved;
    PlayersResolvedKeepsAllButPlaces(g.m, g.ground, AllMoved(s).players, order, |order|);
  }

  // ---------- the speed limit ----------

  predicate WithinSpeedLimit(p: Player) {
    Square(p.velocity.x) + Square(p.velocity.y) <= 1.0 + EPSILON_ONE
  }

  predicate AllWithinSpeedLimit(players: map<nat, Player>) {
    forall id :: id in players ==> WithinSpeedLimit(players[id])
  }

  lemma StandingStill(id: nat)
    ensures WithinSpeedLimit(NewPlayer(id))
  {}

  lemma MessageKeepsSpeedLimit(g: Setting, s: State, message: Message, at: Point)
    requires AllWithinSpeedLimit(s.players)
    ensures AllWithinSpeedLimit(Handled(g.m, s, message, at).players)
  {
    StandingStill(0);
    if message.NewConnection? {
      StandingStill(message.client);
    }
    hide NewPlayer, Square;
  }

  lemma DamagedKeepsSpeedLimit(players: map<nat, Player>, victim: nat, owner: nat)
    requires victim in players && AllWithinSpeedLimit(players)
    ensures AllWithinSpeedLimit(Damaged(players, victim, owner))
  {
    StandingStill(0);
    assert WithinSpeedLimit(players[victim]);
    hide NewPlayer, Square, Increment16;
  }

  lemma {:induction false} PassKeepsSpeedLimit(g: Setting, players: map<nat, Player>, ps: seq<Projectile>,
                                               os: seq<Outcome>)
    requires PassOk(g.m, g.ground, players, ps, os) && AllWithinSpeedLimit(players)
    ensures AllWithinSpeedLimit(PassPlayers(g.m, g.ground, players, ps, os))
  {
    hide HitsWall, HitsObstacle, HitsBorder, Damaged, WithinSpeedLimit;
    if os != [] {
      var k := |os| - 1;
      var before := PassPlayers(g.m, g.ground, players, ps, os[..k]);
      PassKeepsSpeedLimit(g, players, ps, os[..k]);
      if os[k].Struck? {
        assert Strikes(before, ps[k], os[k].victim);
        DamagedKeepsSpeedLimit(before, os[k].victim, ps[k].owner);
      }
    }
  }

  /** Whatever clients send, no player ever gets a velocity beyond the limit, so a tick carries it at most
      0.9 times the square root of 1.00001 before anything pushes it. */
  lemma {:induction false} SpeedLimitHolds(g: Setting, es: seq<Event>)
    requires RunOk(g, es)
    ensures AllWithinSpeedLimit(After(g, es).players)
  {
    hide Handled, BeforeChecks, PassPlayers, PassOk, WithinSpeedLimit;
    if es != [] {
      var es0, e := es[..|es| - 1], es[|es| - 1];
      var s := After(g, es0);
      SpeedLimitHolds(g, es0);
      match e
      case Handle(message, at) => MessageKeepsSpeedLimit(g, s, message, at);
      case Advance(order, outcomes) =>
        var b := BeforeChecks(g.m, g.ground, s, order);
        BeforeChecksKeepsAllButPlaces(g, s, order);
        PlacesKeepSpeedLimit(s.players, b.players);
        PassKeepsSpeedLimit(g, b.players, b.projectiles, outcomes);
    }
  }

  lemma PlacesKeepSpeedLimit(ps: map<nat, Player>, qs: map<nat, Player>)
    requires SameButPlaces(ps, qs) && AllWithinSpeedLimit(ps)
    ensures AllWithinSpeedLimit(qs)
  {
    hide Square;
    forall id | id in qs ensures WithinSpeedLimit(qs[id]) {
      assert SameButPlace(ps[id], qs[id]) && WithinSpeedLimit(ps[id]);
    }
  }

  // ---------- a message concerns its sender only ----------

  /** Handling a message leaves every other client's entry and every projectile in the air as they were. */
  lemma MessageTouchesItsSenderOnly(g: Setting, s: State, message: Message, at: Point, id: nat)
    requires message.Empty? || id != message.client
    ensures var t := Handled(g.m, s, message, at);
            && (id in t.players <==> id in s.players)
            && (id in s.players ==> t.players[id] == s.players[id])
            && s.projectiles <= t.projectiles
  {
    hide NewPlayer, Square;
  }

  // ---------- conservation of the centres ----------

  function CentreSum(players: map<nat, Player>, order: seq<nat>, n: nat): Point
    requires n <= |order| && forall i :: 0 <= i < |order| ==> order[i] in players
  {
    if n == 0 then Point(0.0, 0.0)
    else Plus(CentreSum(players, order, n - 1), players[order[n - 1]].body.centre)
  }

  /** Replacing one entry shifts the sum by the difference, once the entry has been counted. */
  lemma {:induction false} CentreSumUpdate(players: map<nat, Player>, order: seq<nat>, n: nat, id: nat, p: Player)
    requires n <= |order| && id in players && forall i :: 0 <= i < |order| ==> order[i] in players
    requires forall i, j :: 0 <= i < j < |order| ==> order[i] != order[j]
    ensures CentreSum(players[id := p], order, n)
         == if id in order[..n]
            then Plus(CentreSum(players, order, n), Minus(p.body.centre, players[id].body.centre))
            else CentreSum(players, order, n)
  {
    if n > 0 {
      CentreSumUpdate(players, order, n - 1, id, p);
      assert order[..n] == order[..n - 1] + [order[n - 1]];
    }
  }

  lemma PairMoveConserves(players: map<nat, Player>, order: seq<nat>, id: nat, other: nat, c1: Circle, c2: Circle)
    requires id in players && other in players && id != other && Enumerates(order, players.Keys)
    requires Plus(c1.centre, c2.centre) == Plus(players[id].body.centre, players[other].body.centre)
    ensures CentreSum(players[id := players[id].(body := c1)][other := players[other].(body := c2)], order, |order|)
         == CentreSum(players, order, |order|)
  {
    assert order[..|order|] == order;
    var p, q := players[id].(body := c1), players[other].(body := c2);
    hide CentreSum;
    CentreSumUpdate(players, order, |order|, id, p);
    CentreSumUpdate(players[id := p], order, |order|, other, q);
  }

  lemma PairConservesCentres(m: Libm, players: map<nat, Player>, id: nat, other: nat, order: seq<nat>)
    requires id in players && other in players && Enumerates(order, players.Keys)
    ensures CentreSum(PairResolved(m, players, id, other), order, |order|) == CentreSum(players, order, |order|)
  {
    PushApartKeepsSum(m, players[id].body, players[other].body);
    hide CirclesCollide, PushApart, CentreSum;
    if other != id && CirclesCollide(players[id].body, players[other].body) {
      var (c1, c2) := PushApart(m, players[id].body, players[other].body);
      PairMoveConserves(players, order, id, other, c1, c2);
    }
  }

  /** Players pushing one another apart never move their common centre of mass. */
  lemma {:induction false} OthersPassConservesCentres(m: Libm, players: map<nat, Player>, id: nat, order: seq<nat>,
                                                      n: nat)
    requires n <= |order| && id in players && Enumerates(order, players.Keys)
    ensures CentreSum(OthersPass(m, players, id, order, n), order, |order|) == CentreSum(players, order, |order|)
  {
    hide PairResolved, CentreSum;
    if n > 0 {
      OthersPassConservesCentres(m, players, id, order, n - 1);
      PairConservesCentres(m, OthersPass(m, players, id, order, n - 1), id, order[n - 1], order);
    }
  }
}
