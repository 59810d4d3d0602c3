/** What the projectile checks decide, in distances: a hit is contact, a miss is none, and walls and obstacles come
    first (checkProjectileCollisions, Host/game.cpp). */
module Contacts {
  import opened Geometry
  import opened SegmentTest
  import opened QuadTest
  import opened Border
  import opened World
  import opened Host
  import opened Runs
  import opened Ledger
  import opened Tunnelling

  /** The slack of the circle test. */
  const CIRCLE_TOLERANCE := 0.0000000001

  lemma CircleTestExact(c1: Circle, c2: Circle)
    ensures CirclesCollide(c1, c2) <==> Dist2(c1.centre, c2.centre) < Square(c1.r + c2.r) - CIRCLE_TOLERANCE
  {
    SquareSign(c2.centre.x - c1.centre.x);
    SquareSign(c2.centre.y - c1.centre.y);
    assert c1.centre.x - c2.centre.x == -(c2.centre.x - c1.centre.x);
    assert c1.centre.y - c2.centre.y == -(c2.centre.y - c1.centre.y);
    hide Square;
  }

  // ---------- one check ----------

  /** The two discs overlap. */
  predicate Overlap(c1: Circle, c2: Circle) {
    Dist2(c1.centre, c2.centre) < Square(c1.r + c2.r)
  }

  /** They keep apart, but for the slack of the test. */
  predicate Apart(c1: Circle, c2: Circle) {
    Square(c1.r + c2.r) - CIRCLE_TOLERANCE <= Dist2(c1.centre, c2.centre)
  }

  /** The disc is clear of every obstacle and of every wall, a convex one with its inside. */
  ghost predicate ClearOfBlocks(ground: GameMap, c: Circle) {
    && (forall i: nat :: i < |ground.obstacles| ==> Apart(c, ground.obstacles[i]))
    && forall e :: OnWallEdge(ground, e) || InConvexWall(ground, e) ==> Square(c.r) < Dist2(c.centre, e)
  }

  ghost predicate ClearOfBorder(ground: GameMap, c: Circle) {
    forall e :: OnBorder(ground, e) ==> Square(c.r) < Dist2(c.centre, e)
  }

  /** The reach of the segment test. */
  ghost predicate NearEdge(c: Circle, a: Point, b: Point) {
    SegmentNearer(c.centre, a, b, Square(c.r) + Square(LENGTH_TOLERANCE / 2.0))
  }

  ghost predicate NearWall(c: Circle, q: Rectangle) {
    || (exists i: nat :: i < 4 && NearEdge(c, Edge(q, i).0, Edge(q, i).1))
    || forall w :: ConvexQuad(q, w) ==> Excess(q, w, c.centre) <= AREA_TOLERANCE
  }

  ghost predicate NearBlock(ground: GameMap, c: Circle) {
    || (exists i: nat :: i < |ground.obstacles| && Overlap(c, ground.obstacles[i]))
    || exists i: nat :: i < |ground.walls| && NearWall(c, ground.walls[i])
  }

  ghost predicate NearBorder(ground: GameMap, c: Circle) {
    exists i: nat :: i < |ground.borders| && NearEdge(c, ground.borders[i], Next(ground.borders, i))
  }

  /** A living player other than the owner. */
  predicate Target(players: map<nat, Player>, p: Projectile, id: nat) {
    id in players && players[id].alive && id != p.owner
  }

  /** The outcome of a check, in distances alone. */
  ghost predicate Means(ground: GameMap, players: map<nat, Player>, p: Projectile, o: Outcome) {
    match o
    case Struck(id) => Target(players, p, id) && Overlap(p.body, players[id].body) && ClearOfBlocks(ground, p.body)
    case Missed =>
      && ClearOfBlocks(ground, p.body) && ClearOfBorder(ground, p.body)
      && forall id :: Target(players, p, id) ==> Apart(p.body, players[id].body)
    case Scenery =>
      || NearBlock(ground, p.body)
      || (NearBorder(ground, p.body) && forall id :: Target(players, p, id) ==> Apart(p.body, players[id].body))
  }

  lemma NotSolidIsClear(g: Setting, c: Circle)
    requires g.m.Exact() && 0.0 <= c.r && !HitsWall(g.m, g.ground, c) && !HitsObstacle(g.ground, c)
    ensures ClearOfBlocks(g.ground, c)
  {
    forall i: nat | i < |g.ground.obstacles| ensures Apart(c, g.ground.obstacles[i]) {
      CircleTestExact(c, g.ground.obstacles[i]);
    }
    hide HitsWall, HitsObstacle, OnWallEdge, InConvexWall, Dist2, Square, CirclesCollide, Apart;
    forall e | OnWallEdge(g.ground, e) || InConvexWall(g.ground, e) ensures Square(c.r) < Dist2(c.centre, e) {
      if OnWallEdge(g.ground, e) {
        MissedWallEdge(g, c, e);
      } else {
        MissedConvexWall(g, c, e);
      }
    }
  }

  lemma HitWallIsNear(m: Libm, c: Circle, q: Rectangle)
    requires m.Exact() && CircleQuadCollide(m, c, q)
    ensures NearWall(c, q)
  {
    hide CircleQuadCollide, ConvexQuad, Excess, Edge, SegmentNearer, Square;
    forall w | ConvexQuad(q, w) && !(Excess(q, w, c.centre) <= AREA_TOLERANCE)
      ensures exists i: nat :: i < 4 && NearEdge(c, Edge(q, i).0, Edge(q, i).1)
    {
      QuadTestSound(m, c, q, w);
      var i: nat :| i < 4 && SegmentNearer(c.centre, Edge(q, i).0, Edge(q, i).1,
                                           Square(c.r) + Square(LENGTH_TOLERANCE / 2.0));
      assert NearEdge(c, Edge(q, i).0, Edge(q, i).1);
    }
  }

  lemma SolidIsNear(g: Setting, c: Circle)
    requires g.m.Exact() && (HitsWall(g.m, g.ground, c) || HitsObstacle(g.ground, c))
    ensures NearBlock(g.ground, c)
  {
    hide CircleQuadCollide, CirclesCollide, NearWall, Dist2, Square;
    if HitsWall(g.m, g.ground, c) {
      var i :| 0 <= i < |g.ground.walls| && CircleQuadCollide(g.m, c, g.ground.walls[i]);
      HitWallIsNear(g.m, c, g.ground.walls[i]);
    } else {
      var i :| 0 <= i < |g.ground.obstacles| && CirclesCollide(c, g.ground.obstacles[i]);
      CircleTestExact(c, g.ground.obstacles[i]);
    }
  }

  lemma HitBorderIsNear(g: Setting, c: Circle)
    requires g.m.Exact() && HitsBorder(g.m, g.ground, c)
    ensures NearBorder(g.ground, c)
  {
    hide CircleSegmentCollide, SegmentNearer, Square;
    var i :| 0 <= i < |g.ground.borders| && CircleSegmentCollide(g.m, c, g.ground.borders[i],
                                                                 Next(g.ground.borders, i));
    SegmentTestSound(g.m, c, g.ground.borders[i], Next(g.ground.borders, i));
  }

  lemma NotStruckIsApart(players: map<nat, Player>, p: Projectile)
    requires !exists id :: Strikes(players, p, id)
    ensures forall id :: Target(players, p, id) ==> Apart(p.body, players[id].body)
  {
    forall id | Target(players, p, id) ensures Apart(p.body, players[id].body) {
      assert !Strikes(players, p, id);
      CircleTestExact(p.body, players[id].body);
    }
  }

  /** One check, whatever the map, the players and the order in which they are visited: a struck player is alive, not
      the owner, and touched; after a miss no other living player, wall, obstacle or border is touched; a projectile
      stopped by scenery is at some, and if only at the border then touches no player. */
  lemma OutcomeIsContact(g: Setting, players: map<nat, Player>, p: Projectile, o: Outcome)
    requires g.m.Exact() && 0.0 <= p.body.r && OutcomeOk(g.m, g.ground, players, p, o)
    ensures Means(g.ground, players, p, o)
  {
    hide HitsWall, HitsObstacle, HitsBorder, ClearOfBlocks, NearBlock, NearBorder, OnBorder, Dist2, Square;
    hide CirclesCollide;
    var solid := HitsWall(g.m, g.ground, p.body) || HitsObstacle(g.ground, p.body);
    if solid {
      SolidIsNear(g, p.body);
    } else {
      NotSolidIsClear(g, p.body);
    }
    match o
    case Struck(id) => CircleTestExact(p.body, players[id].body);
    case Missed =>
      NotStruckIsApart(players, p);
      forall e | OnBorder(g.ground, e) ensures Square(p.body.r) < Dist2(p.body.centre, e) {
        MissedBorder(g, p.body, e);
      }
    case Scenery =>
      if !solid {
        HitBorderIsNear(g, p.body);
        NotStruckIsApart(players, p);
      }
  }

  // ---------- one pass ----------

  /** A pass moves nobody, revives nobody, and lets in nobody alive. */
  predicate OnlyFewerAlive(before: map<nat, Player>, after: map<nat, Player>) {
    && before.Keys <= after.Keys
    && forall id :: id in after ==>
         if id in before then after[id].body == before[id].body && (after[id].alive ==> before[id].alive)
         else !after[id].alive
  }

  lemma OutcomeKillsOnly(players: map<nat, Player>, p: Projectile, o: Outcome)
    requires o.Struck? ==> o.victim in players
    ensures OnlyFewerAlive(players, AfterOutcome(players, p, o))
  {
    hide Increment16;
  }

  lemma FewerTransitive(a: map<nat, Player>, b: map<nat, Player>, c: map<nat, Player>)
    requires OnlyFewerAlive(a, b) && OnlyFewerAlive(b, c)
    ensures OnlyFewerAlive(a, c)
  {}

  lemma {:induction false} PassKillsOnly(g: Setting, players: map<nat, Player>, ps: seq<Projectile>, os: seq<Outcome>,
                                         k: nat)
    requires PassOk(g.m, g.ground, players, ps, os) && k <= |os|
    ensures PassOk(g.m, g.ground, players, ps, os[..k])
    ensures OnlyFewerAlive(PassPlayers(g.m, g.ground, players, ps, os[..k]),
                           PassPlayers(g.m, g.ground, players, ps, os))
  {
    if k == |os| {
      assert os[..k] == os;
      hide PassOk, PassPlayers;
    } else {
      var last := |os| - 1;
      var before := PassPlayers(g.m, g.ground, players, ps, os[..last]);
      assert os[..last][..k] == os[..k];
      PassKillsOnly(g, players, ps, os[..last], k);
      if os[last].Struck? {
        StruckIsStrike(g, before, ps[last], os[last]);
      }
      OutcomeKillsOnly(before, ps[last], os[last]);
      FewerTransitive(PassPlayers(g.m, g.ground, players, ps, os[..k]), before,
                      AfterOutcome(before, ps[last], os[last]));
      hide OnlyFewerAlive, AfterOutcome, OutcomeOk;
    }
  }

  /** What the k-th outcome of a pass means for the players at the beginning of the pass and at its end. */
  ghost predicate MeansInPass(ground: GameMap, before: map<nat, Player>, after: map<nat, Player>, p: Projectile,
                              o: Outcome) {
    match o
    case Struck(id) => Target(before, p, id) && Overlap(p.body, before[id].body) && ClearOfBlocks(ground, p.body)
    case Missed =>
      && ClearOfBlocks(ground, p.body) && ClearOfBorder(ground, p.body)
      && forall id :: Target(after, p, id) ==> id in before && Apart(p.body, before[id].body)
    case Scenery =>
      || NearBlock(ground, p.body)
      || (NearBorder(ground, p.body)
          && forall id :: Target(after, p, id) ==> id in before && Apart(p.body, before[id].body))
  }

  lemma ContactInPass(ground: GameMap, before: map<nat, Player>, now: map<nat, Player>, after: map<nat, Player>,
                      p: Projectile, o: Outcome)
    requires OnlyFewerAlive(before, now) && OnlyFewerAlive(now, after) && Means(ground, now, p, o)
    ensures MeansInPass(ground, before, after, p, o)
  {
    hide ClearOfBlocks, ClearOfBorder, NearBlock, NearBorder, Apart, Overlap;
  }

  lemma PassIsContact(g: Setting, players: map<nat, Player>, ps: seq<Projectile>, os: seq<Outcome>, k: nat)
    requires g.m.Exact() && PassOk(g.m, g.ground, players, ps, os) && k < |os| && 0.0 <= ps[k].body.r
    ensures MeansInPass(g.ground, players, PassPlayers(g.m, g.ground, players, ps, os), ps[k], os[k])
  {
    PassKillsOnly(g, players, ps, os, k);
    PassKillsOnly(g, players, ps, os, k + 1);
    PassKillsOnly(g, players, ps, os[..k], 0);
    assert os[..k + 1][..k] == os[..k] && os[..k][..0] == [];
    var now := PassPlayers(g.m, g.ground, players, ps, os[..k]);
    assert PassPlayers(g.m, g.ground, players, ps, []) == players;
    assert OutcomeOk(g.m, g.ground, now, ps[k], os[k]);
    hide PassOk, PassPlayers, OutcomeOk, Means, MeansInPass;
    OutcomeIsContact(g, now, ps[k], os[k]);
    ContactInPass(g.ground, players, now, PassPlayers(g.m, g.ground, players, ps, os), ps[k], os[k]);
  }

  // ---------- whole runs ----------

  lemma {:induction false} EarlierRun(g: Setting, es: seq<Event>, j: nat)
    requires RunOk(g, es) && j < |es|
    ensures RunOk(g, es[..j]) && EventOk(g, After(g, es[..j]), es[j])
    ensures RunOk(g, es[..j + 1]) && After(g, es[..j + 1]) == Apply(g, After(g, es[..j]), es[j])
  {
    hide EventOk, Apply;
    var es0 := es[..|es| - 1];
    if j == |es| - 1 {
      assert es[..j + 1] == es;
    } else {
      EarlierRun(g, es0, j);
      assert es0[..j] == es[..j] && es0[j] == es[j] && es0[..j + 1] == es[..j + 1];
    }
  }

  /** In every run, for every tick and every projectile in the air: the outcome that the accounts count was contact, or
      the lack of it, where the tick had put the projectile and the players. */
  lemma HitsAreContacts(g: Setting, es: seq<Event>, j: nat, k: nat)
    requires g.m.Exact() && RunOk(g, es) && j < |es| && es[j].Advance? && k < |es[j].outcomes|
    ensures RunOk(g, es[..j]) && RunOk(g, es[..j + 1]) && EventOk(g, After(g, es[..j]), es[j])
    ensures var b := BeforeChecks(g.m, g.ground, After(g, es[..j]), es[j].order);
            k < |b.projectiles|
            && MeansInPass(g.ground, b.players, After(g, es[..j + 1]).players, b.projectiles[k], es[j].outcomes[k])
  {
    EarlierRun(g, es, j);
    var s, e := After(g, es[..j]), es[j];
    var b := BeforeChecks(g.m, g.ground, s, e.order);
    RunsFlyClear(g, es[..j]);
    MovedStaysWellMade(g, s, e.order);
    assert WellMade(b.projectiles[k]);
    assert After(g, es[..j + 1]) == Ticked(g.m, g.ground, s, e.order, e.outcomes);
    hide RunOk, After, BeforeChecks, PassOk, PassPlayers, MeansInPass;
    PassIsContact(g, b.players, b.projectiles, e.outcomes, k);
  }
}
