/** Where the players are, over whole runs: every tick in its turns, and the way of players that touch nothing
    (updatePositions and checkCollisions, Host/game.cpp). */
module Journeys {
  import opened Geometry
  import opened World
  import opened Host
  import opened Runs
  import opened Contacts
  import opened Encounters
  import opened Histories
  import opened Ledger

  /** In every run, every tick on every map is strides and turns, and the checks of the projectiles move nobody. */
  lemma TicksGoInTurns(g: Setting, es: seq<Event>, j: nat) returns (ts: seq<map<nat, Player>>)
    requires g.m.Exact() && RunOk(g, es) && j < |es| && es[j].Advance?
    ensures RunOk(g, es[..j]) && RunOk(g, es[..j + 1])
    ensures Turns(g.ground, After(g, es[..j]).players, es[j].order, ts)
    ensures var last, after := ts[|es[j].order|], After(g, es[..j + 1]).players;
            forall id :: id in last ==> id in after && after[id].body == last[id].body
  {
    EarlierRun(g, es, j);
    var s, e := After(g, es[..j]), es[j];
    forall id | id in s.players ensures 0.0 <= s.players[id].body.r {
      RadiusIsFixed(g, es[..j], id);
    }
    var b := BeforeChecks(g.m, g.ground, s, e.order);
    assert After(g, es[..j + 1]) == Ticked(g.m, g.ground, s, e.order, e.outcomes);
    PassKillsOnly(g, b.players, b.projectiles, e.outcomes, 0);
    assert e.outcomes[..0] == [] && PassPlayers(g.m, g.ground, b.players, b.projectiles, []) == b.players;
    hide RunOk, After, BeforeChecks, PassOk, PassPlayers, Turns;
    ts := TickInTurns(g.m, g.ground, s, e.order);
  }

  lemma {:induction false} ToldRadius(es: seq<Event>, id: nat)
    ensures Told(es, id).radius == PLAYER_RADIUS
  {
    if es != [] {
      ToldRadius(es[..|es| - 1], id);
      if es[|es| - 1].Advance? {
        WoundsKeepRadius(Told(es[..|es| - 1], id), Count(es[|es| - 1].outcomes, Struck(id)));
      }
    }
    hide Wounded, Square;
  }

  lemma {:induction false} WoundsKeepRadius(life: Life, hits: nat)
    ensures Wounded(life, hits).radius == life.radius
  {
    if hits > 0 {
      WoundsKeepRadius(life, hits - 1);
    }
  }

  lemma RadiusIsFixed(g: Setting, es: seq<Event>, id: nat)
    requires RunOk(g, es) && id in After(g, es).players
    ensures After(g, es).players[id].body.r == PLAYER_RADIUS
  {
    LivesAsTold(g, es, id);
    ToldRadius(es, id);
    hide RunOk, After, Told;
  }

  // ---------- nothing to touch ----------

  /** At every tick of the run, when the players have strode, there is nothing to touch. */
  ghost predicate OpenField(g: Setting, es: seq<Event>)
    requires RunOk(g, es)
  {
    es == [] ||
    (var es0 := es[..|es| - 1];
     && OpenField(g, es0)
     && (es[|es| - 1].Advance? ==>
           var players := After(g, es0).players;
           NothingToTouch(g.ground, map id | id in players :: Strode(players[id]))))
  }

  /** The way of one client: it is put down where its spawn says, and goes 0.9 times its velocity of the moment for
      every tick it is alive. */
  function Way(es: seq<Event>, id: nat): Point {
    if es == [] then Point(0.0, 0.0)
    else
      var es0 := es[..|es| - 1];
      var place, life := Way(es0, id), Told(es0, id);
      match es[|es| - 1]
      case Handle(NewConnection(client), _) => if client == id then Point(0.0, 0.0) else place
      case Handle(LostConnection(client), _) => if client == id then Point(0.0, 0.0) else place
      case Handle(FromClient(client, Spawn), at) => if client == id && !life.alive then at else place
      case Handle(_, _) => place
      case Advance(_, _) => if life.alive then Plus(place, Scale(life.velocity, 0.9)) else place
  }

  predicate IsAt(players: map<nat, Player>, id: nat, place: Point) {
    if id in players then players[id].body.centre == place else place == Point(0.0, 0.0)
  }

  lemma MessagePlaces(g: Setting, es: seq<Event>, message: Message, at: Point, id: nat)
    requires RunOk(g, es) && IsAt(After(g, es).players, id, Way(es, id))
    requires LivesAs(After(g, es).players, id, Told(es, id))
    ensures IsAt(Handled(g.m, After(g, es), message, at).players, id, Way(es + [Handle(message, at)], id))
  {
    var longer := es + [Handle(message, at)];
    assert longer[..|longer| - 1] == es;
    hide RunOk, After, Told, Square;
  }

  lemma {:induction false} PassMovesNobody(g: Setting, players: map<nat, Player>, ps: seq<Projectile>,
                                           os: seq<Outcome>, id: nat, place: Point)
    requires PassOk(g.m, g.ground, players, ps, os) && IsAt(players, id, place)
    ensures IsAt(PassPlayers(g.m, g.ground, players, ps, os), id, place)
  {
    hide HitsWall, HitsObstacle, HitsBorder, Strikes;
    if os != [] {
      var k := |os| - 1;
      PassMovesNobody(g, players, ps, os[..k], id, place);
      if os[k].Struck? {
        StruckIsStrike(g, PassPlayers(g.m, g.ground, players, ps, os[..k]), ps[k], os[k]);
      }
    }
    hide Increment16;
  }

  lemma StridePlaces(players: map<nat, Player>, strode: map<nat, Player>, id: nat, place: Point, life: Life)
    requires strode.Keys == players.Keys && forall k :: k in strode ==> strode[k] == Strode(players[k])
    requires IsAt(players, id, place) && LivesAs(players, id, life)
    ensures IsAt(strode, id, if life.alive then Plus(place, Scale(life.velocity, 0.9)) else place)
  {
    hide Plus, Scale;
  }

  lemma TickPlaces(g: Setting, s: State, order: seq<nat>, os: seq<Outcome>, id: nat, place: Point, life: Life)
    requires g.m.Exact() && TickOk(g.m, g.ground, s, order, os)
    requires NothingToTouch(g.ground, map k | k in s.players :: Strode(s.players[k]))
    requires IsAt(s.players, id, place) && LivesAs(s.players, id, life)
    ensures IsAt(Ticked(g.m, g.ground, s, order, os).players, id,
                 if life.alive then Plus(place, Scale(life.velocity, 0.9)) else place)
  {
    hide BeforeChecks, PassOk, PassPlayers, NothingToTouch, IsAt, LivesAs, Strode;
    var b := BeforeChecks(g.m, g.ground, s, order);
    NothingTouched(g.m, g.ground, s, order);
    StridePlaces(s.players, b.players, id, place, life);
    PassMovesNobody(g, b.players, b.projectiles, os, id,
                    if life.alive then Plus(place, Scale(life.velocity, 0.9)) else place);
  }

  /** Over every run in which there is nothing to touch, every player is where its spawn and its velocities since have
      brought it. */
  lemma {:induction false} PlayersGoTheirWay(g: Setting, es: seq<Event>, id: nat)
    requires g.m.Exact() && RunOk(g, es) && OpenField(g, es)
    ensures IsAt(After(g, es).players, id, Way(es, id))
  {
    hide Handled, Ticked, TickOk, NothingToTouch, Told, IsAt, LivesAs;
    if es == [] {
      NobodyPlaced(id);
    } else {
      var es0, e := es[..|es| - 1], es[|es| - 1];
      var s := After(g, es0);
      PlayersGoTheirWay(g, es0, id);
      LivesAsTold(g, es0, id);
      match e
      case Handle(message, at) =>
        assert es == es0 + [e];
        MessagePlaces(g, es0, message, at, id);
      case Advance(order, outcomes) => TickPlaces(g, s, order, outcomes, id, Way(es0, id), Told(es0, id));
    }
  }

  lemma NobodyPlaced(id: nat)
    ensures IsAt(map[], id, Point(0.0, 0.0))
  {}
}
