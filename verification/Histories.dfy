/** What a player and a projectile are is decided by what happened to them: by a player's own messages and the hits it
    took, by the shot a projectile comes from and the ticks since (Host/game.cpp). */
module Histories {
  import opened Geometry
  import opened World
  import opened Host
  import opened Runs
  import opened Ledger
  import opened Tunnelling

  // ---------- players ----------

  datatype Life = Life(own: nat, radius: real, alive: bool, health: nat, orientation: real, velocity: Point)

  /** Dead, unhurt, facing right and standing still; called 0 until it joins. */
  const UNBORN := Life(0, 30.0, false, 100, 0.0, Point(0.0, 0.0))

  function LifeOf(p: Player): Life {
    Life(p.playerId, p.body.r, p.alive, p.health, p.orientation, p.velocity)
  }

  function Wounded(life: Life, hits: nat): Life {
    if hits == 0 then life
    else
      var before := Wounded(life, hits - 1);
      if before.health <= PROJECTILE_DAMAGE then before.(alive := false)
      else before.(health := before.health - PROJECTILE_DAMAGE)
  }

  function Ordered(life: Life, command: Command): Life {
    match command
    case Spawn => if life.alive then life else life.(alive := true, health := FULL_HEALTH)
    case ChangeOrientation(angle) => life.(orientation := angle)
    case ChangeMovement(v) => if Square(v.x) + Square(v.y) <= 1.00001 then life.(velocity := v) else life
    case Shoot => life
    case Ping(_) => life
    case Unknown => life
  }

  /** The life of one client as its own connections, its own commands and the hits on it tell it. */
  function Told(es: seq<Event>, id: nat): Life {
    if es == [] then UNBORN
    else
      var life := Told(es[..|es| - 1], id);
      match es[|es| - 1]
      case Handle(NewConnection(client), _) => if client == id then UNBORN.(own := id) else life
      case Handle(LostConnection(client), _) => if client == id then UNBORN else life
      case Handle(FromClient(client, command), _) => if client == id then Ordered(life, command) else life
      case Handle(Empty, _) => life
      case Advance(_, outcomes) => Wounded(life, Count(outcomes, Struck(id)))
  }

  predicate LivesAs(players: map<nat, Player>, id: nat, life: Life) {
    if id in players then LifeOf(players[id]) == life else life == UNBORN
  }

  lemma MessageTells(g: Setting, s: State, message: Message, at: Point, id: nat, life: Life)
    requires LivesAs(s.players, id, life)
    ensures LivesAs(Handled(g.m, s, message, at).players, id,
                    if message.Empty? || message.client != id then life
                    else match message
                         case NewConnection(_) => UNBORN.(own := id)
                         case FromClient(_, command) => Ordered(life, command)
                         case _ => UNBORN)
  {
    hide Square;
  }

  lemma DamageTells(players: map<nat, Player>, victim: nat, owner: nat, id: nat, life: Life)
    requires victim in players && LivesAs(players, id, life)
    ensures LivesAs(Damaged(players, victim, owner), id, if id == victim then Wounded(life, 1) else life)
  {
    assert Wounded(life, 0) == life;
    hide Increment16;
  }

  lemma {:induction false} PassTells(g: Setting, players: map<nat, Player>, ps: seq<Projectile>, os: seq<Outcome>,
                                     id: nat, life: Life)
    requires PassOk(g.m, g.ground, players, ps, os) && LivesAs(players, id, life)
    ensures LivesAs(PassPlayers(g.m, g.ground, players, ps, os), id, Wounded(life, Count(os, Struck(id))))
  {
    if os != [] {
      var k := |os| - 1;
      PassTells(g, players, ps, os[..k], id, life);
      var before := PassPlayers(g.m, g.ground, players, ps, os[..k]);
      assert OutcomeOk(g.m, g.ground, before, ps[k], os[k]);
      hide OutcomeOk, Damaged, LivesAs;
      if os[k].Struck? {
        StruckIsStrike(g, before, ps[k], os[k]);
        DamageTells(before, os[k].victim, ps[k].owner, id, Wounded(life, Count(os[..k], Struck(id))));
      }
    }
  }

  lemma TickTells(g: Setting, s: State, order: seq<nat>, os: seq<Outcome>, id: nat, life: Life)
    requires TickOk(g.m, g.ground, s, order, os) && LivesAs(s.players, id, life)
    ensures LivesAs(Ticked(g.m, g.ground, s, order, os).players, id, Wounded(life, Count(os, Struck(id))))
  {
    hide Wounded, BeforeChecks, Count, PassOk, PassPlayers;
    var b := BeforeChecks(g.m, g.ground, s, order);
    BeforeChecksKeepsAllButPlaces(g, s, order);
    assert id in b.players ==> SameButPlace(s.players[id], b.players[id]);
    PassTells(g, b.players, b.projectiles, os, id, life);
  }

  /** In every reachable state: who is alive, with what health, facing where and at what velocity follows from the
      player's own messages and the hits it took, and so does what it is called; no other client's message, push or kill
      changes any of it. */
  lemma {:induction false} LivesAsTold(g: Setting, es: seq<Event>, id: nat)
    requires RunOk(g, es)
    ensures LivesAs(After(g, es).players, id, Told(es, id))
  {
    hide Handled, Ticked, TickOk, Wounded, Ordered, Count;
    if es != [] {
      var es0, e := es[..|es| - 1], es[|es| - 1];
      var s, life := After(g, es0), Told(es0, id);
      LivesAsTold(g, es0, id);
      hide LivesAs;
      match e
      case Handle(message, at) => MessageTells(g, s, message, at, id, life);
      case Advance(order, outcomes) => TickTells(g, s, order, outcomes, id, life);
    }
  }

  // ---------- projectiles ----------

  function TicksSince(es: seq<Event>, j: nat): nat {
    if |es| <= j then 0 else TicksSince(es[..|es| - 1], j) + (if es[|es| - 1].Advance? then 1 else 0)
  }

  /** The projectile n ticks after the shot. */
  function Flown(m: Libm, shooter: Player, owner: nat, n: nat): Projectile {
    var direction := Point(m.cos(shooter.orientation), m.sin(shooter.orientation));
    Projectile(Circle(Plus(shooter.body.centre, Scale(direction, shooter.body.r + n as real * STEP_LENGTH)),
                      PROJECTILE_RADIUS),
               owner, direction)
  }

  /** Event j of the run is the shot of a living player that this projectile comes from. */
  ghost predicate ShotBy(g: Setting, es: seq<Event>, j: nat, p: Projectile) {
    && j < |es| && RunOk(g, es[..j]) && es[j].Handle? && es[j].message == FromClient(p.owner, Shoot)
    && var players := After(g, es[..j]).players;
       && p.owner in players && players[p.owner].alive
       && p == Flown(g.m, players[p.owner], p.owner, TicksSince(es, j))
  }

  ghost predicate Origins(g: Setting, es: seq<Event>, ps: seq<Projectile>, js: seq<nat>) {
    && |js| == |ps|
    && (forall i :: 0 <= i < |js| ==> ShotBy(g, es, js[i], ps[i]))
    && (forall i, k :: 0 <= i < k < |js| ==> js[i] < js[k])
  }

  lemma FliesOn(m: Libm, shooter: Player, owner: nat, n: nat)
    ensures ProjectileMoved(Flown(m, shooter, owner, n)) == Flown(m, shooter, owner, n + 1)
  {
    var d := Flown(m, shooter, owner, n).velocity;
    StepIsExact(d);
    OneStepFurther(shooter.body.centre.x, d.x, shooter.body.r, n);
    OneStepFurther(shooter.body.centre.y, d.y, shooter.body.r, n);
    hide Step;
  }

  lemma OneStepFurther(c: real, d: real, r: real, n: nat)
    ensures c + d * (r + n as real * STEP_LENGTH) + d * STEP_LENGTH == c + d * (r + (n + 1) as real * STEP_LENGTH)
  {}

  /** A further event: a tick carries the projectiles one step on. */
  function Later(e: Event, p: Projectile): Projectile {
    if e.Advance? then ProjectileMoved(p) else p
  }

  function AllLater(e: Event, ps: seq<Projectile>): seq<Projectile> {
    seq(|ps|, i requires 0 <= i < |ps| => Later(e, ps[i]))
  }

  lemma OriginStays(g: Setting, es: seq<Event>, e: Event, j: nat, p: Projectile)
    requires ShotBy(g, es, j, p)
    ensures ShotBy(g, es + [e], j, Later(e, p))
  {
    var longer := es + [e];
    assert longer[..j] == es[..j] && longer[j] == es[j] && longer[..|longer| - 1] == es;
    FliesOn(g.m, After(g, es[..j]).players[p.owner], p.owner, TicksSince(es, j));
    hide RunOk, After, Flown;
  }

  lemma AllOriginsStay(g: Setting, es: seq<Event>, e: Event, ps: seq<Projectile>, js: seq<nat>)
    requires Origins(g, es, ps, js)
    ensures Origins(g, es + [e], AllLater(e, ps), js)
  {
    forall i | 0 <= i < |js| ensures ShotBy(g, es + [e], js[i], Later(e, ps[i])) {
      OriginStays(g, es, e, js[i], ps[i]);
    }
    hide ShotBy, Later;
  }

  lemma {:induction false} SurvivorsKeepOrigins(g: Setting, es: seq<Event>, ps: seq<Projectile>, js: seq<nat>,
                                                os: seq<Outcome>)
    returns (kept: seq<nat>)
    requires Origins(g, es, ps, js) && |os| <= |ps|
    ensures Origins(g, es, Survivors(ps, os), kept)
    ensures forall i :: 0 <= i < |kept| ==> exists k :: 0 <= k < |os| && kept[i] == js[k]
  {
    hide ShotBy;
    kept := [];
    if os != [] {
      var k := |os| - 1;
      var before := SurvivorsKeepOrigins(g, es, ps, js, os[..k]);
      kept := if os[k].Missed? then before + [js[k]] else before;
      forall i | 0 <= i < |kept| ensures exists n :: 0 <= n < |os| && kept[i] == js[n] {
        if i < |before| {
          var n :| 0 <= n < k && before[i] == js[n];
          assert kept[i] == js[n] && (os[k].Missed? ==> js[n] < js[k]);
        } else {
          assert kept[i] == js[k];
        }
      }
    }
  }

  /** A shot's own origin. */
  lemma ShotHasOrigin(g: Setting, es: seq<Event>, e: Event)
    requires RunOk(g, es) && e.Handle? && e.message.FromClient? && e.message.command.Shoot?
    requires e.message.client in After(g, es).players && After(g, es).players[e.message.client].alive
    ensures var id := e.message.client;
            ShotBy(g, es + [e], |es|, Flown(g.m, After(g, es).players[id], id, 0))
  {
    var longer := es + [e];
    assert longer[..|es|] == es && longer[|es|] == e && longer[..|longer| - 1] == es;
    assert TicksSince(longer, |es|) == TicksSince(es, |es|) == 0;
    hide RunOk, After;
  }

  /** A living sender's shot adds its projectile behind the others; no other message changes them. */
  lemma ShotJoins(g: Setting, s: State, message: Message, at: Point)
    ensures Handled(g.m, s, message, at).projectiles
         == s.projectiles + (if FiresShot(s, message)
                             then [Flown(g.m, s.players[message.client], message.client, 0)] else [])
  {
    hide Square;
  }

  lemma MessageOrigins(g: Setting, es: seq<Event>, message: Message, at: Point, js: seq<nat>) returns (js': seq<nat>)
    requires RunOk(g, es) && Origins(g, es, After(g, es).projectiles, js)
    ensures Origins(g, es + [Handle(message, at)], Handled(g.m, After(g, es), message, at).projectiles, js')
  {
    var s, e := After(g, es), Handle(message, at);
    AllOriginsStay(g, es, e, s.projectiles, js);
    assert AllLater(e, s.projectiles) == s.projectiles;
    js' := js;
    ShotJoins(g, s, message, at);
    assert forall i :: 0 <= i < |js| ==> js[i] < |es|;
    if FiresShot(s, message) {
      ShotHasOrigin(g, es, e);
      js' := js + [|es|];
    }
    hide ShotBy, Flown, Handled, RunOk, After;
  }

  /** Every projectile in the air was shot by a living player and has flown straight from the rim of its circle, one
      step for every tick since, wherever that player has gone; they are kept in the order of their shots, one each. */
  lemma {:induction false} ProjectilesFlyStraight(g: Setting, es: seq<Event>) returns (js: seq<nat>)
    requires RunOk(g, es)
    ensures Origins(g, es, After(g, es).projectiles, js)
  {
    js := [];
    if es != [] {
      var es0, e := es[..|es| - 1], es[|es| - 1];
      assert es == es0 + [e];
      js := ProjectilesFlyStraight(g, es0);
      match e
      case Handle(message, at) => js := MessageOrigins(g, es0, message, at, js);
      case Advance(order, outcomes) =>
        var b := BeforeChecks(g.m, g.ground, After(g, es0), order);
        AllOriginsStay(g, es0, e, After(g, es0).projectiles, js);
        assert AllLater(e, After(g, es0).projectiles) == b.projectiles;
        js := SurvivorsKeepOrigins(g, es, b.projectiles, js, outcomes);
    }
  }
}
