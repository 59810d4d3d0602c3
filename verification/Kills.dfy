/** Who is credited with a kill: the scores of every player over whole runs (checkProjectileCollisions,
    Host/game.cpp). */
module Kills {
  import opened World
  import opened Host
  import opened Runs
  import opened Ledger

  /** The fatal hits of a pass made by projectiles of one client. */
  ghost function FatalBy(g: Setting, players: map<nat, Player>, ps: seq<Projectile>, os: seq<Outcome>, id: nat): nat
    requires PassOk(g.m, g.ground, players, ps, os)
  {
    if os == [] then 0
    else
      var k := |os| - 1;
      FatalBy(g, players, ps, os[..k], id)
      + (if ps[k].owner == id && Fatal(PassPlayers(g.m, g.ground, players, ps, os[..k]), os[k]) then 1 else 0)
  }

  /** The fatal hits by one client's projectiles since it last joined or left. */
  ghost function KillsMade(g: Setting, es: seq<Event>, id: nat): nat
    requires RunOk(g, es)
  {
    if es == [] then 0
    else
      var es0 := es[..|es| - 1];
      var n := KillsMade(g, es0, id);
      match es[|es| - 1]
      case Handle(NewConnection(client), _) => if client == id then 0 else n
      case Handle(LostConnection(client), _) => if client == id then 0 else n
      case Handle(_, _) => n
      case Advance(order, outcomes) =>
        var b := BeforeChecks(g.m, g.ground, After(g, es0), order);
        n + FatalBy(g, b.players, b.projectiles, outcomes, id)
  }

  /** The entry shows the kills, modulo the width of the counter; without an entry there are none to show. */
  predicate Credited(players: map<nat, Player>, id: nat, kills: nat) {
    if id in players then players[id].kills == kills % WRAP else kills == 0
  }

  lemma OneMore(kills: nat)
    ensures Increment16(kills % WRAP) == (kills + 1) % WRAP
  {}

  lemma DamagedCredits(players: map<nat, Player>, victim: nat, owner: nat, id: nat, kills: nat)
    requires victim in players && victim != owner && Credited(players, id, kills)
    ensures var fatal := players[victim].health <= PROJECTILE_DAMAGE;
            Credited(Damaged(players, victim, owner), id, kills + (if fatal && id == owner then 1 else 0))
  {
    OneMore(kills);
    hide Increment16;
  }

  lemma {:induction false} PassCredits(g: Setting, players: map<nat, Player>, ps: seq<Projectile>, os: seq<Outcome>,
                                       id: nat, kills: nat)
    requires PassOk(g.m, g.ground, players, ps, os) && Credited(players, id, kills)
    ensures Credited(PassPlayers(g.m, g.ground, players, ps, os), id, kills + FatalBy(g, players, ps, os, id))
  {
    hide HitsWall, HitsObstacle, HitsBorder, Strikes, Touch, Increment16;
    if os != [] {
      var k := |os| - 1;
      PassCredits(g, players, ps, os[..k], id, kills);
      var before := PassPlayers(g.m, g.ground, players, ps, os[..k]);
      assert OutcomeOk(g.m, g.ground, before, ps[k], os[k]);
      hide OutcomeOk, Damaged, Credited;
      if os[k].Struck? {
        StruckIsStrike(g, before, ps[k], os[k]);
        DamagedCredits(before, os[k].victim, ps[k].owner, id, kills + FatalBy(g, players, ps, os[..k], id));
      }
    }
  }

  lemma MessageCredits(g: Setting, s: State, message: Message, at: Geometry.Point, id: nat, kills: nat)
    requires Credited(s.players, id, kills)
    ensures Credited(Handled(g.m, s, message, at).players, id,
                     if (message.NewConnection? || message.LostConnection?) && message.client == id
                     then 0 else kills)
  {
    hide Geometry.Square;
  }

  lemma TickCredits(g: Setting, s: State, order: seq<nat>, os: seq<Outcome>, id: nat, kills: nat)
    requires TickOk(g.m, g.ground, s, order, os) && Credited(s.players, id, kills)
    ensures var b := BeforeChecks(g.m, g.ground, s, order);
            Credited(Ticked(g.m, g.ground, s, order, os).players, id,
                     kills + FatalBy(g, b.players, b.projectiles, os, id))
  {
    hide BeforeChecks, PassOk, PassPlayers, FatalBy;
    var b := BeforeChecks(g.m, g.ground, s, order);
    BeforeChecksKeepsAllButPlaces(g, s, order);
    assert id in b.players ==> SameButPlace(s.players[id], b.players[id]);
    PassCredits(g, b.players, b.projectiles, os, id, kills);
  }

  /** In every reachable state, for every id: the kills on record are the fatal hits by that client's own projectiles
      since its entry was made, an entry that a kill itself has made included. */
  lemma {:induction false} KillLedger(g: Setting, es: seq<Event>, id: nat)
    requires RunOk(g, es)
    ensures Credited(After(g, es).players, id, KillsMade(g, es, id))
  {
    hide Credited, Handled, Ticked, FatalBy;
    if es == [] {
      NobodyCredited(id);
    } else {
      var es0, e := es[..|es| - 1], es[|es| - 1];
      KillLedger(g, es0, id);
      match e
      case Handle(message, at) => MessageCredits(g, After(g, es0), message, at, id, KillsMade(g, es0, id));
      case Advance(order, outcomes) => TickCredits(g, After(g, es0), order, outcomes, id, KillsMade(g, es0, id));
    }
  }

  lemma NobodyCredited(id: nat)
    ensures Credited(map[], id, 0)
  {}
}
