/** Accounting over whole runs: shots, damage, deaths and kills (Host/game.cpp). */
module Ledger {
  import opened World
  import opened Host
  import opened Runs

  const WRAP := 0x1_0000

  // ---------- sums over maps ----------

  ghost function Total(f: map<nat, nat>): nat
    decreases |f|
  {
    if f == map[] then 0 else var k :| k in f; f[k] + Total(f - {k})
  }

  lemma {:induction false} TotalSplit(f: map<nat, nat>, k: nat)
    requires k in f
    ensures Total(f) == f[k] + Total(f - {k})
    decreases |f|
  {
    var j :| j in f && Total(f) == f[j] + Total(f - {j});
    if j != k {
      TotalSplit(f - {j}, k);
      TotalSplit(f - {k}, j);
      assert f - {j} - {k} == f - {k} - {j};
    }
  }

  lemma TotalUpdate(f: map<nat, nat>, k: nat, x: nat)
    ensures Total(f[k := x]) == Total(f) - (if k in f then f[k] else 0) + x
  {
    TotalSplit(f[k := x], k);
    if k in f {
      TotalSplit(f, k);
      assert f[k := x] - {k} == f - {k};
    } else {
      assert f[k := x] - {k} == f;
    }
  }

  lemma TotalRemove(f: map<nat, nat>, k: nat)
    ensures Total(f - {k}) == Total(f) - (if k in f then f[k] else 0)
  {
    if k in f {
      TotalSplit(f, k);
    } else {
      assert f - {k} == f;
    }
  }

  function Kills(players: map<nat, Player>): map<nat, nat> {
    map id | id in players :: players[id].kills
  }

  function Deaths(players: map<nat, Player>): map<nat, nat> {
    map id | id in players :: players[id].deaths
  }

  // ---------- the tally of a run ----------

  function Count(os: seq<Outcome>, o: Outcome): nat {
    if os == [] then 0 else Count(os[..|os| - 1], o) + (if os[|os| - 1] == o then 1 else 0)
  }

  function CountStruck(os: seq<Outcome>): nat {
    if os == [] then 0 else CountStruck(os[..|os| - 1]) + (if os[|os| - 1].Struck? then 1 else 0)
  }

  predicate Fatal(players: map<nat, Player>, o: Outcome) {
    o.Struck? && o.victim in players && players[o.victim].health <= PROJECTILE_DAMAGE
  }

  /** How many outcomes of a pass were fatal. */
  ghost function CountFatal(g: Setting, players: map<nat, Player>, ps: seq<Projectile>, os: seq<Outcome>): nat
    requires PassOk(g.m, g.ground, players, ps, os)
  {
    if os == [] then 0
    else
      var k := |os| - 1;
      CountFatal(g, players, ps, os[..k])
      + (if Fatal(PassPlayers(g.m, g.ground, players, ps, os[..k]), os[k]) then 1 else 0)
  }

  predicate FiresShot(s: State, message: Message) {
    message.FromClient? && message.command.Shoot? && message.client in s.players && s.players[message.client].alive
  }

  /** The entry a message erases or overwrites, if there is one. */
  function Retired(s: State, message: Message): set<nat> {
    if (message.NewConnection? || message.LostConnection?) && message.client in s.players then {message.client} else {}
  }

  datatype Tally = Tally(shots: nat, scenery: nat, struck: nat, fatal: nat, retiredKills: nat, retiredDeaths: nat)

  function TallyMessage(s: State, t: Tally, message: Message): Tally {
    var t1 := if FiresShot(s, message) then t.(shots := t.shots + 1) else t;
    if Retired(s, message) == {} then t1
    else t1.(retiredKills := t1.retiredKills + s.players[message.client].kills,
             retiredDeaths := t1.retiredDeaths + s.players[message.client].deaths)
  }

  ghost function TallyTick(g: Setting, s: State, t: Tally, order: seq<nat>, os: seq<Outcome>): Tally
    requires TickOk(g.m, g.ground, s, order, os)
  {
    var b := BeforeChecks(g.m, g.ground, s, order);
    t.(scenery := t.scenery + Count(os, Scenery),
       struck := t.struck + CountStruck(os),
       fatal := t.fatal + CountFatal(g, b.players, b.projectiles, os))
  }

  ghost function TallyOf(g: Setting, es: seq<Event>): Tally
    requires RunOk(g, es)
  {
    if es == [] then Tally(0, 0, 0, 0, 0, 0)
    else
      var t := TallyOf(g, es[..|es| - 1]);
      var s := After(g, es[..|es| - 1]);
      match es[|es| - 1]
      case Handle(message, at) => TallyMessage(s, t, message)
      case Advance(order, outcomes) => TallyTick(g, s, t, order, outcomes)
  }

  // ---------- shots ----------

  lemma {:induction false} PassCounts(ps: seq<Projectile>, os: seq<Outcome>)
    requires |os| <= |ps|
    ensures |os| == |Survivors(ps, os)| + Count(os, Scenery) + CountStruck(os)
  {
    if os != [] {
      PassCounts(ps, os[..|os| - 1]);
    }
  }

  /** Every shot fired is still flying, was stopped by scenery, or struck exactly one player. */
  lemma {:induction false} ShotsAreAccounted(g: Setting, es: seq<Event>)
    requires RunOk(g, es)
    ensures var t := TallyOf(g, es);
            t.shots == |After(g, es).projectiles| + t.scenery + t.struck
  {
    if es != [] {
      var es0, e := es[..|es| - 1], es[|es| - 1];
      ShotsAreAccounted(g, es0);
      var s := After(g, es0);
      match e
      case Handle(message, at) =>
        MessageKeepsProjectiles(g, s, message, at);
      case Advance(order, outcomes) =>
        BeforeChecksKeepsAllButPlaces(g, s, order);
        PassCounts(BeforeChecks(g.m, g.ground, s, order).projectiles, outcomes);
    }
  }

  lemma MessageKeepsProjectiles(g: Setting, s: State, message: Message, at: Geometry.Point)
    ensures |Handled(g.m, s, message, at).projectiles| == |s.projectiles| + (if FiresShot(s, message) then 1 else 0)
  {}

  // ---------- kills and deaths ----------

  /** Equal as far as 16-bit counters can tell. */
  predicate Congruent(x: int, y: int) {
    (x - y) % WRAP == 0
  }

  lemma CongruentByIncrement(total: int, x: nat, after: int)
    requires after == total - x + Increment16(x)
    ensures Congruent(after, total + 1)
  {}

  lemma PlacesKeepTotals(ps: map<nat, Player>, qs: map<nat, Player>)
    requires SameButPlaces(ps, qs)
    ensures Kills(ps) == Kills(qs) && Deaths(ps) == Deaths(qs)
  {
    assert forall id :: id in ps ==> SameButPlace(ps[id], qs[id]);
  }

  lemma TouchKeepsTotals(players: map<nat, Player>, id: nat)
    ensures Total(Kills(Touch(players, id))) == Total(Kills(players))
    ensures Total(Deaths(Touch(players, id))) == Total(Deaths(players))
  {
    if id !in players {
      assert Kills(Touch(players, id)) == Kills(players)[id := 0];
      assert Deaths(Touch(players, id)) == Deaths(players)[id := 0];
      TotalUpdate(Kills(players), id, 0);
      TotalUpdate(Deaths(players), id, 0);
    }
  }

  lemma FatalDeaths(players: map<nat, Player>, victim: nat, owner: nat)
    requires victim in players && victim != owner && players[victim].health <= PROJECTILE_DAMAGE
    ensures Congruent(Total(Deaths(Damaged(players, victim, owner))), Total(Deaths(players)) + 1)
  {
    hide Total, Increment16, Congruent, Kills;
    var v := players[victim];
    var after := Damaged(players, victim, owner);
    var hurt := players[victim := v.(alive := false, deaths := Increment16(v.deaths))];
    assert Deaths(hurt) == Deaths(players)[victim := Increment16(v.deaths)];
    assert Deaths(after) == Deaths(Touch(hurt, owner));
    TouchKeepsTotals(hurt, owner);
    TotalUpdate(Deaths(players), victim, Increment16(v.deaths));
    CongruentByIncrement(Total(Deaths(players)), v.deaths, Total(Deaths(after)));
  }

  lemma FatalKills(players: map<nat, Player>, victim: nat, owner: nat)
    requires victim in players && victim != owner && players[victim].health <= PROJECTILE_DAMAGE
    ensures Congruent(Total(Kills(Damaged(players, victim, owner))), Total(Kills(players)) + 1)
  {
    hide Total, Increment16, Congruent, Deaths;
    var v := players[victim];
    var after := Damaged(players, victim, owner);
    var hurt := players[victim := v.(alive := false, deaths := Increment16(v.deaths))];
    var fallen := Touch(hurt, owner);
    var k := fallen[owner].kills;
    assert Kills(hurt) == Kills(players);
    assert Kills(after) == Kills(fallen)[owner := Increment16(k)];
    TouchKeepsTotals(hurt, owner);
    TotalUpdate(Kills(fallen), owner, Increment16(k));
    CongruentByIncrement(Total(Kills(fallen)), k, Total(Kills(after)));
  }

  /** A fatal hit adds one kill and one death, modulo the counters' width; any other hit adds neither. */
  lemma DamagedTotals(players: map<nat, Player>, victim: nat, owner: nat)
    requires victim in players && victim != owner
    ensures var one := if players[victim].health <= PROJECTILE_DAMAGE then 1 else 0;
            Congruent(Total(Kills(Damaged(players, victim, owner))), Total(Kills(players)) + one)
            && Congruent(Total(Deaths(Damaged(players, victim, owner))), Total(Deaths(players)) + one)
  {
    if players[victim].health <= PROJECTILE_DAMAGE {
      FatalDeaths(players, victim, owner);
      FatalKills(players, victim, owner);
    } else {
      var after := Damaged(players, victim, owner);
      assert Kills(after) == Kills(players) && Deaths(after) == Deaths(players);
    }
  }

  lemma OutcomeTotals(g: Setting, players: map<nat, Player>, p: Projectile, o: Outcome)
    requires OutcomeOk(g.m, g.ground, players, p, o)
    ensures o.Struck? ==> o.victim in players
    ensures var one := if Fatal(players, o) then 1 else 0;
            Congruent(Total(Kills(AfterOutcome(players, p, o))), Total(Kills(players)) + one)
            && Congruent(Total(Deaths(AfterOutcome(players, p, o))), Total(Deaths(players)) + one)
  {
    if o.Struck? {
      StruckIsStrike(g, players, p, o);
      DamagedTotals(players, o.victim, p.owner);
    }
    hide Total, Kills, Deaths, Damaged;
  }

  lemma {:induction false} PassTotals(g: Setting, players: map<nat, Player>, ps: seq<Projectile>, os: seq<Outcome>)
    requires PassOk(g.m, g.ground, players, ps, os)
    ensures var after := PassPlayers(g.m, g.ground, players, ps, os);
            var fatal := CountFatal(g, players, ps, os);
            Congruent(Total(Kills(after)), Total(Kills(players)) + fatal)
            && Congruent(Total(Deaths(after)), Total(Deaths(players)) + fatal)
  {
    hide OutcomeOk, AfterOutcome, Total, Congruent, Kills, Deaths, Fatal;
    if os == [] {
      CongruentRefl(Total(Kills(players)));
      CongruentRefl(Total(Deaths(players)));
    } else {
      var k := |os| - 1;
      PassTotals(g, players, ps, os[..k]);
      var before := PassPlayers(g.m, g.ground, players, ps, os[..k]);
      OutcomeTotals(g, before, ps[k], os[k]);
      var fatal := CountFatal(g, players, ps, os[..k]);
      var one := if Fatal(before, os[k]) then 1 else 0;
      var after := AfterOutcome(before, ps[k], os[k]);
      CongruentSum(Total(Kills(after)), Total(Kills(before)), one, Total(Kills(players)), fatal);
      CongruentSum(Total(Deaths(after)), Total(Deaths(before)), one, Total(Deaths(players)), fatal);
    }
  }

  lemma CongruentRefl(x: int)
    ensures Congruent(x, x + 0)
  {}

  lemma CongruentSum(x: int, y: int, j: int, z: int, k: int)
    requires Congruent(x, y + j) && Congruent(y, z + k)
    ensures Congruent(x, z + (k + j))
  {}

  lemma StruckIsStrike(g: Setting, players: map<nat, Player>, p: Projectile, o: Outcome)
    requires OutcomeOk(g.m, g.ground, players, p, o) && o.Struck?
    ensures Strikes(players, p, o.victim)
  {}

  ghost predicate TotalsDrop(before: map<nat, Player>, after: map<nat, Player>, kills: nat, deaths: nat) {
    Total(Kills(after)) == Total(Kills(before)) - kills && Total(Deaths(after)) == Total(Deaths(before)) - deaths
  }

  lemma JoinTotals(s: State, id: nat)
    ensures if id in s.players
            then TotalsDrop(s.players, Join(s, id).players, s.players[id].kills, s.players[id].deaths)
            else TotalsDrop(s.players, Join(s, id).players, 0, 0)
  {
    var after := Join(s, id).players;
    assert Kills(after) == Kills(s.players)[id := 0] && Deaths(after) == Deaths(s.players)[id := 0];
    hide Total;
    TotalUpdate(Kills(s.players), id, 0);
    TotalUpdate(Deaths(s.players), id, 0);
  }

  lemma LeaveTotals(s: State, id: nat)
    ensures if id in s.players
            then TotalsDrop(s.players, Leave(s, id).players, s.players[id].kills, s.players[id].deaths)
            else TotalsDrop(s.players, Leave(s, id).players, 0, 0)
  {
    var after := Leave(s, id).players;
    assert Kills(after) == Kills(s.players) - {id} && Deaths(after) == Deaths(s.players) - {id};
    hide Total;
    TotalRemove(Kills(s.players), id);
    TotalRemove(Deaths(s.players), id);
  }

  /** A client's command creates entries but never touches a score. */
  lemma CommandTotals(g: Setting, s: State, id: nat, command: Command, at: Geometry.Point)
    ensures TotalsDrop(s.players, Handled(g.m, s, FromClient(id, command), at).players, 0, 0)
  {
    CommandScores(g, s, id, command, at);
    TouchKeepsTotals(s.players, id);
    hide Total, Handled, Touch;
  }

  lemma CommandScores(g: Setting, s: State, id: nat, command: Command, at: Geometry.Point)
    ensures var after := Handled(g.m, s, FromClient(id, command), at).players;
            var touched := Touch(s.players, id);
            after == s.players || (Kills(after) == Kills(touched) && Deaths(after) == Deaths(touched))
  {
    hide Geometry.Square, Geometry.Plus, Geometry.Scale;
    var after := Handled(g.m, s, FromClient(id, command), at).players;
    var touched := Touch(s.players, id);
    if after != s.players {
      assert after.Keys == touched.Keys;
      assert forall k :: k in after ==> after[k].kills == touched[k].kills && after[k].deaths == touched[k].deaths;
    }
  }

  lemma MessageTotals(g: Setting, s: State, message: Message, at: Geometry.Point)
    ensures var after := Handled(g.m, s, message, at).players;
            if Retired(s, message) == {} then TotalsDrop(s.players, after, 0, 0)
            else TotalsDrop(s.players, after, s.players[message.client].kills, s.players[message.client].deaths)
  {
    match message
    case Empty =>
    case NewConnection(id) => JoinTotals(s, id);
    case LostConnection(id) => LeaveTotals(s, id);
    case FromClient(id, command) =>
      hide Handled;
      CommandTotals(g, s, id, command, at);
  }

  ghost predicate Balanced(players: map<nat, Player>, t: Tally) {
    Congruent(Total(Kills(players)) + t.retiredKills, t.fatal)
    && Congruent(Total(Deaths(players)) + t.retiredDeaths, t.fatal)
  }

  lemma MessageBalances(g: Setting, s: State, message: Message, at: Geometry.Point, t: Tally)
    requires Balanced(s.players, t)
    ensures Balanced(Handled(g.m, s, message, at).players, TallyMessage(s, t, message))
  {
    hide Congruent, Total, Kills, Deaths, Handled, FiresShot, Retired;
    MessageTotals(g, s, message, at);
  }

  lemma TickBalances(g: Setting, s: State, order: seq<nat>, os: seq<Outcome>, t: Tally)
    requires TickOk(g.m, g.ground, s, order, os) && Balanced(s.players, t)
    ensures Balanced(Ticked(g.m, g.ground, s, order, os).players, TallyTick(g, s, t, order, os))
  {
    hide Congruent, Total, Kills, Deaths, BeforeChecks, CountFatal, PassPlayers, PassOk;
    var b := BeforeChecks(g.m, g.ground, s, order);
    BeforeChecksKeepsAllButPlaces(g, s, order);
    PlacesKeepTotals(s.players, b.players);
    PassTotals(g, b.players, b.projectiles, os);
    var fatal := CountFatal(g, b.players, b.projectiles, os);
    var after := PassPlayers(g.m, g.ground, b.players, b.projectiles, os);
    CongruentAcross(Total(Kills(after)), Total(Kills(b.players)), fatal, t.retiredKills, t.fatal);
    CongruentAcross(Total(Deaths(after)), Total(Deaths(b.players)), fatal, t.retiredDeaths, t.fatal);
  }

  /** Kills and deaths, those of departed or replaced entries included, both equal the number of fatal hits
      modulo the width of the counters; kills credited to an owner who has already left are not lost. */
  lemma {:induction false} KillsBalanceDeaths(g: Setting, es: seq<Event>)
    requires RunOk(g, es)
    ensures Balanced(After(g, es).players, TallyOf(g, es))
  {
    hide Balanced, Handled, Ticked, TallyTick, TallyMessage;
    if es == [] {
      NobodyScored();
    } else {
      var es0, e := es[..|es| - 1], es[|es| - 1];
      KillsBalanceDeaths(g, es0);
      match e
      case Handle(message, at) =>
        MessageBalances(g, After(g, es0), message, at, TallyOf(g, es0));
      case Advance(order, outcomes) =>
        TickBalances(g, After(g, es0), order, outcomes, TallyOf(g, es0));
    }
  }

  lemma NobodyScored()
    ensures Balanced(map[], Tally(0, 0, 0, 0, 0, 0))
  {
    assert Kills(map[]) == map[] && Deaths(map[]) == map[];
  }

  lemma CongruentAcross(after: int, before: int, more: int, retired: int, fatal: int)
    requires Congruent(after, before + more) && Congruent(before + retired, fatal)
    ensures Congruent(after + retired, fatal + more)
  {}

  // ---------- damage per player entry ----------

  /** Hits an entry has taken since it was created. */
  function HitsTaken(es: seq<Event>, id: nat): nat {
    if es == [] then 0
    else
      var h := HitsTaken(es[..|es| - 1], id);
      match es[|es| - 1]
      case Handle(NewConnection(client), _) => if client == id then 0 else h
      case Handle(LostConnection(client), _) => if client == id then 0 else h
      case Handle(_, _) => h
      case Advance(_, outcomes) => h + Count(outcomes, Struck(id))
  }

  /** Ten hits make a death; the health records the rest. The 16-bit death counter makes this modulo 655360. */
  predicate HitsMatch(p: Player, hits: nat) {
    && p.health % 10 == 0 && 10 <= p.health <= FULL_HEALTH
    && p.kills < WRAP && p.deaths < WRAP
    && hits % (10 * WRAP) == 10 * p.deaths + (if p.alive then (FULL_HEALTH - p.health) / 10 else 0)
  }

  predicate EntryMatches(players: map<nat, Player>, id: nat, hits: nat) {
    if id in players then HitsMatch(players[id], hits) else hits == 0
  }

  lemma DamagedMatches(players: map<nat, Player>, victim: nat, owner: nat, id: nat, hits: nat)
    requires victim in players && players[victim].alive && victim != owner && EntryMatches(players, id, hits)
    ensures EntryMatches(Damaged(players, victim, owner), id, hits + (if id == victim then 1 else 0))
  {
    if id == victim {
      NextHit(players[victim], hits);
    }
  }

  lemma NextHit(v: Player, hits: nat)
    requires v.alive && HitsMatch(v, hits)
    ensures if v.health <= PROJECTILE_DAMAGE
            then HitsMatch(v.(alive := false, deaths := Increment16(v.deaths)), hits + 1)
            else HitsMatch(v.(health := v.health - PROJECTILE_DAMAGE), hits + 1)
  {
    var n := 10 * v.deaths + (FULL_HEALTH - v.health) / 10;
    assert (hits + 1) % (10 * WRAP) == if n + 1 == 10 * WRAP then 0 else n + 1;
  }

  lemma {:induction false} PassMatches(g: Setting, players: map<nat, Player>, ps: seq<Projectile>, os: seq<Outcome>,
                                       id: nat, hits: nat)
    requires PassOk(g.m, g.ground, players, ps, os) && EntryMatches(players, id, hits)
    ensures EntryMatches(PassPlayers(g.m, g.ground, players, ps, os), id, hits + Count(os, Struck(id)))
  {
    if os != [] {
      var k := |os| - 1;
      PassMatches(g, players, ps, os[..k], id, hits);
      var before := PassPlayers(g.m, g.ground, players, ps, os[..k]);
      assert OutcomeOk(g.m, g.ground, before, ps[k], os[k]);
      hide OutcomeOk, Damaged, EntryMatches;
      if os[k].Struck? {
        assert Strikes(before, ps[k], os[k].victim) by { StruckIsStrike(g, before, ps[k], os[k]); }
        DamagedMatches(before, os[k].victim, ps[k].owner, id, hits + Count(os[..k], Struck(id)));
      }
    }
  }

  lemma MessageMatches(g: Setting, s: State, message: Message, at: Geometry.Point, id: nat, hits: nat)
    requires EntryMatches(s.players, id, hits)
    ensures EntryMatches(Handled(g.m, s, message, at).players, id,
                         if (message.NewConnection? || message.LostConnection?) && message.client == id
                         then 0 else hits)
  {}

  lemma TickMatches(g: Setting, s: State, order: seq<nat>, os: seq<Outcome>, id: nat, hits: nat)
    requires TickOk(g.m, g.ground, s, order, os) && EntryMatches(s.players, id, hits)
    ensures EntryMatches(Ticked(g.m, g.ground, s, order, os).players, id, hits + Count(os, Struck(id)))
  {
    hide EntryMatches, BeforeChecks, Count, PassOk, PassPlayers;
    var b := BeforeChecks(g.m, g.ground, s, order);
    BeforeChecksKeepsAllButPlaces(g, s, order);
    PlacesKeepMatch(s.players, b.players, id, hits);
    PassMatches(g, b.players, b.projectiles, os, id, hits);
  }

  /** In every reachable state, for every id: the damage on record is exactly the hits the entry has taken. */
  lemma {:induction false} DamageLedger(g: Setting, es: seq<Event>, id: nat)
    requires RunOk(g, es)
    ensures EntryMatches(After(g, es).players, id, HitsTaken(es, id))
  {
    hide EntryMatches, Handled, Ticked, Count;
    if es == [] {
      NoEntry(id);
    } else {
      var es0, e := es[..|es| - 1], es[|es| - 1];
      DamageLedger(g, es0, id);
      match e
      case Handle(message, at) =>
        MessageMatches(g, After(g, es0), message, at, id, HitsTaken(es0, id));
      case Advance(order, outcomes) =>
        TickMatches(g, After(g, es0), order, outcomes, id, HitsTaken(es0, id));
    }
  }

  lemma NoEntry(id: nat)
    ensures EntryMatches(map[], id, 0)
  {}

  lemma PlacesKeepMatch(ps: map<nat, Player>, qs: map<nat, Player>, id: nat, hits: nat)
    requires SameButPlaces(ps, qs) && EntryMatches(ps, id, hits)
    ensures EntryMatches(qs, id, hits)
  {
    assert id in ps ==> SameButPlace(ps[id], qs[id]);
  }
}
