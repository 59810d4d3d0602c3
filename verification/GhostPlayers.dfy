/** Players that stay behind: the received queue (Server/server_receive.c) hands the host a client's LOST_CONNECTION
    before entries it pushed earlier, and the host (Host/game.cpp) handles those afterwards. */
module GhostPlayers {
  import opened Geometry
  import opened World
  import opened Host
  import opened Runs
  import opened Ledger
  import opened Handlers
  import R = Received

  /** What each message of each client says. */
  type Commands = (nat, nat) -> Command

  function AsMessage(e: R.Entry, commands: Commands): Message {
    match e
    case New(c) => NewConnection(c)
    case Lost(c) => LostConnection(c)
    case Message(c, n) => FromClient(c, commands(c, n))
  }

  /** The game has handled the entries `out` in the order they were taken, with ticks and EMPTY messages between. */
  ghost predicate Replays(es: seq<Event>, out: seq<R.Entry>, commands: Commands) {
    if es == [] then out == []
    else
      var es0, e := es[..|es| - 1], es[|es| - 1];
      if e.Advance? || e.message.Empty? then Replays(es0, out, commands)
      else
        && out != [] && e.message == AsMessage(out[|out| - 1], commands)
        && Replays(es0, out[..|out| - 1], commands)
  }

  /** Handling the entry puts its client among the players. */
  predicate Enters(e: R.Entry, commands: Commands) {
    match e
    case New(_) => true
    case Lost(_) => false
    case Message(c, n) => LooksUp(commands(c, n))
  }

  predicate AnyEnters(q: seq<R.Entry>, commands: Commands) {
    exists i :: 0 <= i < |q| && Enters(q[i], commands)
  }

  // ---------- a kill for a player who is not there ----------

  /** In the pass some projectile of c strikes fatally. */
  ghost predicate PassCredits(g: Setting, players: map<nat, Player>, ps: seq<Projectile>, os: seq<Outcome>, c: nat)
    requires PassOk(g.m, g.ground, players, ps, os)
  {
    if os == [] then false
    else
      var k := |os| - 1;
      || PassCredits(g, players, ps, os[..k], c)
      || (ps[k].owner == c && Fatal(PassPlayers(g.m, g.ground, players, ps, os[..k]), os[k]))
  }

  ghost predicate TickCredits(g: Setting, s: State, order: seq<nat>, os: seq<Outcome>, c: nat)
    requires TickOk(g.m, g.ground, s, order, os)
  {
    var b := BeforeChecks(g.m, g.ground, s, order);
    PassCredits(g, b.players, b.projectiles, os, c)
  }

  lemma OutcomeKeys(players: map<nat, Player>, p: Projectile, o: Outcome, c: nat)
    requires o.Struck? ==> o.victim in players
    ensures c in AfterOutcome(players, p, o) <==> c in players || (p.owner == c && Fatal(players, o))
  {
    hide Increment16, NewPlayer;
  }

  lemma {:induction false} PassKeys(g: Setting, players: map<nat, Player>, ps: seq<Projectile>, os: seq<Outcome>,
                                    c: nat)
    requires PassOk(g.m, g.ground, players, ps, os)
    ensures c in PassPlayers(g.m, g.ground, players, ps, os) <==> c in players || PassCredits(g, players, ps, os, c)
  {
    hide AfterOutcome, Fatal, HitsWall, HitsObstacle, HitsBorder;
    if os != [] {
      var k := |os| - 1;
      PassKeys(g, players, ps, os[..k], c);
      OutcomeKeys(PassPlayers(g.m, g.ground, players, ps, os[..k]), ps[k], os[k], c);
    }
  }

  lemma TickKeys(g: Setting, s: State, order: seq<nat>, os: seq<Outcome>, c: nat)
    requires TickOk(g.m, g.ground, s, order, os)
    ensures c in Ticked(g.m, g.ground, s, order, os).players <==> c in s.players || TickCredits(g, s, order, os, c)
  {
    var b := BeforeChecks(g.m, g.ground, s, order);
    BeforeChecksKeepsAllButPlaces(g, s, order);
    PassKeys(g, b.players, b.projectiles, os, c);
    hide BeforeChecks, PassPlayers, PassOk, PassCredits, SameButPlace;
  }

  /** Since the host last handled a LOST_CONNECTION of c, a projectile of c has killed. */
  ghost predicate CreditedSince(g: Setting, es: seq<Event>, c: nat)
    requires RunOk(g, es)
  {
    if es == [] then false
    else
      var es0 := es[..|es| - 1];
      match es[|es| - 1]
      case Handle(message, _) => message != LostConnection(c) && CreditedSince(g, es0, c)
      case Advance(order, os) => CreditedSince(g, es0, c) || TickCredits(g, After(g, es0), order, os, c)
  }

  // ---------- who is left among the players ----------

  /** A client that has gone is among the players exactly if something of it was taken after its LOST_CONNECTION that
      lets it in, or one of its projectiles has killed since. */
  ghost predicate StaysBehind(g: Setting, es: seq<Event>, out: seq<R.Entry>, commands: Commands, c: nat)
    requires RunOk(g, es)
  {
    c in After(g, es).players <==> AnyEnters(R.Behind(out, c), commands) || CreditedSince(g, es, c)
  }

  lemma EntersAppend(q: seq<R.Entry>, e: R.Entry, commands: Commands)
    ensures AnyEnters(q + [e], commands) <==> AnyEnters(q, commands) || Enters(e, commands)
  {
    hide Enters;
    var r := q + [e];
    assert forall i :: 0 <= i < |q| ==> r[i] == q[i];
    assert r[|q|] == e;
    if AnyEnters(q, commands) {
      var i :| 0 <= i < |q| && Enters(q[i], commands);
      assert Enters(r[i], commands);
    }
  }

  lemma EntryKeys(m: Libm, s: State, e: R.Entry, commands: Commands, at: Point, c: nat)
    ensures c in Handled(m, s, AsMessage(e, commands), at).players
       <==> e != R.Lost(c) && (c in s.players || (e.client == c && Enters(e, commands)))
  {
    WhoIsThere(m, s, AsMessage(e, commands), at, c);
    hide Handled, LooksUp;
  }

  lemma HandledLeaves(g: Setting, es: seq<Event>, out: seq<R.Entry>, commands: Commands, c: nat)
    requires RunOk(g, es) && es != [] && es[|es| - 1].Handle? && out != []
    requires es[|es| - 1].message == AsMessage(out[|out| - 1], commands)
    requires out[|out| - 1] == R.Lost(c) || StaysBehind(g, es[..|es| - 1], out[..|out| - 1], commands, c)
    ensures StaysBehind(g, es, out, commands, c)
  {
    var es0, e, out0 := es[..|es| - 1], out[|out| - 1], out[..|out| - 1];
    assert out == out0 + [e];
    var s := After(g, es0);
    assert After(g, es) == Handled(g.m, s, AsMessage(e, commands), es[|es| - 1].at);
    assert CreditedSince(g, es, c) <==> e != R.Lost(c) && CreditedSince(g, es0, c);
    EntryKeys(g.m, s, e, commands, es[|es| - 1].at, c);
    R.BehindPop(out0, e, c);
    EntersAppend(R.Behind(out0, c), e, commands);
    hide RunOk, After, CreditedSince, R.Behind, Handled, AsMessage;
    if e == R.Lost(c) {
      assert !AnyEnters([], commands);
    } else {
      assert R.Behind(out0, c) + [] == R.Behind(out0, c);
      assert e.Lost? ==> !Enters(e, commands);
      hide AnyEnters, Enters;
    }
  }

  lemma TickLeaves(g: Setting, es: seq<Event>, out: seq<R.Entry>, commands: Commands, c: nat)
    requires RunOk(g, es) && es != [] && es[|es| - 1].Advance? && StaysBehind(g, es[..|es| - 1], out, commands, c)
    ensures StaysBehind(g, es, out, commands, c)
  {
    var es0, e := es[..|es| - 1], es[|es| - 1];
    TickKeys(g, After(g, es0), e.order, e.outcomes, c);
    hide Ticked, TickCredits, AnyEnters, R.Behind;
  }

  lemma {:induction false} GoneButLeft(g: Setting, es: seq<Event>, out: seq<R.Entry>, commands: Commands, c: nat)
    requires RunOk(g, es) && Replays(es, out, commands) && R.Lost(c) in out
    ensures StaysBehind(g, es, out, commands, c)
    decreases |es|
  {
    hide After, AsMessage, AnyEnters, CreditedSince, TickOk, R.Behind;
    var es0, e := es[..|es| - 1], es[|es| - 1];
    if e.Advance? {
      GoneButLeft(g, es0, out, commands, c);
      TickLeaves(g, es, out, commands, c);
    } else if e.message.Empty? {
      GoneButLeft(g, es0, out, commands, c);
      EmptyLeaves(g, es, out, commands, c);
    } else {
      var out0 := out[..|out| - 1];
      assert out == out0 + [out[|out| - 1]];
      if out[|out| - 1] != R.Lost(c) {
        GoneButLeft(g, es0, out0, commands, c);
      }
      HandledLeaves(g, es, out, commands, c);
    }
  }

  lemma EmptyLeaves(g: Setting, es: seq<Event>, out: seq<R.Entry>, commands: Commands, c: nat)
    requires RunOk(g, es) && es != [] && es[|es| - 1].Handle? && es[|es| - 1].message.Empty?
    requires StaysBehind(g, es[..|es| - 1], out, commands, c)
    ensures StaysBehind(g, es, out, commands, c)
  {
    hide AnyEnters, R.Behind;
  }

  // ---------- the server and the host together ----------

  /** Some entry of client c was queued, at this moment, that will let it in when it is handled. */
  predicate QueuedToEnter(queue: seq<R.Entry>, c: nat, commands: Commands) {
    exists e :: e in queue && e.client == c && Enters(e, commands)
  }

  lemma {:induction false} MineEnters(queue: seq<R.Entry>, c: nat, commands: Commands)
    ensures AnyEnters(R.Mine(queue, c), commands) <==> QueuedToEnter(queue, c, commands)
  {
    MineIsMine(queue, c);
    hide R.Mine;
    assert forall e: R.Entry :: Enters(e, commands) ==> !e.Lost?;
    hide Enters;
    var q := R.Mine(queue, c);
    if AnyEnters(q, commands) {
      var i :| 0 <= i < |q| && Enters(q[i], commands);
      assert q[i] in q;
    }
    if QueuedToEnter(queue, c, commands) {
      var e :| e in queue && e.client == c && Enters(e, commands);
      assert e in q;
      var i :| 0 <= i < |q| && q[i] == e;
      assert Enters(q[i], commands);
    }
  }

  lemma {:induction false} MineIsMine(queue: seq<R.Entry>, c: nat)
    ensures forall e :: e in R.Mine(queue, c) <==> e in queue && !e.Lost? && e.client == c
  {
    if queue != [] {
      MineIsMine(queue[1..], c);
      assert queue == [queue[0]] + queue[1..];
    }
  }

  lemma {:induction false} NoneMine(queue: seq<R.Entry>, c: nat)
    requires forall e :: e in queue ==> e.client != c
    ensures R.Mine(queue, c) == []
  {
    if queue != [] {
      NoneMine(queue[1..], c);
    }
  }

  /** Ghost players. Once the host has handled a client's LOST_CONNECTION and everything of it that was still queued,
      the client is among the players exactly if, when step j pushed that LOST_CONNECTION, its NEW_CONNECTION or a
      message that looks its sender up was queued, or if one of its projectiles has killed since. */
  lemma GhostPlayerIff(ls: seq<R.Label>, g: Setting, es: seq<Event>, commands: Commands, c: nat, j: nat)
    requires R.RunOk(ls) && RunOk(g, es) && Replays(es, R.After(ls).out, commands)
    requires R.Lost(c) in R.After(ls).out && forall e :: e in R.After(ls).queue ==> e.client != c
    requires j < |ls| && ls[j] == R.AnnounceLost(c)
    ensures R.RunOk(ls[..j])
    ensures c in After(g, es).players
       <==> QueuedToEnter(R.After(ls[..j]).queue, c, commands) || CreditedSince(g, es, c)
  {
    var s := R.After(ls);
    R.OvertakenAreLeft(ls, j, c);
    NoneMine(s.queue, c);
    assert R.Left(s, c) == R.Behind(s.out, c);
    GoneButLeft(g, es, s.out, commands, c);
    MineEnters(R.After(ls[..j]).queue, c, commands);
    hide R.RunOk, R.After, RunOk, After, Replays, CreditedSince, QueuedToEnter, AnyEnters;
  }

  /** Every message asks for a spawn. */
  function OnlySpawns(): Commands {
    (c, n) => Spawn
  }

  lemma RunGoesOn(g: Setting, es: seq<Event>, message: Message, at: Point)
    requires RunOk(g, es)
    ensures RunOk(g, es + [Handle(message, at)])
    ensures After(g, es + [Handle(message, at)]) == Handled(g.m, After(g, es), message, at)
  {
    assert (es + [Handle(message, at)])[..|es|] == es;
  }

  lemma ReplayGoesOn(es: seq<Event>, out: seq<R.Entry>, commands: Commands, e: R.Entry, at: Point)
    requires Replays(es, out, commands)
    ensures Replays(es + [Handle(AsMessage(e, commands), at)], out + [e], commands)
  {
    assert (es + [Handle(AsMessage(e, commands), at)])[..|es|] == es;
    assert (out + [e])[..|out|] == out;
  }

  lemma NothingReplayed(g: Setting, commands: Commands)
    ensures RunOk(g, []) && After(g, []) == State(map[], []) && Replays([], [], commands)
  {}

  /** A run of server and host that leaves a living ghost: the connection breaks before the host has taken the client's
      first message, which asks for a spawn. Nothing of the client is queued any more. */
  lemma GhostPlayerRun(g: Setting, at: Point) returns (ls: seq<R.Label>, es: seq<Event>)
    ensures R.RunOk(ls) && R.After(ls).queue == [] && R.Lost(0) in R.After(ls).out
    ensures RunOk(g, es) && Replays(es, R.After(ls).out, OnlySpawns())
    ensures 0 in After(g, es).players && After(g, es).players[0].alive
  {
    var commands := OnlySpawns();
    ls := R.OvertakenMessage();
    NothingReplayed(g, commands);
    hide R.RunOk, R.After, RunOk, After, Replays;
    var e1, e2, e3 := R.New(0), R.Lost(0), R.Message(0, 0);
    RunGoesOn(g, [], NewConnection(0), at);
    ReplayGoesOn([], [], commands, e1, at);
    var es1 := [] + [Handle(NewConnection(0), at)];
    RunGoesOn(g, es1, LostConnection(0), at);
    ReplayGoesOn(es1, [] + [e1], commands, e2, at);
    var es2 := es1 + [Handle(LostConnection(0), at)];
    RunGoesOn(g, es2, FromClient(0, Spawn), at);
    ReplayGoesOn(es2, [] + [e1] + [e2], commands, e3, at);
    es := es2 + [Handle(FromClient(0, Spawn), at)];
    assert [] + [e1] + [e2] + [e3] == R.After(ls).out;
  }
}
