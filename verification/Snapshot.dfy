/** The game state as it travels: what Game::serializeGameState (Host/game.cpp) writes of a reachable game and what the
    client (Client/client.py) reads back. */
module Snapshot {
  import opened Bytes
  import opened World
  import opened Runs
  import opened Ledger
  import opened Wire
  import opened ClientReader

  /** The bytes of a double and of a float. */
  datatype Encoding = Encoding(wide: real -> Double, narrow: real -> Float)

  function Place(x: Encoding, p: Geometry.Point): Vec {
    Vec(x.wide(p.x), x.wide(p.y))
  }

  function PlayerOf(x: Encoding, p: Player): PlayerRecord
    requires p.health < 256
  {
    PlayerRecord(p.playerId, p.alive, p.health as byte, Place(x, p.body.centre), Place(x, p.velocity),
                 x.narrow(p.orientation), p.kills, p.deaths)
  }

  function ProjectileOf(x: Encoding, p: Projectile): ProjectileRecord {
    ProjectileRecord(p.owner, Place(x, p.body.centre), Place(x, p.velocity))
  }

  predicate Fits(p: Player) {
    p.health < 256 && p.kills < LIMIT16 && p.deaths < LIMIT16
  }

  predicate Writable(s: State, order: seq<nat>) {
    forall i :: 0 <= i < |order| ==> order[i] in s.players && Fits(s.players[order[i]])
  }

  /** The players in the order in which the map is visited, then the projectiles. */
  function Of(x: Encoding, s: State, order: seq<nat>): (r: GameState)
    requires Writable(s, order)
  {
    GameState(seq(|order|, i requires 0 <= i < |order| => PlayerOf(x, s.players[order[i]])),
              seq(|s.projectiles|, i requires 0 <= i < |s.projectiles| => ProjectileOf(x, s.projectiles[i])))
  }

  /** What the client shows of a player is what the host has, its own id modulo 2^16. */
  predicate Shown(x: Encoding, p: Player, r: PlayerRecord) {
    && r.id == p.playerId % LIMIT16 && r.alive == p.alive && r.health as int == p.health
    && r.position == Place(x, p.body.centre) && r.velocity == Place(x, p.velocity) && r.angle == x.narrow(p.orientation)
    && r.kills == p.kills && r.deaths == p.deaths
  }

  lemma HealthAndScoresFit(g: Setting, es: seq<Event>, id: nat)
    requires RunOk(g, es) && id in After(g, es).players
    ensures Fits(After(g, es).players[id])
  {
    DamageLedger(g, es, id);
    hide RunOk, After, HitsTaken;
  }

  lemma ReceivedPlayerIsShown(x: Encoding, p: Player)
    requires Fits(p)
    ensures Shown(x, p, ReceivedPlayer(PlayerOf(x, p)))
  {}

  /** Every player and every projectile, and nothing else, comes back from the message. */
  ghost predicate Seen(x: Encoding, s: State, order: seq<nat>, read: Result<(GameState, Bytes)>, rest: Bytes)
    requires Writable(s, order)
  {
    && read.Ok? && read.value.1 == rest
    && |read.value.0.players| == |order| && |read.value.0.projectiles| == |s.projectiles|
    && (forall i :: 0 <= i < |order| ==> Shown(x, s.players[order[i]], read.value.0.players[i]))
    && forall i :: 0 <= i < |s.projectiles| ==>
         read.value.0.projectiles[i] == ProjectileOf(x, s.projectiles[i]).(owner := s.projectiles[i].owner % LIMIT16)
  }

  lemma StateIsSeen(x: Encoding, s: State, order: seq<nat>, rest: Bytes)
    requires Writable(s, order) && |order| < LIMIT16 && |s.projectiles| < LIMIT16
    ensures Seen(x, s, order, GetGameState(GameStateBytes(Of(x, s, order))[1..] + rest), rest)
  {
    hide GetGameState, GameStateBytes, Place, Shown, PlayerOf, ReceivedPlayer;
    var t := Of(x, s, order);
    GameStateRoundTrip(t, rest);
    var ps := ReceivedPlayers(t.players);
    forall i | 0 <= i < |order| ensures Shown(x, s.players[order[i]], ps[i]) {
      ReceivedPlayerIsShown(x, s.players[order[i]]);
      assert ps[i] == ReceivedPlayer(t.players[i]);
    }
  }

  /** In every reachable state with at most 65535 players and projectiles, in whatever order the players are visited,
      the client reads back every player and every projectile, exactly but for ids modulo 2^16, and nothing else. */
  lemma ClientSeesTheGame(g: Setting, es: seq<Event>, x: Encoding, order: seq<nat>, rest: Bytes)
    requires RunOk(g, es) && Enumerates(order, After(g, es).players.Keys)
    requires |order| < LIMIT16 && |After(g, es).projectiles| < LIMIT16
    ensures var s := After(g, es);
            Writable(s, order) && Seen(x, s, order, GetGameState(GameStateBytes(Of(x, s, order))[1..] + rest), rest)
  {
    var s := After(g, es);
    forall i | 0 <= i < |order| ensures order[i] in s.players && Fits(s.players[order[i]]) {
      HealthAndScoresFit(g, es, order[i]);
    }
    hide *;
    WritableOrder(s, order);
    StateIsSeen(x, s, order, rest);
  }

  lemma WritableOrder(s: State, order: seq<nat>)
    requires forall i :: 0 <= i < |order| ==> order[i] in s.players && Fits(s.players[order[i]])
    ensures Writable(s, order)
  {}
}
