/** The game state by its offsets, as the protocol lists its fields: type, counts, players, projectiles
    (Protokol_komunikacji.txt, Game::serializeGameState in Host/game.cpp). */
module Layout {
  import opened Bytes
  import opened Wire
  import opened MapWire

  /** Two bytes, the low one first. */
  function Pair(n: nat): Bytes {
    [(n % 256) as byte, (n / 256 % 256) as byte]
  }

  lemma PairIsLittleEndian(n: nat)
    ensures LittleEndian(n, 2) == Pair(n)
  {
    assert LittleEndian(n, 2) == [(n % 256) as byte] + LittleEndian(n / 256, 1);
    assert LittleEndian(n / 256, 1) == [(n / 256 % 256) as byte] + LittleEndian(n / 256 / 256, 0);
  }

  /** The fields of one player in its 44 bytes. */
  predicate PlayerFields(b: Bytes, p: PlayerRecord) {
    && |b| == 44 && b[0..2] == Pair(p.id) && b[2] == (if p.alive then 1 else 0) && b[3] == p.health
    && b[4..12] == p.position.x && b[12..20] == p.position.y
    && b[20..28] == p.velocity.x && b[28..36] == p.velocity.y
    && b[36..40] == p.angle && b[40..42] == Pair(p.kills) && b[42..44] == Pair(p.deaths)
  }

  /** The fields of one projectile in its 34 bytes. */
  predicate ProjectileFields(b: Bytes, p: ProjectileRecord) {
    && |b| == 34 && b[0..2] == Pair(p.owner)
    && b[2..10] == p.position.x && b[10..18] == p.position.y
    && b[18..26] == p.velocity.x && b[26..34] == p.velocity.y
  }

  lemma HeadLaidOut(p: PlayerRecord, tail: Bytes)
    requires |tail| == 40
    ensures var b := PlayerHead(p) + tail;
            |b| == 44 && b[0..2] == Pair(p.id) && b[2] == (if p.alive then 1 else 0) && b[3] == p.health
            && b[4..] == tail
  {
    PairIsLittleEndian(p.id);
    hide LittleEndian, Pair;
  }

  lemma TailLaidOut(p: PlayerRecord)
    ensures var t := PlayerTail(p);
            && |t| == 40 && t[0..8] == p.position.x && t[8..16] == p.position.y
            && t[16..24] == p.velocity.x && t[24..32] == p.velocity.y
            && t[32..36] == p.angle && t[36..38] == Pair(p.kills) && t[38..40] == Pair(p.deaths)
  {
    PairIsLittleEndian(p.kills);
    PairIsLittleEndian(p.deaths);
    hide LittleEndian, Pair;
  }

  lemma Behind(b: Bytes, t: Bytes, k: nat, i: nat, j: nat)
    requires k <= |b| && b[k..] == t && i <= j <= |t|
    ensures b[k + i..k + j] == t[i..j]
  {
    assert b[k..][i..j] == b[k + i..k + j];
  }

  lemma PlayerLaidOut(p: PlayerRecord)
    ensures PlayerFields(PlayerBytes(p), p)
  {
    var b, t := PlayerBytes(p), PlayerTail(p);
    TailLaidOut(p);
    HeadLaidOut(p, t);
    hide PlayerHead, PlayerTail, Pair;
    Behind(b, t, 4, 0, 8);
    Behind(b, t, 4, 8, 16);
    Behind(b, t, 4, 16, 24);
    Behind(b, t, 4, 24, 32);
    Behind(b, t, 4, 32, 36);
    Behind(b, t, 4, 36, 38);
    Behind(b, t, 4, 38, 40);
  }

  lemma FourDoubles(x: Double, y: Double, v: Double, w: Double)
    ensures var t := x + y + v + w;
            |t| == 32 && t[0..8] == x && t[8..16] == y && t[16..24] == v && t[24..32] == w
  {}

  lemma ProjectileLaidOut(p: ProjectileRecord)
    ensures ProjectileFields(ProjectileBytes(p), p)
  {
    var b, t := ProjectileBytes(p), p.position.x + p.position.y + p.velocity.x + p.velocity.y;
    PairIsLittleEndian(p.owner);
    FourDoubles(p.position.x, p.position.y, p.velocity.x, p.velocity.y);
    assert b == LittleEndian(p.owner, 2) + t;
    assert b[0..2] == LittleEndian(p.owner, 2) && b[2..] == t;
    hide ProjectileBytes, LittleEndian, Pair;
    Behind(b, t, 2, 0, 8);
    Behind(b, t, 2, 8, 16);
    Behind(b, t, 2, 16, 24);
    Behind(b, t, 2, 24, 32);
  }

  lemma {:induction false} PlayerAt(ps: seq<PlayerRecord>, i: nat)
    requires i < |ps|
    ensures PlayersBytes(ps)[44 * i..44 * (i + 1)] == PlayerBytes(ps[i])
  {
    hide PlayerBytes;
    var last := |ps| - 1;
    var b := PlayersBytes(ps[..last]);
    assert PlayersBytes(ps) == b + PlayerBytes(ps[last]);
    if i < last {
      PlayerAt(ps[..last], i);
      assert PlayersBytes(ps)[44 * i..44 * (i + 1)] == b[44 * i..44 * (i + 1)];
    }
  }

  lemma {:induction false} ProjectileAt(ps: seq<ProjectileRecord>, i: nat)
    requires i < |ps|
    ensures ProjectilesBytes(ps)[34 * i..34 * (i + 1)] == ProjectileBytes(ps[i])
  {
    hide ProjectileBytes;
    var last := |ps| - 1;
    var b := ProjectilesBytes(ps[..last]);
    assert ProjectilesBytes(ps) == b + ProjectileBytes(ps[last]);
    if i < last {
      ProjectileAt(ps[..last], i);
      assert ProjectilesBytes(ps)[34 * i..34 * (i + 1)] == b[34 * i..34 * (i + 1)];
    }
  }

  /** The map message: its type and its three counts. */
  lemma MapHeaderLaidOut(r: MapRecord)
    requires r.WellFormed()
    ensures var b := MapBytes(r);
            && |b| == 7 + 64 * |r.walls| + 24 * |r.obstacles| + 16 * |r.borders| && b[0] == 1
            && b[1..3] == Pair(|r.walls|) && b[3..5] == Pair(|r.obstacles|) && b[5..7] == Pair(|r.borders|)
  {
    var h := MapHeader(|r.walls|, |r.obstacles|, |r.borders|);
    PairIsLittleEndian(|r.walls|);
    PairIsLittleEndian(|r.obstacles|);
    PairIsLittleEndian(|r.borders|);
    hide LittleEndian, Pair, RecordsBytes;
    assert MapBytes(r)[..7] == h;
    Within7(MapBytes(r), h);
  }

  lemma Within7(b: Bytes, h: Bytes)
    requires 7 <= |b| && b[..7] == h
    ensures b[0] == h[0] && b[1..3] == h[1..3] && b[3..5] == h[3..5] && b[5..7] == h[5..7]
  {
    assert b[1..3] == b[..7][1..3] && b[3..5] == b[..7][3..5] && b[5..7] == b[..7][5..7];
  }

  lemma HeaderLaidOut(n: nat, m: nat, rest: Bytes)
    ensures var b := GameStateHeader(n, m) + rest;
            b[0] == 2 && b[1..3] == Pair(n) && b[3..5] == Pair(m) && b[5..] == rest
  {
    PairIsLittleEndian(n);
    PairIsLittleEndian(m);
    hide LittleEndian, Pair;
  }

  lemma PlayerBehind(s: GameState, b: Bytes, rest: Bytes, i: nat)
    requires i < |s.players| && 5 <= |b| && b[5..] == rest && PlayersBytes(s.players) <= rest
    ensures 5 + 44 * (i + 1) <= |b| && PlayerFields(b[5 + 44 * i..5 + 44 * (i + 1)], s.players[i])
  {
    hide PlayersBytes, PlayerFields, PlayerBytes;
    var ps := PlayersBytes(s.players);
    PlayerAt(s.players, i);
    PlayerLaidOut(s.players[i]);
    Behind(b, rest, 5, 44 * i, 44 * (i + 1));
    assert rest[..|ps|] == ps && rest[44 * i..44 * (i + 1)] == rest[..|ps|][44 * i..44 * (i + 1)];
  }

  lemma ProjectileBehind(s: GameState, b: Bytes, k: nat, i: nat)
    requires i < |s.projectiles| && k <= |b| && b[k..] == ProjectilesBytes(s.projectiles)
    ensures k + 34 * (i + 1) <= |b| && ProjectileFields(b[k + 34 * i..k + 34 * (i + 1)], s.projectiles[i])
  {
    hide ProjectilesBytes, ProjectileFields, ProjectileBytes;
    ProjectileAt(s.projectiles, i);
    ProjectileLaidOut(s.projectiles[i]);
    Behind(b, ProjectilesBytes(s.projectiles), k, 34 * i, 34 * (i + 1));
  }

  /** Where the protocol puts them: the type, the two counts, every player from byte 5 on, every projectile behind. */
  lemma GameStateLaidOut(s: GameState)
    ensures var b, n, m := GameStateBytes(s), |s.players|, |s.projectiles|;
            && |b| == 5 + 44 * n + 34 * m && b[0] == 2 && b[1..3] == Pair(n) && b[3..5] == Pair(m)
            && (forall i :: 0 <= i < n ==> PlayerFields(b[5 + 44 * i..5 + 44 * (i + 1)], s.players[i]))
            && forall i :: 0 <= i < m ==>
                 ProjectileFields(b[5 + 44 * n + 34 * i..5 + 44 * n + 34 * (i + 1)], s.projectiles[i])
  {
    var b, n, m := GameStateBytes(s), |s.players|, |s.projectiles|;
    var ps, qs := PlayersBytes(s.players), ProjectilesBytes(s.projectiles);
    assert b == GameStateHeader(n, m) + (ps + qs);
    HeaderLaidOut(n, m, ps + qs);
    assert b[5 + 44 * n..] == qs by {
      assert b[5..][44 * n..] == b[5 + 44 * n..];
    }
    hide *;
    forall i | 0 <= i < n ensures PlayerFields(b[5 + 44 * i..5 + 44 * (i + 1)], s.players[i]) {
      PlayerBehind(s, b, ps + qs, i);
    }
    forall i | 0 <= i < m
      ensures ProjectileFields(b[5 + 44 * n + 34 * i..5 + 44 * n + 34 * (i + 1)], s.projectiles[i])
    {
      ProjectileBehind(s, b, 5 + 44 * n, i);
    }
  }
}
