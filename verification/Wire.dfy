/** The messages the host writes (Host/game.cpp) and the client reads back (Client/client.py), byte for byte.
    A double or a float travels as its 8 or 4 bytes unchanged. */
module Wire {
  import opened Bytes

  type Double = b: Bytes | |b| == 8 witness seq(8, _ => 0 as byte)
  type Float = b: Bytes | |b| == 4 witness seq(4, _ => 0 as byte)

  const GAME_MAP: byte := 1
  const GAME_STATE: byte := 2

  const PLAYER_BYTES := 44
  const PROJECTILE_BYTES := 34
  /** sizeof(Player), sizeof(Projectile) on the 64-bit host: what the allocation reserves. */
  const PLAYER_SIZEOF := 64
  const PROJECTILE_SIZEOF := 48

  datatype Vec = Vec(x: Double, y: Double)

  datatype PlayerRecord = PlayerRecord(id: nat, alive: bool, health: byte, position: Vec, velocity: Vec,
                                       angle: Float, kills: nat, deaths: nat)

  datatype ProjectileRecord = ProjectileRecord(owner: nat, position: Vec, velocity: Vec)

  datatype GameState = GameState(players: seq<PlayerRecord>, projectiles: seq<ProjectileRecord>)

  // ---------- what the host writes ----------

  function VecBytes(v: Vec): Bytes {
    v.x + v.y
  }

  function PlayerHead(p: PlayerRecord): Bytes {
    LittleEndian(p.id, 2) + [if p.alive then 1 else 0] + [p.health]
  }

  function PlayerTail(p: PlayerRecord): Bytes {
    VecBytes(p.position) + VecBytes(p.velocity) + p.angle + LittleEndian(p.kills, 2) + LittleEndian(p.deaths, 2)
  }

  function PlayerBytes(p: PlayerRecord): (b: Bytes)
    ensures |b| == PLAYER_BYTES
  {
    PlayerHead(p) + PlayerTail(p)
  }

  function ProjectileBytes(p: ProjectileRecord): (b: Bytes)
    ensures |b| == PROJECTILE_BYTES
  {
    LittleEndian(p.owner, 2) + VecBytes(p.position) + VecBytes(p.velocity)
  }

  function PlayersBytes(ps: seq<PlayerRecord>): (b: Bytes)
    ensures |b| == PLAYER_BYTES * |ps|
  {
    if ps == [] then [] else PlayersBytes(ps[..|ps| - 1]) + PlayerBytes(ps[|ps| - 1])
  }

  function ProjectilesBytes(ps: seq<ProjectileRecord>): (b: Bytes)
    ensures |b| == PROJECTILE_BYTES * |ps|
  {
    if ps == [] then [] else ProjectilesBytes(ps[..|ps| - 1]) + ProjectileBytes(ps[|ps| - 1])
  }

  function GameStateBytes(s: GameState): (b: Bytes)
    ensures |b| == 5 + PLAYER_BYTES * |s.players| + PROJECTILE_BYTES * |s.projectiles|
  {
    GameStateHeader(|s.players|, |s.projectiles|) + PlayersBytes(s.players) + ProjectilesBytes(s.projectiles)
  }

  function GameStateHeader(players: nat, projectiles: nat): (b: Bytes)
    ensures |b| == 5
  {
    [GAME_STATE] + LittleEndian(players, 2) + LittleEndian(projectiles, 2)
  }

  /** A buffer and the write pointer that copyToBuf advances. */
  class Writer {
    const buffer: array<byte>
    var position: nat

    ghost predicate Valid()
      reads this
    {
      position <= buffer.Length
    }

    ghost function Written(): Bytes
      reads this, buffer
      requires Valid()
    {
      buffer[..position]
    }

    constructor (capacity: nat)
      ensures Valid() && position == 0 && Written() == [] && fresh(buffer) && buffer.Length == capacity
    {
      buffer := new byte[capacity];
      position := 0;
    }

    method CopyBytes(b: Bytes)
      requires Valid() && position + |b| <= buffer.Length
      modifies this, buffer
      ensures Valid() && Written() == old(Written()) + b && position == old(position) + |b|
    {
      var i := 0;
      while i < |b|
        invariant 0 <= i <= |b| && position == old(position)
        invariant buffer[..position + i] == old(buffer[..position]) + b[..i]
      {
        buffer[position + i] := b[i];
        i := i + 1;
        assert buffer[..position + i] == buffer[..position + i - 1] + [b[i - 1]];
        assert b[..i] == b[..i - 1] + [b[i - 1]];
      }
      position := position + |b|;
    }

    /** copyToBuf<uint8_t>, copyToBuf<uint16_t> */
    method CopyInt(n: nat, width: nat)
      requires Valid() && position + width <= buffer.Length
      modifies this, buffer
      ensures Valid() && Written() == old(Written()) + LittleEndian(n, width) && position == old(position) + width
    {
      CopyBytes(LittleEndian(n, width));
    }

    /** copyToBuf<double> of a point: x, then y. */
    method CopyVec(v: Vec)
      requires Valid() && position + 16 <= buffer.Length
      modifies this, buffer
      ensures Valid() && Written() == old(Written()) + VecBytes(v) && position == old(position) + 16
    {
      CopyBytes(v.x);
      CopyBytes(v.y);
    }

    method CopyPlayer(p: PlayerRecord)
      requires Valid() && position + PLAYER_BYTES <= buffer.Length
      modifies this, buffer
      ensures Valid() && Written() == old(Written()) + PlayerBytes(p) && position == old(position) + PLAYER_BYTES
    {
      hide LittleEndian, VecBytes, Written;
      ghost var start := Written();
      CopyInt(p.id, 2);
      CopyBytes([if p.alive then 1 else 0]);
      CopyBytes([p.health]);
      assert Written() == start + PlayerHead(p);
      ghost var middle := Written();
      CopyVec(p.position);
      CopyVec(p.velocity);
      CopyBytes(p.angle);
      CopyInt(p.kills, 2);
      CopyInt(p.deaths, 2);
      assert Written() == middle + PlayerTail(p);
    }

    method CopyProjectile(p: ProjectileRecord)
      requires Valid() && position + PROJECTILE_BYTES <= buffer.Length
      modifies this, buffer
      ensures Valid() && Written() == old(Written()) + ProjectileBytes(p)
          && position == old(position) + PROJECTILE_BYTES
    {
      CopyInt(p.owner, 2);
      CopyVec(p.position);
      CopyVec(p.velocity);
    }
  }

  const LIMIT16 := 0x1_0000

  function Allocated(players: nat, projectiles: nat): nat {
    5 + (players % LIMIT16) * PLAYER_SIZEOF + (projectiles % LIMIT16) * PROJECTILE_SIZEOF
  }

  function WrittenSize(players: nat, projectiles: nat): nat {
    5 + players * PLAYER_BYTES + projectiles * PROJECTILE_BYTES
  }

  /** The allocation is computed from 16-bit counts. It holds what the loops write exactly when both counts fit
      in 16 bits: one player or projectile too many always runs past the end. */
  lemma AllocationSufficesIff(players: nat, projectiles: nat)
    ensures WrittenSize(players, projectiles) <= Allocated(players, projectiles)
       <==> players < LIMIT16 && projectiles < LIMIT16
  {
    var a, b := players / LIMIT16, projectiles / LIMIT16;
    assert players == LIMIT16 * a + players % LIMIT16;
    assert projectiles == LIMIT16 * b + projectiles % LIMIT16;
  }

  method CopyPlayers(w: Writer, ps: seq<PlayerRecord>)
    requires w.Valid() && w.position + PLAYER_BYTES * |ps| <= w.buffer.Length
    modifies w, w.buffer
    ensures w.Valid() && w.Written() == old(w.Written()) + PlayersBytes(ps)
    ensures w.position == old(w.position) + PLAYER_BYTES * |ps|
  {
    var i := 0;
    while i < |ps|
      invariant 0 <= i <= |ps| && w.Valid() && w.position == old(w.position) + PLAYER_BYTES * i
      invariant w.Written() == old(w.Written()) + PlayersBytes(ps[..i])
    {
      hide Writer.Written, PlayerBytes;
      w.CopyPlayer(ps[i]);
      i := i + 1;
      assert ps[..i][..i - 1] == ps[..i - 1];
    }
    assert ps[..i] == ps;
  }

  method CopyProjectiles(w: Writer, ps: seq<ProjectileRecord>)
    requires w.Valid() && w.position + PROJECTILE_BYTES * |ps| <= w.buffer.Length
    modifies w, w.buffer
    ensures w.Valid() && w.Written() == old(w.Written()) + ProjectilesBytes(ps)
    ensures w.position == old(w.position) + PROJECTILE_BYTES * |ps|
  {
    var i := 0;
    while i < |ps|
      invariant 0 <= i <= |ps| && w.Valid() && w.position == old(w.position) + PROJECTILE_BYTES * i
      invariant w.Written() == old(w.Written()) + ProjectilesBytes(ps[..i])
    {
      hide Writer.Written, ProjectileBytes;
      w.CopyProjectile(ps[i]);
      i := i + 1;
      assert ps[..i][..i - 1] == ps[..i - 1];
    }
    assert ps[..i] == ps;
  }

  method Contents(w: Writer) returns (buffer: array<byte>, size: nat)
    requires w.Valid()
    ensures buffer == w.buffer && size == w.position <= buffer.Length && buffer[..size] == w.Written()
  {
    buffer, size := w.buffer, w.position;
  }

  method WriteHeader(w: Writer, n: nat, k: nat)
    requires w.Valid() && w.position == 0 && 5 <= w.buffer.Length
    modifies w, w.buffer
    ensures w.Valid() && w.Written() == GameStateHeader(n, k) && w.position == 5
  {
    hide LittleEndian;
    w.CopyBytes([GAME_STATE]);
    w.CopyInt(n, 2);
    w.CopyInt(k, 2);
  }

  method SerializeGameState(s: GameState) returns (buffer: array<byte>, size: nat)
    requires |s.players| < LIMIT16 && |s.projectiles| < LIMIT16
    ensures fresh(buffer) && size <= buffer.Length == Allocated(|s.players|, |s.projectiles|)
    ensures size == WrittenSize(|s.players|, |s.projectiles|)
    ensures buffer[..size] == GameStateBytes(s)
  {
    hide LittleEndian, PlayersBytes, ProjectilesBytes, Writer.Written, GameStateHeader;
    var n, k := |s.players|, |s.projectiles|;
    AllocationSufficesIff(n, k);
    var w := new Writer(5 + n * PLAYER_SIZEOF + k * PROJECTILE_SIZEOF);
    WriteHeader(w, n, k);
    CopyPlayers(w, s.players);
    CopyProjectiles(w, s.projectiles);
    assert w.Written() == GameStateBytes(s);
    buffer, size := Contents(w);
  }
}
