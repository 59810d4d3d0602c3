/** The readers of Client/client.py, over a BytesIO whose state is the bytes not read yet. */
module ClientReader {
  import opened Bytes
  import opened Wire

  /** A short read makes struct.unpack raise struct.error. */
  datatype Result<+T> = Ok(value: T) | StructError {
    predicate IsFailure() {
      StructError?
    }
    function PropagateFailure<U>(): Result<U>
      requires StructError?
    {
      StructError
    }
    function Extract(): T
      requires Ok?
    {
      value
    }
  }

  /** BytesIO.read(n): at most n bytes, fewer at the end. */
  function Read(c: Bytes, n: nat): (Bytes, Bytes) {
    if n <= |c| then (c[..n], c[n..]) else (c, [])
  }

  /** int.from_bytes accepts whatever read returned, even too few bytes. */
  function ReadInt(c: Bytes, n: nat): (nat, Bytes) {
    var (b, rest) := Read(c, n);
    (FromLittleEndian(b), rest)
  }

  function ReadBool(c: Bytes): (bool, Bytes) {
    var (n, rest) := ReadInt(c, 1);
    (n != 0, rest)
  }

  /** The health byte. */
  function ReadByte(c: Bytes): (byte, Bytes) {
    var (b, rest) := Read(c, 1);
    (if b == [] then 0 else b[0], rest)
  }

  function ReadDouble(c: Bytes): Result<(Double, Bytes)> {
    var (b, rest) := Read(c, 8);
    if |b| == 8 then Ok((b, rest)) else StructError
  }

  function ReadFloat(c: Bytes): Result<(Float, Bytes)> {
    var (b, rest) := Read(c, 4);
    if |b| == 4 then Ok((b, rest)) else StructError
  }

  function ReadPoint(c: Bytes): Result<(Vec, Bytes)> {
    var (x, c1) :- ReadDouble(c);
    var (y, c2) :- ReadDouble(c1);
    Ok((Vec(x, y), c2))
  }

  function ReadPlayer(c: Bytes): Result<(PlayerRecord, Bytes)> {
    var (id, c1) := ReadInt(c, 2);
    var (alive, c2) := ReadBool(c1);
    var (health, c3) := ReadByte(c2);
    var (position, c4) :- ReadPoint(c3);
    var (velocity, c5) :- ReadPoint(c4);
    var (angle, c6) :- ReadFloat(c5);
    var (kills, c7) := ReadInt(c6, 2);
    var (deaths, c8) := ReadInt(c7, 2);
    Ok((PlayerRecord(id, alive, health, position, velocity, angle, kills, deaths), c8))
  }

  function ReadProjectile(c: Bytes): Result<(ProjectileRecord, Bytes)> {
    var (owner, c1) := ReadInt(c, 2);
    var (position, c2) :- ReadPoint(c1);
    var (velocity, c3) :- ReadPoint(c2);
    Ok((ProjectileRecord(owner, position, velocity), c3))
  }

  function ReadPlayers(c: Bytes, n: nat): Result<(seq<PlayerRecord>, Bytes)>
    decreases n
  {
    if n == 0 then Ok(([], c))
    else
      var (p, c1) :- ReadPlayer(c);
      var (ps, c2) :- ReadPlayers(c1, n - 1);
      Ok(([p] + ps, c2))
  }

  function ReadProjectiles(c: Bytes, n: nat): Result<(seq<ProjectileRecord>, Bytes)>
    decreases n
  {
    if n == 0 then Ok(([], c))
    else
      var (p, c1) :- ReadProjectile(c);
      var (ps, c2) :- ReadProjectiles(c1, n - 1);
      Ok(([p] + ps, c2))
  }

  /** get_gamestate_from_bytes, called after the type byte has been read. */
  function GetGameState(c: Bytes): Result<(GameState, Bytes)> {
    var (n, c1) := ReadInt(c, 2);
    var (k, c2) := ReadInt(c1, 2);
    var (players, c3) :- ReadPlayers(c2, n);
    var (projectiles, c4) :- ReadProjectiles(c3, k);
    Ok((GameState(players, projectiles), c4))
  }

  // ---------- reading back what was written ----------

  lemma ReadBack(a: Bytes, rest: Bytes)
    ensures Read(a + rest, |a|) == (a, rest)
  {
    Seam(a, rest);
  }

  lemma ReadIntBack(n: nat, rest: Bytes)
    ensures ReadInt(LittleEndian(n, 2) + rest, 2) == (n % LIMIT16, rest)
  {
    ReadBack(LittleEndian(n, 2), rest);
    LittleEndianRoundTrip(n, 2);
    assert Pow256(2) == LIMIT16 by {
      assert Pow256(1) == 256 * Pow256(0);
    }
  }

  lemma ReadPointBack(v: Vec, rest: Bytes)
    ensures ReadPoint(VecBytes(v) + rest) == Ok((v, rest))
  {
    assert VecBytes(v) + rest == v.x + (v.y + rest);
    ReadBack(v.x, v.y + rest);
    ReadBack(v.y, rest);
  }

  /** What arrives of a player: identifiers and scores keep their low 16 bits. */
  function ReceivedPlayer(p: PlayerRecord): PlayerRecord {
    p.(id := p.id % LIMIT16, kills := p.kills % LIMIT16, deaths := p.deaths % LIMIT16)
  }

  function ReceivedProjectile(p: ProjectileRecord): ProjectileRecord {
    p.(owner := p.owner % LIMIT16)
  }

  lemma ReadFlagsBack(alive: bool, health: byte, rest: Bytes)
    ensures var c := [if alive then 1 as byte else 0] + ([health] + rest);
            ReadBool(c) == (alive, [health] + rest) && ReadByte([health] + rest) == (health, rest)
  {
    var flag: Bytes := [if alive then 1 as byte else 0];
    ReadBack(flag, [health] + rest);
    ReadBack([health], rest);
    assert FromLittleEndian(flag) == flag[0] as nat + 256 * FromLittleEndian([]);
  }

  lemma ReadPlayerBack(p: PlayerRecord, rest: Bytes)
    ensures ReadPlayer(PlayerBytes(p) + rest) == Ok((ReceivedPlayer(p), rest))
  {
    var flag: Bytes := [if p.alive then 1 as byte else 0];
    var c7 := LittleEndian(p.deaths, 2) + rest;
    var c6 := LittleEndian(p.kills, 2) + c7;
    var c5 := p.angle + c6;
    var c4 := VecBytes(p.velocity) + c5;
    var c3 := VecBytes(p.position) + c4;
    var c2 := [p.health] + c3;
    var c1 := flag + c2;
    assert PlayerBytes(p) + rest == LittleEndian(p.id, 2) + c1 by {
      hide LittleEndian, VecBytes;
      assert PlayerTail(p) + rest == c3;
      assert PlayerHead(p) + c3 == LittleEndian(p.id, 2) + c1;
      assert PlayerHead(p) + PlayerTail(p) + rest == PlayerHead(p) + (PlayerTail(p) + rest);
    }
    hide PlayerBytes, LittleEndian, VecBytes, ReadInt, ReadBool, ReadByte, ReadPoint;
    ReadIntBack(p.id, c1);
    ReadFlagsBack(p.alive, p.health, c3);
    ReadPointBack(p.position, c4);
    ReadPointBack(p.velocity, c5);
    ReadBack(p.angle, c6);
    ReadIntBack(p.kills, c7);
    ReadIntBack(p.deaths, rest);
  }

  lemma ReadProjectileBack(p: ProjectileRecord, rest: Bytes)
    ensures ReadProjectile(ProjectileBytes(p) + rest) == Ok((ReceivedProjectile(p), rest))
  {
    var c2 := VecBytes(p.velocity) + rest;
    var c1 := VecBytes(p.position) + c2;
    assert ProjectileBytes(p) + rest == LittleEndian(p.owner, 2) + c1;
    hide ProjectileBytes, LittleEndian, VecBytes, ReadInt, ReadPoint;
    ReadIntBack(p.owner, c1);
    ReadPointBack(p.position, c2);
    ReadPointBack(p.velocity, rest);
  }

  function ReceivedPlayers(ps: seq<PlayerRecord>): (r: seq<PlayerRecord>) {
    seq(|ps|, i requires 0 <= i < |ps| => ReceivedPlayer(ps[i]))
  }

  function ReceivedProjectiles(ps: seq<ProjectileRecord>): (r: seq<ProjectileRecord>) {
    seq(|ps|, i requires 0 <= i < |ps| => ReceivedProjectile(ps[i]))
  }

  lemma {:induction false} PlayersBytesFirst(ps: seq<PlayerRecord>)
    requires ps != []
    ensures PlayersBytes(ps) == PlayerBytes(ps[0]) + PlayersBytes(ps[1..])
  {
    hide PlayerBytes;
    var last := |ps| - 1;
    if last > 0 {
      PlayersBytesFirst(ps[..last]);
      assert ps[..last][1..] == ps[1..][..last - 1];
    } else {
      assert ps[..last] == [] && ps[1..] == [];
    }
  }

  lemma {:induction false} ProjectilesBytesFirst(ps: seq<ProjectileRecord>)
    requires ps != []
    ensures ProjectilesBytes(ps) == ProjectileBytes(ps[0]) + ProjectilesBytes(ps[1..])
  {
    hide ProjectileBytes;
    var last := |ps| - 1;
    if last > 0 {
      ProjectilesBytesFirst(ps[..last]);
      assert ps[..last][1..] == ps[1..][..last - 1];
    } else {
      assert ps[..last] == [] && ps[1..] == [];
    }
  }

  lemma {:induction false} ReadPlayersBack(ps: seq<PlayerRecord>, rest: Bytes)
    ensures ReadPlayers(PlayersBytes(ps) + rest, |ps|) == Ok((ReceivedPlayers(ps), rest))
  {
    hide PlayerBytes, ReadPlayer, ReceivedPlayer;
    if ps == [] {
      assert PlayersBytes(ps) + rest == rest;
    } else {
      PlayersBytesFirst(ps);
      var tail := PlayersBytes(ps[1..]) + rest;
      assert PlayersBytes(ps) + rest == PlayerBytes(ps[0]) + tail;
      ReadPlayerBack(ps[0], tail);
      ReadPlayersBack(ps[1..], rest);
      assert ReceivedPlayers(ps) == [ReceivedPlayer(ps[0])] + ReceivedPlayers(ps[1..]);
    }
  }

  lemma {:induction false} ReadProjectilesBack(ps: seq<ProjectileRecord>, rest: Bytes)
    ensures ReadProjectiles(ProjectilesBytes(ps) + rest, |ps|) == Ok((ReceivedProjectiles(ps), rest))
  {
    hide ProjectileBytes, ReadProjectile, ReceivedProjectile;
    if ps == [] {
      assert ProjectilesBytes(ps) + rest == rest;
    } else {
      ProjectilesBytesFirst(ps);
      var tail := ProjectilesBytes(ps[1..]) + rest;
      assert ProjectilesBytes(ps) + rest == ProjectileBytes(ps[0]) + tail;
      ReadProjectileBack(ps[0], tail);
      ReadProjectilesBack(ps[1..], rest);
      assert ReceivedProjectiles(ps) == [ReceivedProjectile(ps[0])] + ReceivedProjectiles(ps[1..]);
    }
  }

  /** The client recovers every state the host can serialise, and consumes exactly the message. */
  lemma GameStateRoundTrip(s: GameState, rest: Bytes)
    requires |s.players| < LIMIT16 && |s.projectiles| < LIMIT16
    ensures GetGameState(GameStateBytes(s)[1..] + rest)
         == Ok((GameState(ReceivedPlayers(s.players), ReceivedProjectiles(s.projectiles)), rest))
  {
    hide *;
    var n, k := |s.players|, |s.projectiles|;
    var c3 := ProjectilesBytes(s.projectiles) + rest;
    var c2 := PlayersBytes(s.players) + c3;
    var c1 := LittleEndian(k, 2) + c2;
    GameStateSplits(s, rest);
    ReadIntBack(n, c1);
    ReadIntBack(k, c2);
    ReadPlayersBack(s.players, c3);
    ReadProjectilesBack(s.projectiles, rest);
    GetGameStateSteps(LittleEndian(n, 2) + c1, n, c1, k, c2, ReceivedPlayers(s.players), c3,
                      ReceivedProjectiles(s.projectiles), rest);
  }

  lemma GetGameStateSteps(c: Bytes, n: nat, c1: Bytes, k: nat, c2: Bytes, players: seq<PlayerRecord>, c3: Bytes,
                          projectiles: seq<ProjectileRecord>, c4: Bytes)
    requires ReadInt(c, 2) == (n, c1) && ReadInt(c1, 2) == (k, c2)
    requires ReadPlayers(c2, n) == Ok((players, c3)) && ReadProjectiles(c3, k) == Ok((projectiles, c4))
    ensures GetGameState(c) == Ok((GameState(players, projectiles), c4))
  {
    hide ReadInt, ReadPlayers, ReadProjectiles;
  }

  lemma GameStateSplits(s: GameState, rest: Bytes)
    ensures GameStateBytes(s)[1..] + rest
         == LittleEndian(|s.players|, 2) + (LittleEndian(|s.projectiles|, 2)
            + (PlayersBytes(s.players) + (ProjectilesBytes(s.projectiles) + rest)))
  {
    hide GameStateHeader, LittleEndian, PlayersBytes, ProjectilesBytes;
    HeaderSplits(|s.players|, |s.projectiles|, PlayersBytes(s.players), ProjectilesBytes(s.projectiles), rest);
  }

  lemma HeaderSplits(n: nat, k: nat, players: Bytes, projectiles: Bytes, rest: Bytes)
    ensures (GameStateHeader(n, k) + players + projectiles)[1..] + rest
         == LittleEndian(n, 2) + (LittleEndian(k, 2) + (players + (projectiles + rest)))
  {
    hide LittleEndian;
    assert GameStateHeader(n, k)[1..] == LittleEndian(n, 2) + LittleEndian(k, 2);
  }
}
