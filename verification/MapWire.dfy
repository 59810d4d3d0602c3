/** The map message (Host/game.cpp serializeMap, Client/client.py get_map_from_bytes), and which byte strings the
    client's readers accept at all. */
module MapWire {
  import opened Bytes
  import opened Wire
  import opened ClientReader

  /** A wall as its eight coordinates, an obstacle as centre and radius, a border point as x and y. */
  type Record = seq<Double>

  const WALL_DOUBLES := 8
  const OBSTACLE_DOUBLES := 3
  const POINT_DOUBLES := 2

  predicate AllOfWidth(rs: seq<Record>, width: nat) {
    forall i :: 0 <= i < |rs| ==> |rs[i]| == width
  }

  datatype MapRecord = MapRecord(walls: seq<Record>, obstacles: seq<Record>, borders: seq<Record>) {
    predicate WellFormed() {
      AllOfWidth(walls, WALL_DOUBLES) && AllOfWidth(obstacles, OBSTACLE_DOUBLES) && AllOfWidth(borders, POINT_DOUBLES)
    }
    predicate Fits() {
      |walls| < LIMIT16 && |obstacles| < LIMIT16 && |borders| < LIMIT16
    }
  }

  function DoublesBytes(ds: Record): (b: Bytes)
    ensures |b| == 8 * |ds|
  {
    if ds == [] then [] else DoublesBytes(ds[..|ds| - 1]) + ds[|ds| - 1]
  }

  function RecordsBytes(rs: seq<Record>, width: nat): (b: Bytes)
    requires AllOfWidth(rs, width)
    ensures |b| == 8 * width * |rs|
  {
    if rs == [] then []
    else
      assert 8 * width * |rs| == 8 * width * (|rs| - 1) + 8 * width;
      RecordsBytes(rs[..|rs| - 1], width) + DoublesBytes(rs[|rs| - 1])
  }

  function MapHeader(walls: nat, obstacles: nat, borders: nat): (b: Bytes)
    ensures |b| == 7
  {
    [GAME_MAP] + LittleEndian(walls, 2) + LittleEndian(obstacles, 2) + LittleEndian(borders, 2)
  }

  function MapBytes(r: MapRecord): (b: Bytes)
    requires r.WellFormed()
    ensures |b| == 7 + 64 * |r.walls| + 24 * |r.obstacles| + 16 * |r.borders|
  {
    MapHeader(|r.walls|, |r.obstacles|, |r.borders|) + RecordsBytes(r.walls, WALL_DOUBLES)
    + RecordsBytes(r.obstacles, OBSTACLE_DOUBLES) + RecordsBytes(r.borders, POINT_DOUBLES)
  }

  // ---------- writing ----------

  method CopyRecord(w: Writer, ds: Record)
    requires w.Valid() && w.position + 8 * |ds| <= w.buffer.Length
    modifies w, w.buffer
    ensures w.Valid() && w.Written() == old(w.Written()) + DoublesBytes(ds)
    ensures w.position == old(w.position) + 8 * |ds|
  {
    var i := 0;
    while i < |ds|
      invariant 0 <= i <= |ds| && w.Valid() && w.position == old(w.position) + 8 * i
      invariant w.Written() == old(w.Written()) + DoublesBytes(ds[..i])
    {
      hide Writer.Written;
      w.CopyBytes(ds[i]);
      i := i + 1;
      assert ds[..i][..i - 1] == ds[..i - 1];
    }
    assert ds[..i] == ds;
  }

  method CopyRecords(w: Writer, rs: seq<Record>, width: nat)
    requires AllOfWidth(rs, width)
    requires w.Valid() && w.position + 8 * width * |rs| <= w.buffer.Length
    modifies w, w.buffer
    ensures w.Valid() && w.Written() == old(w.Written()) + RecordsBytes(rs, width)
    ensures w.position == old(w.position) + 8 * width * |rs|
  {
    var i := 0;
    while i < |rs|
      invariant 0 <= i <= |rs| && w.Valid() && w.position == old(w.position) + 8 * width * i
      invariant w.Written() == old(w.Written()) + RecordsBytes(rs[..i], width)
    {
      hide Writer.Written, DoublesBytes;
      RecordFits(i, |rs|, 8 * width);
      CopyRecord(w, rs[i]);
      i := i + 1;
      assert rs[..i][..i - 1] == rs[..i - 1];
    }
    assert rs[..i] == rs;
  }

  lemma RecordFits(i: nat, n: nat, size: nat)
    requires i < n
    ensures size * i + size == size * (i + 1) <= size * n
  {
    assert size * n == size * (i + 1) + size * (n - i - 1);
  }

  function MapAllocated(walls: nat, obstacles: nat, borders: nat): nat {
    7 + (walls % LIMIT16) * 64 + (obstacles % LIMIT16) * 24 + (borders % LIMIT16) * 16
  }

  /** The records fill the allocation exactly when the three counts fit in 16 bits, and overrun it otherwise. */
  lemma MapAllocationExact(walls: nat, obstacles: nat, borders: nat)
    ensures var written := 7 + 64 * walls + 24 * obstacles + 16 * borders;
            MapAllocated(walls, obstacles, borders) <= written
            && (written == MapAllocated(walls, obstacles, borders)
                <==> walls < LIMIT16 && obstacles < LIMIT16 && borders < LIMIT16)
  {
    assert walls == LIMIT16 * (walls / LIMIT16) + walls % LIMIT16;
    assert obstacles == LIMIT16 * (obstacles / LIMIT16) + obstacles % LIMIT16;
    assert borders == LIMIT16 * (borders / LIMIT16) + borders % LIMIT16;
  }

  method SerializeMap(r: MapRecord) returns (buffer: array<byte>, size: nat)
    requires r.WellFormed() && r.Fits()
    ensures fresh(buffer) && size == buffer.Length == MapAllocated(|r.walls|, |r.obstacles|, |r.borders|)
    ensures buffer[..size] == MapBytes(r)
  {
    hide LittleEndian, RecordsBytes;
    var n, k, l := |r.walls|, |r.obstacles|, |r.borders|;
    MapAllocationExact(n, k, l);
    var w := new Writer(7 + n * 64 + k * 24 + l * 16);
    w.CopyBytes([GAME_MAP]);
    w.CopyInt(n, 2);
    w.CopyInt(k, 2);
    w.CopyInt(l, 2);
    assert w.Written() == MapHeader(n, k, l);
    hide Writer.Written, MapHeader;
    CopyRecords(w, r.walls, WALL_DOUBLES);
    CopyRecords(w, r.obstacles, OBSTACLE_DOUBLES);
    CopyRecords(w, r.borders, POINT_DOUBLES);
    assert w.Written() == MapBytes(r);
    buffer, size := Contents(w);
  }

  // ---------- reading ----------

  function ReadDoubles(c: Bytes, k: nat): Result<(Record, Bytes)>
    decreases k
  {
    if k == 0 then Ok(([], c))
    else
      var (d, c1) :- ReadDouble(c);
      var (ds, c2) :- ReadDoubles(c1, k - 1);
      Ok(([d] + ds, c2))
  }

  function ReadRecords(c: Bytes, n: nat, width: nat): Result<(seq<Record>, Bytes)>
    decreases n
  {
    if n == 0 then Ok(([], c))
    else
      var (r, c1) :- ReadDoubles(c, width);
      var (rs, c2) :- ReadRecords(c1, n - 1, width);
      Ok(([r] + rs, c2))
  }

  /** get_map_from_bytes, called after the type byte has been read. */
  function GetMap(c: Bytes): Result<(MapRecord, Bytes)> {
    var (n, c1) := ReadInt(c, 2);
    var (k, c2) := ReadInt(c1, 2);
    var (l, c3) := ReadInt(c2, 2);
    var (walls, c4) :- ReadRecords(c3, n, WALL_DOUBLES);
    var (obstacles, c5) :- ReadRecords(c4, k, OBSTACLE_DOUBLES);
    var (borders, c6) :- ReadRecords(c5, l, POINT_DOUBLES);
    Ok((MapRecord(walls, obstacles, borders), c6))
  }

  lemma {:induction false} DoublesBytesFirst(ds: Record)
    requires ds != []
    ensures DoublesBytes(ds) == ds[0] + DoublesBytes(ds[1..])
  {
    var last := |ds| - 1;
    if last > 0 {
      DoublesBytesFirst(ds[..last]);
      assert ds[..last][1..] == ds[1..][..last - 1];
      assert ds[..last][0] == ds[0];
    } else {
      assert ds[..last] == [] && ds[1..] == [];
    }
  }

  lemma {:induction false} RecordsBytesFirst(rs: seq<Record>, width: nat)
    requires rs != [] && AllOfWidth(rs, width)
    ensures RecordsBytes(rs, width) == DoublesBytes(rs[0]) + RecordsBytes(rs[1..], width)
  {
    hide DoublesBytes;
    var last := |rs| - 1;
    if last > 0 {
      RecordsBytesFirst(rs[..last], width);
      assert rs[..last][1..] == rs[1..][..last - 1];
    } else {
      assert rs[..last] == [] && rs[1..] == [];
    }
  }

  lemma {:induction false} ReadDoublesBack(ds: Record, rest: Bytes)
    ensures ReadDoubles(DoublesBytes(ds) + rest, |ds|) == Ok((ds, rest))
  {
    if ds == [] {
      assert DoublesBytes(ds) + rest == rest;
    } else {
      DoublesBytesFirst(ds);
      var tail := DoublesBytes(ds[1..]) + rest;
      assert DoublesBytes(ds) + rest == ds[0] + tail;
      ReadBack(ds[0], tail);
      ReadDoublesBack(ds[1..], rest);
      assert ds == [ds[0]] + ds[1..];
    }
  }

  lemma {:induction false} ReadRecordsBack(rs: seq<Record>, width: nat, rest: Bytes)
    requires AllOfWidth(rs, width)
    ensures ReadRecords(RecordsBytes(rs, width) + rest, |rs|, width) == Ok((rs, rest))
  {
    hide DoublesBytes, ReadDoubles;
    if rs == [] {
      assert RecordsBytes(rs, width) + rest == rest;
    } else {
      RecordsBytesFirst(rs, width);
      var tail := RecordsBytes(rs[1..], width) + rest;
      assert RecordsBytes(rs, width) + rest == DoublesBytes(rs[0]) + tail;
      ReadDoublesBack(rs[0], tail);
      ReadRecordsBack(rs[1..], width, rest);
      assert rs == [rs[0]] + rs[1..];
    }
  }

  lemma MapSplits(n: nat, k: nat, l: nat, walls: Bytes, obstacles: Bytes, borders: Bytes, rest: Bytes)
    ensures (MapHeader(n, k, l) + walls + obstacles + borders)[1..] + rest
         == LittleEndian(n, 2) + (LittleEndian(k, 2) + (LittleEndian(l, 2) + (walls + (obstacles + (borders + rest)))))
  {
    hide LittleEndian;
    assert MapHeader(n, k, l)[1..] == LittleEndian(n, 2) + LittleEndian(k, 2) + LittleEndian(l, 2);
  }

  lemma GetMapSteps(c: Bytes, n: nat, c1: Bytes, k: nat, c2: Bytes, l: nat, c3: Bytes, r: MapRecord, c4: Bytes,
                    c5: Bytes, c6: Bytes)
    requires ReadInt(c, 2) == (n, c1) && ReadInt(c1, 2) == (k, c2) && ReadInt(c2, 2) == (l, c3)
    requires ReadRecords(c3, n, WALL_DOUBLES) == Ok((r.walls, c4))
    requires ReadRecords(c4, k, OBSTACLE_DOUBLES) == Ok((r.obstacles, c5))
    requires ReadRecords(c5, l, POINT_DOUBLES) == Ok((r.borders, c6))
    ensures GetMap(c) == Ok((r, c6))
  {
    hide ReadInt, ReadRecords;
  }

  /** The client recovers the map the host serialised, and consumes exactly the message. */
  lemma MapRoundTrip(r: MapRecord, rest: Bytes)
    requires r.WellFormed() && r.Fits()
    ensures GetMap(MapBytes(r)[1..] + rest) == Ok((r, rest))
  {
    hide LittleEndian, MapHeader, RecordsBytes, ReadInt, ReadRecords, GetMap;
    var n, k, l := |r.walls|, |r.obstacles|, |r.borders|;
    var walls, obstacles := RecordsBytes(r.walls, WALL_DOUBLES), RecordsBytes(r.obstacles, OBSTACLE_DOUBLES);
    var borders := RecordsBytes(r.borders, POINT_DOUBLES);
    var c5 := borders + rest;
    var c4 := obstacles + c5;
    var c3 := walls + c4;
    var c2 := LittleEndian(l, 2) + c3;
    var c1 := LittleEndian(k, 2) + c2;
    MapSplits(n, k, l, walls, obstacles, borders, rest);
    assert MapBytes(r)[1..] + rest == LittleEndian(n, 2) + c1;
    hide MapBytes;
    ReadIntBack(n, c1);
    ReadIntBack(k, c2);
    ReadIntBack(l, c3);
    ReadRecordsBack(r.walls, WALL_DOUBLES, c4);
    ReadRecordsBack(r.obstacles, OBSTACLE_DOUBLES, c5);
    ReadRecordsBack(r.borders, POINT_DOUBLES, rest);
    GetMapSteps(LittleEndian(n, 2) + c1, n, c1, k, c2, l, c3, r, c4, c5, rest);
  }

  // ---------- which byte strings are accepted ----------

  lemma {:induction false} ReadDoublesAcceptsIff(c: Bytes, k: nat)
    ensures ReadDoubles(c, k).Ok? <==> 8 * k <= |c|
    ensures 8 * k <= |c| ==> ReadDoubles(c, k).value.1 == c[8 * k..]
    decreases k
  {
    if k > 0 && 8 <= |c| {
      ReadDoublesAcceptsIff(c[8..], k - 1);
    }
  }

  lemma {:induction false} ReadRecordsAcceptsIff(c: Bytes, n: nat, width: nat)
    requires width > 0
    ensures ReadRecords(c, n, width).Ok? <==> 8 * width * n <= |c|
    ensures 8 * width * n <= |c| ==> ReadRecords(c, n, width).value.1 == c[8 * width * n..]
    decreases n
  {
    hide ReadDoubles;
    if n > 0 {
      RecordFits(n - 1, n, 8 * width);
      ReadDoublesAcceptsIff(c, width);
      if 8 * width <= |c| {
        ReadRecordsAcceptsIff(c[8 * width..], n - 1, width);
      } else {
        RecordFits(0, n, 8 * width);
      }
    }
  }

  /** For every byte string: the map reader succeeds exactly when the bytes the header promises are all there. */
  lemma GetMapAcceptsIff(c: Bytes)
    ensures var (n, c1) := ReadInt(c, 2);
            var (k, c2) := ReadInt(c1, 2);
            var (l, c3) := ReadInt(c2, 2);
            GetMap(c).Ok? <==> 64 * n + 24 * k + 16 * l <= |c3|
  {
    hide ReadInt, ReadRecords;
    var (n, c1) := ReadInt(c, 2);
    var (k, c2) := ReadInt(c1, 2);
    var (l, c3) := ReadInt(c2, 2);
    ReadRecordsAcceptsIff(c3, n, WALL_DOUBLES);
    if 64 * n <= |c3| {
      var c4 := c3[64 * n..];
      ReadRecordsAcceptsIff(c4, k, OBSTACLE_DOUBLES);
      if 24 * k <= |c4| {
        ReadRecordsAcceptsIff(c4[24 * k..], l, POINT_DOUBLES);
      }
    }
  }

  /** A player whose kills and deaths are cut off is still accepted: int.from_bytes takes what is left. */
  lemma ReadPlayerAcceptsIff(c: Bytes)
    ensures ReadPlayer(c).Ok? <==> PLAYER_BYTES - 4 <= |c|
    ensures ReadPlayer(c).Ok? ==> ReadPlayer(c).value.1 == c[if |c| < PLAYER_BYTES then |c| else PLAYER_BYTES..]
  {
    hide FromLittleEndian;
  }

  lemma ReadProjectileAcceptsIff(c: Bytes)
    ensures ReadProjectile(c).Ok? <==> PROJECTILE_BYTES <= |c|
    ensures ReadProjectile(c).Ok? ==> ReadProjectile(c).value.1 == c[PROJECTILE_BYTES..]
  {
    hide FromLittleEndian;
  }

  lemma {:induction false} ReadPlayersAcceptsIff(c: Bytes, n: nat)
    ensures ReadPlayers(c, n).Ok? <==> (n == 0 || PLAYER_BYTES * n - 4 <= |c|)
    ensures ReadPlayers(c, n).Ok? ==>
              ReadPlayers(c, n).value.1 == c[if |c| < PLAYER_BYTES * n then |c| else PLAYER_BYTES * n..]
    decreases n
  {
    hide ReadPlayer;
    if n > 0 {
      ReadPlayerAcceptsIff(c);
      if ReadPlayer(c).Ok? {
        ReadPlayersAcceptsIff(ReadPlayer(c).value.1, n - 1);
      }
    }
  }

  lemma {:induction false} ReadProjectilesAcceptsIff(c: Bytes, n: nat)
    ensures ReadProjectiles(c, n).Ok? <==> PROJECTILE_BYTES * n <= |c|
    ensures PROJECTILE_BYTES * n <= |c| ==> ReadProjectiles(c, n).value.1 == c[PROJECTILE_BYTES * n..]
    decreases n
  {
    hide ReadProjectile;
    if n > 0 {
      ReadProjectileAcceptsIff(c);
      if ReadProjectile(c).Ok? {
        ReadProjectilesAcceptsIff(c[PROJECTILE_BYTES..], n - 1);
      }
    }
  }

  /** For every byte string: a truncated game state is rejected, except that the last player's four score bytes
      may be missing when no projectile follows. */
  lemma GetGameStateAcceptsIff(c: Bytes)
    ensures var (n, c1) := ReadInt(c, 2);
            var (k, c2) := ReadInt(c1, 2);
            GetGameState(c).Ok?
            <==> (n == 0 || PLAYER_BYTES * n - 4 <= |c2|)
                 && (k == 0 || PLAYER_BYTES * n + PROJECTILE_BYTES * k <= |c2|)
  {
    hide ReadInt, ReadPlayers, ReadProjectiles;
    var (n, c1) := ReadInt(c, 2);
    var (k, c2) := ReadInt(c1, 2);
    ReadPlayersAcceptsIff(c2, n);
    if ReadPlayers(c2, n).Ok? {
      ReadProjectilesAcceptsIff(ReadPlayers(c2, n).value.1, k);
    }
  }
}
