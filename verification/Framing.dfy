/** Length-prefixed frames on a byte stream: what the server writes and the client reads
    (Server/server_send.c, Client/client.py), and what clients write and the server reads (Server/server_receive.c). */
module Framing {
  import opened Bytes
  import opened Wire
  import opened ClientReader

  const LIMIT32 := 0x1_0000_0000

  type Payload = Bytes

  predicate Sendable(p: Payload) {
    |p| < LIMIT32
  }

  predicate AllSendable(ms: seq<Payload>) {
    forall i :: 0 <= i < |ms| ==> Sendable(ms[i])
  }

  /** Two sends: the 4-byte size, then the data. */
  function Frame(p: Payload): Bytes {
    LittleEndian(|p|, 4) + p
  }

  function Stream(ms: seq<Payload>): Bytes {
    if ms == [] then [] else Frame(ms[0]) + Stream(ms[1..])
  }

  /** The complete messages at the front of a stream. */
  function Decode(s: Bytes): (ms: seq<Payload>)
    decreases |s|
  {
    if |s| < 4 then []
    else
      var size := FromLittleEndian(s[..4]);
      if |s| - 4 < size then [] else [s[4..4 + size]] + Decode(s[4 + size..])
  }

  lemma SizeRoundTrip(n: nat)
    requires n < LIMIT32
    ensures FromLittleEndian(LittleEndian(n, 4)) == n
  {
    LittleEndianRoundTrip(n, 4);
    assert Pow256(4) == LIMIT32 by {
      assert Pow256(1) == 256 * Pow256(0);
      assert Pow256(2) == 256 * Pow256(1);
      assert Pow256(3) == 256 * Pow256(2);
    }
  }

  lemma FrameParts(p: Payload, rest: Bytes)
    requires Sendable(p)
    ensures var s := Frame(p) + rest;
            |s| == 4 + |p| + |rest| && FromLittleEndian(s[..4]) == |p| && s[4..4 + |p|] == p && s[4 + |p|..] == rest
  {
    SizeRoundTrip(|p|);
    assert (Frame(p) + rest)[..4] == LittleEndian(|p|, 4);
    hide LittleEndian, FromLittleEndian;
  }

  /** Decoding what follows a frame. */
  lemma DecodeFrame(p: Payload, rest: Bytes)
    requires Sendable(p)
    ensures Decode(Frame(p) + rest) == [p] + Decode(rest)
  {
    FrameParts(p, rest);
    hide Frame;
  }

  /** Framing loses nothing: the stream decodes to exactly the messages sent. */
  lemma {:induction false} FramingRoundTrip(ms: seq<Payload>)
    requires AllSendable(ms)
    ensures Decode(Stream(ms)) == ms
  {
    if ms != [] {
      FramingRoundTrip(ms[1..]);
      DecodeFrame(ms[0], Stream(ms[1..]));
      assert ms == [ms[0]] + ms[1..];
    }
  }

  /** Wherever the stream is cut, what decodes is a prefix of the messages sent. */
  lemma {:induction false} PrefixDecodesToPrefix(ms: seq<Payload>, cut: Bytes)
    requires AllSendable(ms) && cut <= Stream(ms)
    ensures Decode(cut) <= ms
  {
    if ms != [] {
      hide LittleEndian, FromLittleEndian;
      var p, rest := ms[0], Stream(ms[1..]);
      var whole := |Frame(p)|;
      FrameParts(p, rest);
      assert Stream(ms) == Frame(p) + rest;
      if |cut| < whole {
        if 4 <= |cut| {
          assert cut[..4] == Stream(ms)[..4];
        }
      } else {
        var tail := cut[whole..];
        assert cut == Frame(p) + tail by {
          assert cut[..whole] == Stream(ms)[..whole] == Frame(p);
        }
        assert tail == Stream(ms)[whole..|cut|];
        assert tail <= rest;
        PrefixDecodesToPrefix(ms[1..], tail);
        DecodeFrame(p, tail);
        assert ms == [p] + ms[1..];
      }
    }
  }

  /** What is left of a frame that was cut short does not decode. */
  lemma TailDecodesToNothing(p: Payload, tail: Bytes)
    requires Sendable(p) && tail < Frame(p)
    ensures Decode(tail) == []
  {
    FrameParts(p, []);
    assert Frame(p) + [] == Frame(p);
    if 4 <= |tail| {
      assert tail[..4] == Frame(p)[..4];
    }
    hide Frame, FromLittleEndian;
  }

  lemma {:induction false} DecodeStreamAndTail(ms: seq<Payload>, p: Payload, tail: Bytes)
    requires AllSendable(ms) && Sendable(p) && tail < Frame(p)
    ensures Decode(Stream(ms) + tail) == ms
  {
    if ms == [] {
      assert Stream(ms) + tail == tail;
      TailDecodesToNothing(p, tail);
    } else {
      DecodeStreamAndTail(ms[1..], p, tail);
      assert Stream(ms) + tail == Frame(ms[0]) + (Stream(ms[1..]) + tail);
      DecodeFrame(ms[0], Stream(ms[1..]) + tail);
      assert ms == [ms[0]] + ms[1..];
    }
  }

  /** Wherever a stream that ends in the middle of a frame is cut. */
  lemma CutsDecodeToPrefixes(ms: seq<Payload>, p: Payload, tail: Bytes, cut: Bytes)
    requires AllSendable(ms) && Sendable(p) && tail < Frame(p) && cut <= Stream(ms) + tail
    ensures Decode(cut) <= ms
    ensures cut == Stream(ms) + tail ==> Decode(cut) == ms
  {
    hide Decode, Stream, Frame;
    if |Stream(ms)| <= |cut| {
      var rest := cut[|Stream(ms)|..];
      assert cut == Stream(ms) + rest by {
        assert cut[..|Stream(ms)|] == (Stream(ms) + tail)[..|Stream(ms)|] == Stream(ms);
      }
      assert rest <= tail by {
        assert rest == (Stream(ms) + tail)[|Stream(ms)|..|cut|];
      }
      DecodeStreamAndTail(ms, p, rest);
    } else {
      assert cut <= Stream(ms) by {
        assert cut == (Stream(ms) + tail)[..|cut|];
      }
      PrefixDecodesToPrefix(ms, cut);
    }
  }

  /** The receiving end of a connection. */
  class Socket {
    var incoming: Bytes

    /** recv(limit): between one and `limit` of the bytes still to come, however the network splits them; nothing once
        the connection has ended. */
    method Recv(limit: nat) returns (chunk: Bytes)
      requires 0 < limit
      modifies this`incoming
      ensures |chunk| <= limit && old(incoming) == chunk + incoming
      ensures chunk == [] <==> old(incoming) == []
    {
      if incoming == [] {
        return [];
      }
      var n :| 0 < n <= limit && n <= |incoming|;
      chunk := incoming[..n];
      incoming := incoming[n..];
    }

    /** recv without waiting: it fails if nothing has arrived yet, though the connection goes on. */
    method RecvNow(limit: nat) returns (chunk: Bytes, failed: bool)
      requires 0 < limit
      modifies this`incoming
      ensures |chunk| <= limit && old(incoming) == chunk + incoming
      ensures failed ==> chunk == [] && old(incoming) != []
      ensures !failed && chunk == [] ==> old(incoming) == []
    {
      failed :| failed ==> incoming != [];
      if failed {
        chunk := [];
      } else {
        chunk := Recv(limit);
      }
    }

    /** recv with MSG_WAITALL: everything asked for, or less when the stream ends. */
    method RecvAll(limit: nat) returns (chunk: Bytes)
      modifies this`incoming
      ensures old(incoming) == chunk + incoming
      ensures |chunk| == if limit <= |old(incoming)| then limit else |old(incoming)|
    {
      var n := if limit <= |incoming| then limit else |incoming|;
      chunk := incoming[..n];
      incoming := incoming[n..];
    }
  }

  /** The loop that collects a payload, stopped after `rounds` reads. It ends by itself, after at most `size` reads,
      exactly when the promised bytes arrive; when the connection ends before, it goes on for ever. */
  method ReceivePayload(socket: Socket, size: nat, rounds: nat) returns (payload: Payload, ended: bool)
    modifies socket
    ensures old(socket.incoming) == payload + socket.incoming
    ensures ended ==> |payload| == size
    ensures size <= |old(socket.incoming)| && size <= rounds ==> ended
    ensures |old(socket.incoming)| < size ==> !ended
  {
    payload := [];
    var round := 0;
    while |payload| < size && round < rounds
      invariant |payload| <= size && payload + socket.incoming == old(socket.incoming)
      invariant round <= rounds && (round <= |payload| || socket.incoming == [])
    {
      var chunk := socket.Recv(size - |payload|);
      payload := payload + chunk;
      round := round + 1;
    }
    ended := |payload| == size;
  }

  lemma DecodeSplits(before: Bytes, payload: Payload, rest: Bytes)
    requires 4 <= |before| && |payload| == FromLittleEndian(before[..4]) && before == before[..4] + (payload + rest)
    ensures Decode(before) == [payload] + Decode(rest)
  {
    hide FromLittleEndian;
    assert before[4..] == payload + rest;
    assert before[4..4 + |payload|] == payload && before[4 + |payload|..] == rest;
  }

  /** The reading part of the client's receive_message. The header is read without waiting, so it may be missing (and
      the client tries again later) or come short; the size is that of the bytes that came. The payload may come in any
      number of pieces. With a whole header the message is the next one of the stream. */
  method ReceiveMessage(socket: Socket, rounds: nat)
    returns (failed: bool, header: Bytes, payload: Payload, ended: bool)
    modifies socket
    ensures old(socket.incoming) == header + payload + socket.incoming && |header| <= 4
    ensures failed ==> header == payload == [] && !ended && old(socket.incoming) != []
    ensures !failed && header == [] ==> old(socket.incoming) == [] && ended
    ensures var size, left := FromLittleEndian(header), |old(socket.incoming)| - |header|;
            !failed ==>
              && (ended ==> |payload| == size)
              && (size <= left && size <= rounds ==> ended)
              && (left < size ==> !ended)
    ensures ended && |header| == 4 ==> [payload] + Decode(socket.incoming) == Decode(old(socket.incoming))
  {
    hide FromLittleEndian, Decode;
    ghost var before := socket.incoming;
    payload, ended := [], false;
    header, failed := socket.RecvNow(4);
    if failed {
      return;
    }
    NoBytesNoSize();
    payload, ended := ReceivePayload(socket, FromLittleEndian(header), rounds);
    if ended && |header| == 4 {
      assert header == before[..4];
      DecodeSplits(before, payload, socket.incoming);
    }
  }

  lemma NoBytesNoSize()
    ensures FromLittleEndian([]) == 0
  {}

  /** Part of a header is taken for the whole: if the first byte of this frame comes alone, the client reads the next
      three as the message, and the message itself is lost. */
  lemma ShortHeader()
    ensures Decode([3, 0, 0, 0, 14, 1, 0]) == [[14, 1, 0]]
    ensures var frame: Bytes := [3, 0, 0, 0, 14, 1, 0];
            FromLittleEndian([3]) == 3 && frame == [3] + [0, 0, 0] + [14, 1, 0]
    ensures [[0, 0, 0]] + Decode([14, 1, 0]) == [[0, 0, 0]]
  {
    SmallSize(3);
    assert [3, 0, 0, 0, 14, 1, 0] == Frame([14, 1, 0]) + [];
    DecodeFrame([14, 1, 0], []);
    assert FromLittleEndian([3]) == 3 + 256 * FromLittleEndian([]);
  }

  /** The receive loop of a server thread, until the connection ends: it queues exactly the complete messages. */
  method ReceiveLoop(socket: Socket) returns (pushed: seq<Payload>)
    modifies socket
    ensures pushed == Decode(old(socket.incoming))
  {
    hide FromLittleEndian;
    pushed := [];
    while true
      invariant pushed + Decode(socket.incoming) == Decode(old(socket.incoming))
      decreases |socket.incoming|
    {
      ghost var before := socket.incoming;
      var header := socket.RecvAll(4);
      if |header| != 4 {
        assert Decode(before) == [];
        return;
      }
      assert header == before[..4] && socket.incoming == before[4..];
      var size := FromLittleEndian(header);
      var data := socket.RecvAll(size);
      if |data| != size {
        assert Decode(before) == [];
        return;
      }
      assert data == before[4..4 + size] && socket.incoming == before[4 + size..];
      pushed := pushed + [data];
    }
  }

  // ---------- client commands ----------

  datatype Command =
    | Spawn
    | Shoot
    | ChangeOrientation(angle: Float)
    | ChangeMovement(velocity: Vec)
    | Ping(number: nat)
    | Unknown

  const SPAWN: byte := 10
  const SHOOT: byte := 11
  const CHANGE_ORIENTATION: byte := 12
  const CHANGE_MOVEMENT: byte := 13
  const PING: byte := 14

  datatype Encoded = Sent(bytes: Bytes) | OverflowError

  /** The bytes the client sends, size prefix included. The ping counter is not bounded, its two bytes are. */
  function Encode(c: Command): Encoded
    requires !c.Unknown?
  {
    match c
    case Spawn => Sent([1, 0, 0, 0, SPAWN])
    case Shoot => Sent([1, 0, 0, 0, SHOOT])
    case ChangeOrientation(angle) => Sent([5, 0, 0, 0, CHANGE_ORIENTATION] + angle)
    case ChangeMovement(v) => Sent([17, 0, 0, 0, CHANGE_MOVEMENT] + v.x + v.y)
    case Ping(n) => if n < LIMIT16 then Sent([3, 0, 0, 0, PING] + LittleEndian(n, 2)) else OverflowError
  }

  datatype Parsed = Parsed(command: Command) | PastTheEnd

  /** handleMessage reads its arguments at fixed offsets without looking at the size; PastTheEnd marks the
      payloads for which that leaves the buffer. */
  function Parse(p: Payload): Parsed {
    if |p| < 1 then PastTheEnd
    else if p[0] == SPAWN then Parsed(Spawn)
    else if p[0] == SHOOT then Parsed(Shoot)
    else if p[0] == CHANGE_ORIENTATION then
      if |p| < 5 then PastTheEnd else Parsed(ChangeOrientation(p[1..5]))
    else if p[0] == CHANGE_MOVEMENT then
      if |p| < 17 then PastTheEnd else Parsed(ChangeMovement(Vec(p[1..9], p[9..17])))
    else if p[0] == PING then
      if |p| < 3 then PastTheEnd else Parsed(Ping(FromLittleEndian(p[1..3])))
    else Parsed(Unknown)
  }

  lemma SmallSize(n: byte)
    ensures LittleEndian(n as nat, 4) == [n, 0, 0, 0]
  {
    assert LittleEndian(0, 3) == [0, 0, 0] by {
      assert LittleEndian(0, 1) == [0] + LittleEndian(0, 0);
      assert LittleEndian(0, 2) == [0] + LittleEndian(0, 1);
    }
  }

  /** What the client sends is one frame whose first byte names the command, and its payload parses on the host to the
      same command and arguments. */
  lemma CommandRoundTrip(c: Command, rest: Bytes)
    requires !c.Unknown?
    ensures Encode(c).Sent? <==> (c.Ping? ==> c.number < LIMIT16)
    ensures Encode(c).Sent? ==>
              |Encode(c).bytes| > 4
              && Encode(c).bytes[4] == if c.Spawn? then 10 else if c.Shoot? then 11 else if c.ChangeOrientation? then 12
                                       else if c.ChangeMovement? then 13 else 14
    ensures Encode(c).Sent? ==>
              var d := Decode(Encode(c).bytes + rest);
              d != [] && Parse(d[0]) == Parsed(c) && d[1..] == Decode(rest)
  {
    if Encode(c).Sent? {
      var payload := Encode(c).bytes[4..];
      SmallSize(1);
      SmallSize(3);
      SmallSize(5);
      SmallSize(17);
      assert Encode(c).bytes == Frame(payload);
      ParsePayload(c, payload);
      DecodeFrame(payload, rest);
    }
  }

  lemma ParseOrientation(angle: Float)
    ensures Parse([CHANGE_ORIENTATION] + angle) == Parsed(ChangeOrientation(angle))
  {
    var p := [CHANGE_ORIENTATION] + angle;
    assert p[0] == CHANGE_ORIENTATION && |p| == 5 && p[1..5] == angle;
  }

  lemma ParseMovement(v: Vec)
    ensures Parse([CHANGE_MOVEMENT] + (v.x + v.y)) == Parsed(ChangeMovement(v))
  {
    var p := [CHANGE_MOVEMENT] + (v.x + v.y);
    assert p[0] == CHANGE_MOVEMENT && |p| == 17 && p[1..9] == v.x && p[9..17] == v.y;
  }

  lemma ParsePing(n: nat)
    requires n < LIMIT16
    ensures Parse([PING] + LittleEndian(n, 2)) == Parsed(Ping(n))
  {
    hide LittleEndian, FromLittleEndian;
    var p := [PING] + LittleEndian(n, 2);
    ReadIntBack(n, []);
    assert LittleEndian(n, 2) + [] == LittleEndian(n, 2);
    assert p[0] == PING && |p| == 3 && p[1..3] == LittleEndian(n, 2);
    assert LittleEndian(n, 2)[..2] == LittleEndian(n, 2);
  }

  lemma ParsePayload(c: Command, payload: Payload)
    requires !c.Unknown? && Encode(c).Sent? && payload == Encode(c).bytes[4..]
    ensures Parse(payload) == Parsed(c)
  {
    match c
    case Spawn =>
    case Shoot =>
    case ChangeOrientation(angle) =>
      ParseOrientation(angle);
      assert payload == [CHANGE_ORIENTATION] + angle;
    case ChangeMovement(v) =>
      ParseMovement(v);
      assert payload == [CHANGE_MOVEMENT] + (v.x + v.y);
    case Ping(n) =>
      ParsePing(n);
      assert payload == [PING] + LittleEndian(n, 2);
  }
}
