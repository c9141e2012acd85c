/** MySQL packets inside Hera: an indicator byte 0, a 3-byte length, a sequence id, the payload. */
module MySQLPackets {
  import opened Bytes
  import opened MySQLInts
  import opened Readers
  import opened Seqs

  const MAX_PACKET_SIZE: nat := 0xff_ffff
  const HEADER_SIZE: nat := 4

  datatype Packet = Packet(cmd: int, serialized: bytes, payload: bytes, length: int, sqid: int, isMySQL: bool)

  const EMPTY := Packet(0, [], [], 0, 0, false)

  // Crash: the packet has no command byte to look at.
  datatype Error = WrongPacket | UnknownPacket | Eof | Crash

  /** sqid++ on a Go int. */
  function Next(sqid: int): (r: int)
    requires IsInt64(sqid)
    ensures IsInt64(r) && r % 256 == (sqid + 1) % 256
  {
    if sqid == TWO63 - 1 then -TWO63 else sqid + 1
  }

  /** The bytes of a packet. */
  function Wire(sqid: int, payload: bytes): bytes
  {
    [0] + Little(|payload|, 3) + Little(sqid, 1) + payload
  }

  /** What NewMySQLPacketFrom builds. */
  function PacketFrom(sqid: int, payload: bytes): Packet
  {
    if payload == [] then EMPTY else Packet(payload[0], Wire(sqid, payload), payload, |payload|, sqid, true)
  }

  method NewMySQLPacketFrom(sqid: int, payload: bytes) returns (p: Packet)
    requires IsInt64(sqid) && IsInt64(|payload|)
    ensures p == PacketFrom(sqid, payload)
  {
    if payload == [] {
      return EMPTY;
    }
    var serialized := new byte[HEADER_SIZE + |payload| + 1];
    serialized[0] := 0;
    var idx := WriteFixedLenInt(serialized, 3, |payload|, 1);
    assert serialized[..4] == [0] + Little(|payload|, 3);
    ghost var front := serialized[..4];
    idx := WriteFixedLenInt(serialized, 1, sqid, idx);
    assert serialized[..5] == front + Little(sqid, 1);
    ghost var header := serialized[..5];
    forall i | 0 <= i < |payload| {
      serialized[idx + i] := payload[i];
    }
    assert serialized[..5] == header && serialized[5..] == payload;
    assert serialized[..] == header + payload;
    return Packet(payload[0], serialized[..], payload, |payload|, sqid, true);
  }

  /** A payload cut into packets of the largest size, numbered from sqid. */
  function Split(payload: bytes, sqid: int): seq<Packet>
    requires IsInt64(sqid)
    decreases payload
  {
    if payload == [] then []
    else
      var k := if |payload| < MAX_PACKET_SIZE then |payload| else MAX_PACKET_SIZE;
      [PacketFrom(sqid, payload[..k])] + Split(payload[k..], Next(sqid))
  }

  /** The sequence id after count packets. */
  function After(sqid: int, count: nat): (r: int)
    requires IsInt64(sqid)
    ensures IsInt64(r) && r % 256 == (sqid + count) % 256
    decreases count
  {
    if count == 0 then sqid else Next(After(sqid, count - 1))
  }

  lemma SplitStep(packets: seq<Packet>, payload: bytes, pidx: nat, size: nat, sqid: int)
    requires IsInt64(sqid) && pidx < |payload|
    requires size == if |payload| - pidx < MAX_PACKET_SIZE then |payload| - pidx else MAX_PACKET_SIZE
    ensures packets + Split(payload[pidx..], sqid)
         == packets + [PacketFrom(sqid, payload[pidx..pidx + size])] + Split(payload[pidx + size..], Next(sqid))
  {
    var rest := payload[pidx..];
    assert rest[..size] == payload[pidx..pidx + size] && rest[size..] == payload[pidx + size..];
  }

  class Packager {
    var sqid: int

    constructor ()
      ensures sqid == 0
    {
      sqid := 0;
    }

    /** Cuts the payload; the error of the source cannot arise. */
    method WritePacket(payload: bytes) returns (packets: seq<Packet>, failed: bool)
      requires IsInt64(sqid) && IsInt64(|payload|)
      modifies this
      ensures !failed && packets == Split(payload, old(sqid))
      ensures sqid == After(old(sqid), |packets|)
    {
      var length, pidx := |payload|, 0;
      packets := [];
      assert payload[0..] == payload;
      while length > 0
        invariant 0 <= pidx <= |payload| && length == |payload| - pidx
        invariant sqid == After(old(sqid), |packets|)
        invariant packets + Split(payload[pidx..], sqid) == Split(payload, old(sqid))
      {
        var size := if length < MAX_PACKET_SIZE then length else MAX_PACKET_SIZE;
        SplitStep(packets, payload, pidx, size, sqid);
        var p := NewMySQLPacketFrom(sqid, payload[pidx..pidx + size]);
        packets := packets + [p];
        pidx := pidx + size;
        if pidx > |payload| {
          assert false;
          return packets, true;
        }
        length := length - size;
        sqid := Next(sqid);
      }
      return packets, false;
    }
  }

  function Zeros(n: nat): (z: bytes)
    ensures |z| == n
  {
    seq(n, _ => 0)
  }

  /** How much one header read may deliver. */
  predicate HeaderRead(stream: bytes, h: nat)
  {
    && h <= HEADER_SIZE
    && (if |stream| <= 1 then h == 0 else 0 < h <= |stream| - 1)
  }

  /** The packet at the front of a stream and what follows it, when the header read delivers h bytes. */
  function Parse(stream: bytes, h: nat): Result<(Packet, bytes), Error>
    requires HeaderRead(stream, h)
  {
    var kind := if stream == [] then 0 else stream[0];
    if kind != 0 then Err(if kind == 1 then WrongPacket else UnknownPacket)
    else
      var rest := if stream == [] then [] else stream[1 + h..];
      var header := (if stream == [] then [] else stream[1..1 + h]) + Zeros(HEADER_SIZE - h);
      var n := FixedValue(header[..3]);
      if |rest| < n then Err(Eof)
      else if n <= 0 then Err(Crash)
      else Ok((Packet(rest[0], [0] + header + rest[..n], rest[..n], n, FixedValue(header[3..]), true), rest[n..]))
  }

  /** NewMySQLPacket: the same answer as Parse, however the reader cuts the payload. */
  method NewMySQLPacket(reader: Reader) returns (r: Result<Packet, Error>, ghost h: nat)
    modifies reader
    ensures HeaderRead(old(reader.data), h)
    ensures match Parse(old(reader.data), h)
            case Err(e) => r == Err(e)
            case Ok((p, rest)) => r == Ok(p) && reader.data == rest
  {
    ghost var stream := reader.data;
    var got := reader.Read(1);
    var kind := if got == [] then 0 else got[0];
    ghost var first := got;
    if kind != 0 {
      return Err(if kind == 1 then WrongPacket else UnknownPacket), if |stream| <= 1 then 0 else 1;
    }
    got := reader.Read(HEADER_SIZE);
    h := |got|;
    ghost var rest := reader.data;
    HeaderSlices(stream, first, got, rest);
    var header := got + Zeros(HEADER_SIZE - |got|);
    var n, idx := ReadFixedLenInt(header, 3, 0);
    var sqid, _ := ReadFixedLenInt(header, 1, idx);
    assert header[0..3] == header[..3] && header[3..4] == header[3..];
    LengthBound(header[..3]);
    var payload, ok := ReadPayload(reader, n);
    if !ok {
      return Err(Eof), h;
    }
    if payload == [] {
      return Err(Crash), h;
    }
    return Ok(Packet(payload[0], [kind] + header + payload, payload, n, sqid, true)), h;
  }

  lemma HeaderSlices(stream: bytes, first: bytes, got: bytes, rest: bytes)
    requires stream == first + (got + rest) && |first| <= 1
    requires first == [] ==> stream == []
    ensures stream != [] ==> got == stream[1..1 + |got|] && rest == stream[1 + |got|..] && stream[0] == first[0]
    ensures stream == [] ==> got == [] && rest == []
  {
  }

  lemma LengthBound(b: bytes)
    requires |b| == 3
    ensures 0 <= FixedValue(b) < 0x100_0000
  {
    FromLittleBound(b);
    Pow256Values();
  }

  /** Reads exactly n bytes, or all there are. */
  method ReadPayload(reader: Reader, n: nat) returns (payload: bytes, ok: bool)
    modifies reader
    ensures ok <==> |old(reader.data)| >= n
    ensures ok ==> payload == old(reader.data)[..n] && reader.data == old(reader.data)[n..]
  {
    payload := [];
    while |payload| < n
      invariant |payload| <= n && payload + reader.data == old(reader.data)
      decreases n - |payload|
    {
      var got := reader.Read(n - |payload|);
      if got == [] {
        return payload, false;
      }
      payload := payload + got;
    }
    ok := true;
  }

  lemma WireParts(sqid: int, payload: bytes, after: bytes)
    ensures var stream := Wire(sqid, payload) + after;
            && |stream| == 5 + |payload| + |after| && stream[0] == 0
            && stream[1..5][..3] == Little(|payload|, 3)
            && stream[1..5][3..] == Little(sqid, 1)
            && stream[5..] == payload + after
  {
  }

  /** Behind a filled header a packet reads back, with its sequence id modulo 256, exactly when its length fits 3 bytes. */
  lemma PacketReadsBack(sqid: int, payload: bytes, after: bytes)
    requires IsInt64(sqid) && IsInt64(|payload|) && payload != []
    ensures var r := Parse(Wire(sqid, payload) + after, HEADER_SIZE);
            && (|payload| <= MAX_PACKET_SIZE ==> r == Ok((Parsed(sqid, payload), after)))
            && (|payload| > MAX_PACKET_SIZE ==> r.Err? || r.value.0.payload != payload)
  {
    var stream := Wire(sqid, payload) + after;
    WireParts(sqid, payload, after);
    Pow256Values();
    FixedReadsBack(|payload|, 3);
    FixedReadsBack(sqid, 1);
    assert stream[1..5] + Zeros(0) == stream[1..5] == Little(|payload|, 3) + Little(sqid, 1);
    if |payload| <= MAX_PACKET_SIZE {
      assert (payload + after)[..|payload|] == payload && (payload + after)[|payload|..] == after;
      assert [0] + stream[1..5] + payload == Wire(sqid, payload);
    }
  }

  /** The packet as read: only the low byte of the sequence id travels. */
  function Parsed(sqid: int, payload: bytes): Packet
    requires payload != []
  {
    Packet(payload[0], Wire(sqid, payload), payload, |payload|, sqid % 256, true)
  }

  /** Reads packets, headers filled, until the stream ends. */
  function ReadAll(stream: bytes): Result<seq<Packet>, Error>
    decreases stream
  {
    if stream == [] then Ok([])
    else
      match Parse(stream, if |stream| - 1 < HEADER_SIZE then |stream| - 1 else HEADER_SIZE)
      case Err(e) => Err(e)
      case Ok((p, rest)) =>
        if |rest| >= |stream| then Err(Crash)
        else match ReadAll(rest)
          case Err(e) => Err(e)
          case Ok(ps) => Ok([p] + ps)
  }

  function Stream(packets: seq<Packet>): bytes
  {
    if packets == [] then [] else packets[0].serialized + Stream(packets[1..])
  }

  function Payload(packets: seq<Packet>): bytes
  {
    if packets == [] then [] else packets[0].payload + Payload(packets[1..])
  }

  /** One packet in front of a readable stream is read first. */
  lemma ReadAllStep(sqid: int, payload: bytes, after: bytes)
    requires IsInt64(sqid) && 0 < |payload| <= MAX_PACKET_SIZE && ReadAll(after).Ok?
    ensures ReadAll(Wire(sqid, payload) + after) == Ok([Parsed(sqid, payload)] + ReadAll(after).value)
  {
    PacketReadsBack(sqid, payload, after);
  }

  ghost predicate CountsUp(packets: seq<Packet>, sqid: int)
  {
    forall i :: 0 <= i < |packets| ==> packets[i].sqid == (sqid + i) % 256
  }

  lemma CountsUpStep(p: Packet, ps: seq<Packet>, sqid: int)
    requires IsInt64(sqid) && p.sqid == sqid % 256 && CountsUp(ps, Next(sqid))
    ensures CountsUp([p] + ps, sqid)
  {
    forall i | 0 < i < |ps| + 1
      ensures ([p] + ps)[i].sqid == (sqid + i) % 256
    {
      SameLowByte(Next(sqid), sqid + 1, i - 1);
    }
  }

  lemma SameLowByte(a: int, b: int, k: int)
    requires a % 256 == b % 256
    ensures (a + k) % 256 == (b + k) % 256
  {
  }

  /**
   Splitting and reading back: all packets are read, their payloads concatenate to the payload, there are
   as many as the size needs, and the sequence ids count up modulo 256.
   */
  lemma {:induction false} SplitReadsBack(payload: bytes, sqid: int)
    requires IsInt64(sqid)
    ensures var r := ReadAll(Stream(Split(payload, sqid)));
            && r.Ok? && Payload(r.value) == payload && CountsUp(r.value, sqid)
            && |r.value| == |Split(payload, sqid)| == (|payload| + MAX_PACKET_SIZE - 1) / MAX_PACKET_SIZE
    decreases payload
  {
    if payload != [] {
      var k := if |payload| < MAX_PACKET_SIZE then |payload| else MAX_PACKET_SIZE;
      var chunk, rest := payload[..k], payload[k..];
      SplitReadsBack(rest, Next(sqid));
      var after := Stream(Split(rest, Next(sqid)));
      assert Split(payload, sqid)[1..] == Split(rest, Next(sqid));
      ReadAllStep(sqid, chunk, after);
      CountsUpStep(Parsed(sqid, chunk), ReadAll(after).value, sqid);
      assert ([Parsed(sqid, chunk)] + ReadAll(after).value)[1..] == ReadAll(after).value;
      assert chunk + rest == payload;
    }
  }

  /** The bytes on the wire: 0, the length in three bytes, low byte first, the low byte of the sequence id, the payload. */
  lemma WireBytes(sqid: int, payload: bytes)
    requires |payload| <= MAX_PACKET_SIZE
    ensures var w := Wire(sqid, payload);
            && |w| == 5 + |payload| && w[0] == 0 && w[4] == sqid % 256 && w[5..] == payload
            && w[1] as int + w[2] as int * 256 + w[3] as int * 0x1_0000 == |payload|
  {
    var n := |payload|;
    LowBytes(n);
    LowBytes(sqid);
    TopByte(n, 0x1_0000);
    WireParts(sqid, payload, []);
    assert Wire(sqid, payload) + [] == Wire(sqid, payload);
    var w := Wire(sqid, payload);
    assert w[1..5][..3] == [w[1], w[2], w[3]] && w[1..5][3..] == [w[4]];
    assert n / 256 == n / 0x1_0000 * 256 + n / 256 % 256;
  }
}
