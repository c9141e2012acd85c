/** The command netstring: an indicator byte, a decimal length, and a decimal command before the payload. */
module Netstrings {
  import opened Bytes
  import opened Readers
  import opened Seqs

  const INDICATOR: byte := 1

  datatype Packet = Packet(cmd: int, serialized: bytes, payload: bytes)

  datatype Error = Eof | WrongPacket | UnknownPacket | CutShort | BadLength | BadCommand

  // Reading the length: its value and the bytes it takes with its colon.
  datatype Length = Length(value: nat, width: nat)

  function ReadLength(rest: bytes, value: nat, width: nat): (r: Result<Length, Error>)
    ensures r.Ok? ==> width < r.value.width <= width + |rest|
    decreases rest
  {
    if rest == [] then Err(CutShort)
    else if rest[0] == COLON then Ok(Length(value, width + 1))
    else if !IsDigit(rest[0]) then Err(BadLength)
    else ReadLength(rest[1..], value * 10 + (rest[0] as int - ZERO as int), width + 1)
  }

  /** Reading the command up to a space or the end; what follows is the payload. */
  function ReadCommand(rest: bytes, cmd: nat): (r: Result<(nat, bytes), Error>)
    ensures r.Ok? ==> |r.value.1| <= |rest| && r.value.1 == rest[|rest| - |r.value.1|..]
    decreases rest
  {
    if rest == [] then Ok((cmd, []))
    else if rest[0] == SPACE then Ok((cmd, rest[1..]))
    else if !IsDigit(rest[0]) then Err(BadCommand)
    else ReadCommand(rest[1..], cmd * 10 + (rest[0] as int - ZERO as int))
  }

  /** The command and payload in the n bytes from start on. */
  function BodyAt(stream: bytes, start: nat, n: nat): Result<(nat, bytes), Error>
  {
    if |stream| < start + n then Err(CutShort) else ReadCommand(stream[start..start + n], 0)
  }

  /** The command and payload of the netstring at the front of a stream. */
  function Parse(stream: bytes): Result<(nat, bytes), Error>
  {
    if stream == [] then Err(Eof)
    else if stream[0] != INDICATOR then Err(if stream[0] == 0 then WrongPacket else UnknownPacket)
    else match ReadLength(stream[1..], 0, 0)
      case Err(e) => Err(e)
      case Ok(Length(n, width)) => BodyAt(stream, width + 1, n)
  }

  /** A packet as expected, serialized as in the stream except for the last byte, which may not be read. */
  ghost predicate Reads(r: Result<Packet, Error>, expected: Result<(nat, bytes), Error>, stream: bytes)
  {
    match expected
    case Err(e) => r == Err(e)
    case Ok((cmd, payload)) =>
      && r.Ok? && r.value.cmd == cmd && r.value.payload == payload
      && |r.value.serialized| > 0
      && r.value.serialized[..|r.value.serialized| - 1] <= stream
  }

  /** NewNetstring: the same answer as Parse, however the reader cuts the data. */
  method NewNetstring(reader: Reader) returns (r: Result<Packet, Error>)
    modifies reader
    ensures Reads(r, Parse(old(reader.data)), old(reader.data))
  {
    var kind := reader.Read(1);
    if kind == [] {
      return Err(Eof);
    }
    if kind[0] != INDICATOR {
      return Err(if kind[0] == 0 then WrongPacket else UnknownPacket);
    }
    assert kind == [INDICATOR] && old(reader.data) == [INDICATOR] + reader.data;
    r := ReadAfterIndicator(reader);
  }

  method ReadAfterIndicator(reader: Reader) returns (r: Result<Packet, Error>)
    modifies reader
    ensures Reads(r, Parse([INDICATOR] + old(reader.data)), [INDICATOR] + old(reader.data))
  {
    ghost var stream := [INDICATOR] + reader.data;
    assert stream[1..] == reader.data;
    var length, buff := ReadLengthFrom(reader);
    if length.Err? {
      return Err(length.error);
    }
    ParseWithLength(stream, length.value, |buff|);
    Regroup([INDICATOR], buff, reader.data);
    r := ReadBody(reader, [INDICATOR] + buff, length.value);
  }

  /** The rest of a packet whose front says that n bytes follow. */
  method ReadBody(reader: Reader, front: bytes, n: nat) returns (r: Result<Packet, Error>)
    requires front != []
    modifies reader
    ensures Reads(r, BodyAt(front + old(reader.data), |front|, n), front + old(reader.data))
  {
    ghost var stream := front + reader.data;
    var totalLen := |front| + n;
    var serialized, ok := ReadRest(reader, front, totalLen);
    if !ok {
      return Err(CutShort);
    }
    SameSlice(serialized, stream, |front|, totalLen);
    var body := ReadCommandFrom(serialized[|front|..totalLen]);
    if body.Err? {
      return Err(body.error);
    }
    return Ok(Packet(body.value.0, serialized, body.value.1));
  }

  lemma SameSlice(a: bytes, b: bytes, from: nat, to: nat)
    requires from <= to <= |a| && to <= |b| && a[..to] == b[..to]
    ensures a[from..to] == b[from..to]
  {
    assert a[from..to] == a[..to][from..] && b[from..to] == b[..to][from..];
  }

  lemma ParseWithLength(stream: bytes, n: nat, width: nat)
    requires stream != [] && stream[0] == INDICATOR
    requires ReadLength(stream[1..], 0, 0) == Ok(Length(n, width))
    ensures Parse(stream) == BodyAt(stream, width + 1, n)
  {
  }

  method ReadCommandFrom(body: bytes) returns (r: Result<(nat, bytes), Error>)
    ensures r == ReadCommand(body, 0)
  {
    var cmd, next := 0, 0;
    assert body[0..] == body;
    while next < |body|
      invariant 0 <= next <= |body| && 0 <= cmd
      invariant ReadCommand(body, 0) == ReadCommand(body[next..], cmd)
    {
      assert body[next..][1..] == body[next + 1..];
      if body[next] == SPACE {
        next := next + 1;
        return Ok((cmd, body[next..]));
      }
      if !IsDigit(body[next]) {
        return Err(BadCommand);
      }
      cmd := cmd * 10 + (body[next] as int - ZERO as int);
      next := next + 1;
    }
    return Ok((cmd, body[next..]));
  }

  method ReadLengthFrom(reader: Reader) returns (r: Result<nat, Error>, buff: bytes)
    modifies reader
    ensures match ReadLength(old(reader.data), 0, 0)
            case Err(e) => r == Err(e)
            case Ok(Length(n, width)) => r == Ok(n) && |buff| == width && buff + reader.data == old(reader.data)
  {
    var length := 0;
    buff := [];
    while true
      invariant buff + reader.data == old(reader.data) && 0 <= length
      invariant ReadLength(old(reader.data), 0, 0) == ReadLength(reader.data, length, |buff|)
      decreases |reader.data|
    {
      ghost var rest := reader.data;
      var tmp := reader.Read(1);
      if tmp == [] {
        return Err(CutShort), buff;
      }
      assert reader.data == rest[1..];
      buff := buff + tmp;
      if tmp[0] == COLON {
        return Ok(length), buff;
      }
      if !IsDigit(tmp[0]) {
        return Err(BadLength), buff;
      }
      length := length * 10 + (tmp[0] as int - ZERO as int);
    }
  }

  /** Reads until totalLen bytes are there; the buffer has one more, the comma if it was read along. */
  method ReadRest(reader: Reader, front: bytes, totalLen: nat) returns (serialized: bytes, ok: bool)
    requires |front| <= totalLen
    modifies reader
    ensures ok <==> |front| + |old(reader.data)| >= totalLen
    ensures ok ==> |serialized| == totalLen + 1 && serialized[..totalLen] == (front + old(reader.data))[..totalLen]
  {
    serialized := front;
    while |serialized| < totalLen
      invariant |front| <= |serialized| <= totalLen + 1
      invariant serialized + reader.data == front + old(reader.data)
      decreases totalLen - |serialized|
    {
      var got := reader.Read(totalLen + 1 - |serialized|);
      if got == [] {
        return serialized, false;
      }
      serialized := serialized + got;
    }
    ok := true;
    assert serialized[..totalLen] == (serialized + reader.data)[..totalLen];
    if |serialized| == totalLen {
      serialized := serialized + [0];
    }
  }

  /** Signed decimal notation. */
  function Printed(n: int): (r: bytes)
    ensures r != []
  {
    if n < 0 then [45] + Decimal(-n) else Decimal(n)
  }

  /** Command and payload; a command without payload has no space. */
  function Body(cmd: int, payload: bytes): bytes
  {
    if payload == [] then Printed(cmd) else Printed(cmd) + [SPACE] + payload
  }

  /** NewNetstringFrom, with the payload taken as a slice of the serialized packet. */
  function NetstringFrom(cmd: int, payload: bytes): (p: Packet)
    ensures p.cmd == cmd && p.payload == payload
  {
    var body := Body(cmd, payload);
    var serialized := Framed(Decimal(|body|), body) + [COMMA];
    var totalLen := |serialized| - 1;
    Packet(cmd, serialized, if payload == [] then [] else serialized[totalLen - |payload|..totalLen])
  }

  lemma {:induction false} LengthReadsBack(digits: bytes, rest: bytes, value: nat, width: nat)
    requires forall i :: 0 <= i < |digits| ==> IsDigit(digits[i])
    ensures ReadLength(digits + [COLON] + rest, value, width) == Ok(Length(Accumulate(value, digits), width + |digits| + 1))
    decreases digits
  {
    var s := digits + [COLON] + rest;
    if digits == [] {
      assert s[0] == COLON;
    } else {
      assert s[0] == digits[0] && IsDigit(digits[0]);
      assert s[1..] == digits[1..] + [COLON] + rest;
      LengthReadsBack(digits[1..], rest, value * 10 + (digits[0] as int - ZERO as int), width + 1);
    }
  }

  lemma {:induction false} CommandReadsBack(digits: bytes, rest: bytes, cmd: nat)
    requires forall i :: 0 <= i < |digits| ==> IsDigit(digits[i])
    ensures ReadCommand(digits, cmd) == Ok((Accumulate(cmd, digits), []))
    ensures ReadCommand(digits + [SPACE] + rest, cmd) == Ok((Accumulate(cmd, digits), rest))
    decreases digits
  {
    var s := digits + [SPACE] + rest;
    if digits == [] {
      assert s[0] == SPACE && s[1..] == rest;
    } else {
      assert s[0] == digits[0] && IsDigit(digits[0]);
      assert s[1..] == digits[1..] + [SPACE] + rest;
      CommandReadsBack(digits[1..], rest, cmd * 10 + (digits[0] as int - ZERO as int));
    }
  }

  /** The bytes around a body, with the decimal length d. */
  function Framed(d: bytes, body: bytes): bytes
  {
    [INDICATOR] + d + [COLON] + body
  }

  lemma FramedParts(d: bytes, body: bytes, after: bytes)
    ensures var stream := Framed(d, body) + after;
            && |stream| == 2 + |d| + |body| + |after| && stream[0] == INDICATOR
            && stream[1..] == d + [COLON] + (body + after)
            && stream[|d| + 2..|d| + 2 + |body|] == body
  {
    var stream := Framed(d, body) + after;
    assert stream == [INDICATOR] + (d + [COLON] + (body + after));
    assert stream == ([INDICATOR] + d + [COLON]) + body + after;
  }

  /** Framing a body and parsing the stream it starts reads that body's command. */
  lemma FrameReadsBack(body: bytes, after: bytes)
    ensures Parse(Framed(Decimal(|body|), body) + after) == ReadCommand(body, 0)
  {
    var d := Decimal(|body|);
    FramedParts(d, body, after);
    LengthReadsBack(d, body + after, 0, 0);
    DecimalReadsBack(|body|);
  }

  lemma DigitsReadBack(digits: bytes, cmd: nat, payload: bytes)
    requires (forall i :: 0 <= i < |digits| ==> IsDigit(digits[i])) && Accumulate(0, digits) == cmd
    ensures ReadCommand(if payload == [] then digits else digits + [SPACE] + payload, 0) == Ok((cmd, payload))
  {
    CommandReadsBack(digits, payload, 0);
  }

  lemma BodyReadsBack(cmd: nat, payload: bytes)
    ensures ReadCommand(Body(cmd, payload), 0) == Ok((cmd, payload))
  {
    DecimalReadsBack(cmd);
    DigitsReadBack(Decimal(cmd), cmd, payload);
  }

  lemma NegativeBody(cmd: int, payload: bytes)
    requires cmd < 0
    ensures ReadCommand(Body(cmd, payload), 0) == Err(BadCommand)
  {
    assert Body(cmd, payload)[0] == 45;
  }

  /** Whatever follows it, a netstring is read back as what it was made from exactly when its command is not negative. */
  lemma NetstringReadsBack(cmd: int, payload: bytes, after: bytes)
    ensures var r := Parse(NetstringFrom(cmd, payload).serialized + after);
            if cmd >= 0 then r == Ok((cmd as nat, payload)) else r == Err(BadCommand)
  {
    var body := Body(cmd, payload);
    FrameReadsBack(body, [COMMA] + after);
    Regroup(Framed(Decimal(|body|), body), [COMMA], after);
    if cmd >= 0 {
      BodyReadsBack(cmd, payload);
    } else {
      NegativeBody(cmd, payload);
    }
  }

  /** The body of a composite netstring: sub-command code, space, the children. */
  function Composite(children: seq<bytes>): bytes
  {
    [ZERO, SPACE] + Concat(children)
  }

  method CopyInto(buffer: array<byte>, at: nat, part: bytes)
    requires at + |part| <= buffer.Length
    modifies buffer
    ensures buffer[..at + |part|] == old(buffer[..at]) + part
  {
    forall i | 0 <= i < |part| {
      buffer[at + i] := part[i];
    }
  }

  /** The sum of the children's lengths. */
  method TotalLength(children: seq<bytes>) returns (payloadLen: nat)
    ensures payloadLen == |Concat(children)|
  {
    payloadLen := 0;
    for i := 0 to |children|
      invariant payloadLen == |Concat(children[..i])|
    {
      ConcatSnoc(children, i);
      payloadLen := payloadLen + |children[i]|;
    }
    assert children[..|children|] == children;
  }

  /** Copies the children one behind the other. */
  method CopyChildren(buffer: array<byte>, at: nat, children: seq<bytes>) returns (next: nat)
    requires at + |Concat(children)| <= buffer.Length
    modifies buffer
    ensures next == at + |Concat(children)|
    ensures buffer[..next] == old(buffer[..at]) + Concat(children)
  {
    next := at;
    ghost var front := buffer[..at];
    for i := 0 to |children|
      invariant next == at + |Concat(children[..i])| <= buffer.Length
      invariant buffer[..next] == front + Concat(children[..i])
    {
      ConcatSnoc(children, i);
      ConcatPrefix(children, i + 1);
      CopyInto(buffer, next, children[i]);
      Regroup(front, Concat(children[..i]), children[i]);
      next := next + |children[i]|;
    }
    assert children[..|children|] == children;
  }

  /** NewNetstringEmbedded: the children's bytes copied behind a composite header. */
  method NewNetstringEmbedded(children: seq<bytes>) returns (p: Packet)
    ensures p.cmd == 0 && p.payload == Concat(children)
    ensures p.serialized == Framed(Decimal(|Composite(children)|), Composite(children)) + [COMMA]
  {
    var payloadLen := TotalLength(children);
    var lenStr := Decimal(payloadLen + 2) + [COLON];
    var totalLen := |lenStr| + payloadLen + 2 + 1;
    var buffer := new byte[totalLen + 1];
    CopyInto(buffer, 0, [INDICATOR]);
    CopyInto(buffer, 1, lenStr);
    CopyInto(buffer, |lenStr| + 1, [ZERO, SPACE]);
    ghost var front := buffer[..|lenStr| + 3];
    assert front == [INDICATOR] + lenStr + [ZERO, SPACE];
    var next := CopyChildren(buffer, |lenStr| + 3, children);
    CopyInto(buffer, next, [COMMA]);
    var serialized := buffer[..];
    assert serialized == buffer[..next + 1] == front + Concat(children) + [COMMA];
    CompositeShape(lenStr, children);
    PayloadSlice(front, Concat(children), [COMMA]);
    return Packet(0, serialized, serialized[totalLen - payloadLen..totalLen]);
  }

  lemma PayloadSlice(a: bytes, b: bytes, c: bytes)
    ensures (a + b + c)[|a|..|a| + |b|] == b
  {
  }

  lemma CompositeShape(lenStr: bytes, children: seq<bytes>)
    requires lenStr == Decimal(|Composite(children)|) + [COLON]
    ensures [INDICATOR] + lenStr + [ZERO, SPACE] + Concat(children) + [COMMA]
         == Framed(Decimal(|Composite(children)|), Composite(children)) + [COMMA]
  {
  }

  lemma ConcatSnoc(parts: seq<bytes>, i: nat)
    requires i < |parts|
    ensures Concat(parts[..i + 1]) == Concat(parts[..i]) + parts[i]
  {
    assert parts[..i + 1][..i] == parts[..i];
    ConcatLast(parts[..i + 1]);
  }

  lemma ConcatPrefix(parts: seq<bytes>, i: nat)
    requires i <= |parts|
    ensures |Concat(parts[..i])| <= |Concat(parts)|
  {
    assert parts == parts[..i] + parts[i..];
    ConcatAppend(parts[..i], parts[i..]);
  }

  /** A composite netstring reads back as command 0 with the children's bytes. */
  lemma EmbeddedReadsBack(children: seq<bytes>, after: bytes)
    ensures Parse(Framed(Decimal(|Composite(children)|), Composite(children)) + [COMMA] + after)
         == Ok((0, Concat(children)))
  {
    var body := Composite(children);
    FrameReadsBack(body, [COMMA] + after);
    Regroup(Framed(Decimal(|body|), body), [COMMA], after);
    CompositeReadsBack(Concat(children));
  }

  lemma CompositeReadsBack(payload: bytes)
    ensures ReadCommand([ZERO, SPACE] + payload, 0) == Ok((0, payload))
  {
    var body := [ZERO, SPACE] + payload;
    assert body[0] == ZERO && body[1..] == [SPACE] + payload;
    assert body[1..][0] == SPACE && body[1..][1..] == payload;
  }

  lemma FramedBytes(len: bytes, digits: bytes, payload: bytes)
    ensures Framed(len, if payload == [] then digits else digits + [SPACE] + payload) + [COMMA]
         == [1] + len + [58] + digits + (if payload == [] then [] else [32] + payload) + [44]
  {
    if payload == [] {
      assert [1] + len + [58] + digits + [] == [1] + len + [58] + digits;
    }
  }

  /** The bytes on the wire, and the length they announce. */
  lemma NetstringBytes(cmd: nat, payload: bytes, digits: bytes, len: bytes)
    requires digits == Decimal(cmd) && len == Decimal(|digits| + if payload == [] then 0 else 1 + |payload|)
    ensures NetstringFrom(cmd, payload).serialized
         == [1] + len + [58] + digits + (if payload == [] then [] else [32] + payload) + [44]
  {
    var body := if payload == [] then digits else digits + [SPACE] + payload;
    assert Body(cmd, payload) == body;
    FramedBytes(len, digits, payload);
  }
}
