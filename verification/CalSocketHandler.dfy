/** The CAL socket handler as the objects it is made of: message buffer, ring buffer and socket state. */
module CalSocketHandlers {
  import opened Bytes
  import opened Seqs
  import opened CalFrames
  import opened CalRuns
  import opened CalRingBuffers

  class ClientMessage {
    var threadID: nat
    var connectTime: nat
    var msgLen: nat
    var body: array<byte>

    ghost predicate Valid()
      reads this
    {
      threadID < 0x1_0000_0000 && connectTime < 0x1_0000_0000 && msgLen <= BODY_MAX == body.Length
    }

    ghost function AsFrame(): CalFrame
      requires Valid()
      reads this, body
    {
      Frame(threadID, connectTime, body[..msgLen])
    }

    constructor (now: nat)
      requires now < 0x1_0000_0000
      ensures Valid() && fresh(body) && connectTime == now
    {
      threadID, connectTime, msgLen := 0, now, 0;
      body := new byte[BODY_MAX];
    }

    /** Fills the buffer from a message: the last four bytes are the thread id, the rest is cut to the buffer. */
    method ConstructCalMessage(buffer: bytes)
      requires Valid() && |buffer| >= 4
      modifies this`threadID, this`msgLen, body
      ensures Valid() && AsFrame() == FrameOf(buffer, connectTime)
    {
      forall i | 0 <= i < BODY_MAX {
        body[i] := 0;
      }
      var size := |buffer|;
      threadID := FromLittle32(buffer[size - 4..]);
      var text := buffer[..size - 4];
      if |text| > BODY_MAX {
        text := text[..BODY_MAX];
      }
      forall i | 0 <= i < |text| {
        body[i] := text[i];
      }
      body[BODY_MAX - 2] := 13;
      body[BODY_MAX - 1] := 10;
      msgLen := |text|;
      assert body[..msgLen] == Terminated(text);
    }

    method ToBytes() returns (serialized: bytes)
      requires Valid()
      ensures serialized == Encode(AsFrame())
    {
      serialized := Big32(threadID) + Big32(connectTime) + Big32(msgLen) + body[..msgLen];
    }
  }

  class SocketHandler {
    var msg: ClientMessage
    var ringBuf: RingBuffer
    var labelBytes: bytes
    var status: Socket
    // The connection is not nil.
    var hasConn: bool
    var lossy: bool
    // A nil connection was written to, which ends the handler.
    var crashed: bool

    ghost var labelFrame: CalFrame
    ghost var past: seq<Link>
    ghost var cur: Link
    ghost var submitted: seq<CalFrame>

    ghost predicate Valid()
      reads this, msg, ringBuf, ringBuf.ring
    {
      && msg.Valid() && ringBuf.Valid()
      && msg.body != ringBuf.ring
      && labelBytes == Encode(labelFrame)
    }

    ghost function Abs(): Handler
      reads this, msg, ringBuf
    {
      Handler(labelFrame, ringBuf.capacity, ringBuf.queue, status, hasConn, lossy, msg.connectTime, crashed,
              past, cur, submitted)
    }

    constructor (text: bytes, size: nat, now: nat, expired: bool, dial: Dial)
      requires |text| >= 4 && now < 0x1_0000_0000
      ensures Valid() && fresh(msg) && fresh(msg.body) && fresh(ringBuf) && fresh(ringBuf.ring)
      ensures Abs() == Initial(FrameOf(text, now), size, expired, dial)
    {
      msg := new ClientMessage(now);
      ringBuf := new RingBuffer(size);
      status := NotConnected;
      hasConn, lossy, crashed := false, false, false;
      ghost var f := FrameOf(text, now);
      labelBytes, past, submitted, labelFrame, cur := [], [], [], f, Link([], [f]);
      new;
      labelBytes := Serialize(text);
      Start(expired, dial);
    }

    /** Makes the first dial and queues the label. */
    method Start(expired: bool, dial: Dial)
      requires Valid() && ringBuf.queue == [] && status == NotConnected && !hasConn
      modifies this`status, this`hasConn, ringBuf, ringBuf.ring
      ensures Valid() && ringBuf.ring == old(ringBuf.ring)
      ensures Abs() == var h := old(Abs()).(ring := if |labelBytes| <= ringBuf.capacity then labelBytes else []);
                       if expired then Dialed(h, dial) else h
    {
      if expired {
        var ok := ConnectToCaldaemon(dial);
        if !ok {
          CloseSocket();
        }
      }
      var _ := Enqueue(labelBytes);
    }

    method Serialize(text: bytes) returns (serialized: bytes)
      requires msg.Valid() && |text| >= 4
      modifies msg, msg.body
      ensures msg.Valid() && msg.body == old(msg.body) && msg.connectTime == old(msg.connectTime)
      ensures serialized == Encode(FrameOf(text, msg.connectTime))
    {
      msg.ConstructCalMessage(text);
      serialized := msg.ToBytes();
    }

    /** Puts data into the ring buffer, all of it or none. */
    method Enqueue(data: bytes) returns (ok: bool)
      requires ringBuf.Valid()
      modifies ringBuf, ringBuf.ring
      ensures ringBuf.Valid() && ringBuf.ring == old(ringBuf.ring) && ringBuf.capacity == old(ringBuf.capacity)
      ensures ok <==> |old(ringBuf.queue)| + |data| <= ringBuf.capacity
      ensures ringBuf.queue == if ok then old(ringBuf.queue) + data else old(ringBuf.queue)
    {
      ok := ringBuf.WriteData(data, |data|);
      assert data[..|data|] == data;
    }

    method ConnectToCaldaemon(dial: Dial) returns (ok: bool)
      modifies this`status, this`hasConn
      ensures Abs() == Dialed(old(Abs()), dial)
      ensures ok == (dial != Refused)
    {
      hasConn := dial == Answered;
      match dial {
        case Answered | IsConnected => status := Connected;
        case InProgress => status := Connecting;
        case Refused =>
      }
      return dial != Refused;
    }

    method CloseSocket()
      modifies this`status
      ensures status == NotConnected
    {
      if status != NotConnected {
        status := NotConnected;
      }
    }

    method CloseConnection()
      requires Valid()
      modifies this, ringBuf, ringBuf.ring
      ensures Valid() && unchanged(this`msg, this`ringBuf) && ringBuf.ring == old(ringBuf.ring)
      ensures Abs() == Closed(old(Abs()))
    {
      past, cur := Links(Abs()), Link([], [labelFrame]);
      CloseSocket();
      ringBuf.Clear();
      var _ := Enqueue(labelBytes);
    }

    method CompleteConnection(env: Env)
      requires Valid() && env.now < 0x1_0000_0000
      modifies this, msg, ringBuf, ringBuf.ring
      ensures Valid() && unchanged(this`msg, this`ringBuf) && ringBuf.ring == old(ringBuf.ring) && msg.body == old(msg.body)
      ensures Abs() == Completed(old(Abs()), env)
    {
      if status == NotConnected {
        if env.expired {
          var ok := ConnectToCaldaemon(env.dial);
          if !ok {
            CloseSocket();
          } else {
            msg.connectTime := env.now;
          }
        }
      } else if status == Connecting {
        var ok := ConnectToCaldaemon(env.dial);
        if !ok {
          CloseConnection();
        }
      }
    }

    method AddDataToRingBuffer(text: bytes)
      requires Valid() && |text| >= 4
      modifies this, msg, msg.body, ringBuf, ringBuf.ring
      ensures Valid() && unchanged(this`msg, this`ringBuf) && ringBuf.ring == old(ringBuf.ring) && msg.body == old(msg.body)
      ensures Abs() == Added(old(Abs()), text)
    {
      var serialized := Serialize(text);
      Offer(serialized, FrameOf(text, msg.connectTime));
    }

    method Offer(serialized: bytes, ghost f: CalFrame)
      requires Valid() && serialized == Encode(f)
      modifies this`lossy, this`cur, this`submitted, ringBuf, ringBuf.ring
      ensures Valid() && ringBuf.ring == old(ringBuf.ring)
      ensures Abs() == Offered(old(Abs()), f)
    {
      submitted := submitted + [f];
      var ok := Enqueue(serialized);
      if !ok {
        lossy := true;
      } else {
        cur := cur.(frames := cur.frames + [f]);
      }
    }

    method Flush(send: Send)
      requires Valid()
      modifies this, ringBuf, ringBuf.ring
      ensures Valid() && unchanged(this`msg, this`ringBuf) && ringBuf.ring == old(ringBuf.ring)
      ensures Abs() == Flushed(old(Abs()), send)
    {
      if status != Connected {
        return;
      }
      var copy := Buffered();
      if !hasConn {
        crashed := true;
        return;
      }
      match send {
        case SendFailed =>
          CloseConnection();
          lossy := true;
        case Sent(n) =>
          Accepted(copy, n);
      }
    }

    /** A copy of everything in the ring buffer. */
    method Buffered() returns (copy: bytes)
      requires ringBuf.Valid()
      ensures copy == ringBuf.queue
    {
      var size := ringBuf.used;
      var buffer := new byte[size];
      var _ := ringBuf.CopyData(buffer, size);
      copy := buffer[..];
    }

    /** The daemon took up to n bytes of the copy; they leave the ring buffer. */
    method Accepted(copy: bytes, n: nat)
      requires Valid() && copy == ringBuf.queue && status == Connected && hasConn
      modifies this`cur, ringBuf
      ensures Valid() && ringBuf.ring == old(ringBuf.ring)
      ensures Abs() == Flushed(old(Abs()), Sent(n))
    {
      var dataSent := if n <= |copy| then n else |copy|;
      cur := cur.(got := cur.got + copy[..dataSent]);
      var _ := ringBuf.RemoveData(dataSent);
    }

    /** One iteration of the handler's loop over its message channel. */
    method Handle(input: Input)
      requires Valid() && Proper(input)
      modifies this, msg, msg.body, ringBuf, ringBuf.ring
      ensures Valid() && unchanged(this`msg, this`ringBuf) && ringBuf.ring == old(ringBuf.ring) && msg.body == old(msg.body)
      ensures Abs() == Step(old(Abs()), input)
    {
      if crashed {
        return;
      }
      match input {
        case NewRoot(env) =>
          HandleNewRoot(env);
        case Message(text, env) =>
          CompleteConnection(env);
          AddDataToRingBuffer(text);
          Flush(env.send);
      }
    }

    method HandleNewRoot(env: Env)
      requires Valid() && env.now < 0x1_0000_0000 && !crashed
      modifies this, msg, ringBuf, ringBuf.ring
      ensures Valid() && unchanged(this`msg, this`ringBuf) && ringBuf.ring == old(ringBuf.ring) && msg.body == old(msg.body)
      ensures Abs() == Step(old(Abs()), NewRoot(env))
    {
      if lossy {
        Flush(env.send);
        if crashed {
          return;
        }
        CloseConnection();
        lossy := false;
        CompleteConnection(env);
      }
    }
  }
}
