/** CAL messages on the wire, and what a run of the socket handler lets each daemon connection see. */
module CalFrames {
  import opened Bytes
  import opened Seqs

  const BODY_MAX: nat := 4096

  datatype RawFrame = Frame(threadId: nat, connectTime: nat, body: bytes)

  type CalFrame = f: RawFrame | f.threadId < 0x1_0000_0000 && f.connectTime < 0x1_0000_0000 && |f.body| <= BODY_MAX
    witness Frame(0, 0, [])

  /** A uint32 in network byte order. */
  function Big32(n: nat): (r: bytes)
    requires n < 0x1_0000_0000
    ensures |r| == 4
  {
    [n / 0x100_0000, n / 0x1_0000 % 256, n / 256 % 256, n % 256]
  }

  function FromBig32(b: bytes): (n: nat)
    requires |b| == 4
    ensures n < 0x1_0000_0000
  {
    (b[0] as int) * 0x100_0000 + (b[1] as int) * 0x1_0000 + (b[2] as int) * 256 + b[3] as int
  }

  lemma Big32ReadsBack(n: nat)
    requires n < 0x1_0000_0000
    ensures FromBig32(Big32(n)) == n
  {
    assert n / 256 == n / 0x1_0000 * 256 + n / 256 % 256;
    assert n / 0x1_0000 == n / 0x100_0000 * 256 + n / 0x1_0000 % 256;
  }

  function FromLittle32(b: bytes): (n: nat)
    requires |b| == 4
    ensures n < 0x1_0000_0000
  {
    FromBig32([b[3], b[2], b[1], b[0]])
  }

  /** What the last two bytes of a body that fills the buffer become. */
  function Terminated(body: bytes): (r: bytes)
    requires |body| <= BODY_MAX
    ensures |r| == |body|
  {
    seq(|body|, i requires 0 <= i < |body| => if i == BODY_MAX - 2 then 13 else if i == BODY_MAX - 1 then 10 else body[i])
  }

  /** The frame for a message, whose last four bytes are the thread id. */
  function FrameOf(msg: bytes, connectTime: nat): (f: CalFrame)
    requires |msg| >= 4 && connectTime < 0x1_0000_0000
  {
    var text := msg[..|msg| - 4];
    Frame(FromLittle32(msg[|msg| - 4..]), connectTime,
          Terminated(if |text| > BODY_MAX then text[..BODY_MAX] else text))
  }

  function Encode(f: CalFrame): (r: bytes)
    ensures |r| == 12 + |f.body|
  {
    Big32(f.threadId) + Big32(f.connectTime) + Big32(|f.body|) + f.body
  }

  /** The header: thread id, connect time and length of the body, each with the high byte first. */
  lemma HeaderBytes(f: CalFrame)
    ensures var e := Encode(f);
            && Number(e[..4]) == f.threadId && Number(e[4..8]) == f.connectTime && Number(e[8..12]) == |f.body|
            && e[12..] == f.body
  {
    Big32Counts(f.threadId);
    Big32Counts(f.connectTime);
    Big32Counts(|f.body|);
    var e := Encode(f);
    assert e[..4] == Big32(f.threadId) && e[4..8] == Big32(f.connectTime) && e[8..12] == Big32(|f.body|);
  }

  // The number whose digits to base 256 are these bytes.
  function Number(b: bytes): nat
  {
    if b == [] then 0 else Number(b[..|b| - 1]) * 256 + b[|b| - 1] as int
  }

  lemma Big32Counts(n: nat)
    requires n < 0x1_0000_0000
    ensures Number(Big32(n)) == n
  {
    var b := Big32(n);
    assert b[..3] == [b[0], b[1], b[2]] && b[..3][..2] == [b[0], b[1]] && [b[0], b[1]][..1] == [b[0]] && [b[0]][..0] == [];
    assert Number([b[0]]) == b[0] as int;
    assert Number([b[0], b[1]]) == n / 0x1_0000;
    assert Number(b[..3]) == n / 256;
  }

  ghost function EncodeAll(fs: seq<CalFrame>): bytes
  {
    if fs == [] then [] else EncodeAll(fs[..|fs| - 1]) + Encode(fs[|fs| - 1])
  }

  lemma EncodeAllSnoc(fs: seq<CalFrame>, f: CalFrame)
    ensures EncodeAll(fs + [f]) == EncodeAll(fs) + Encode(f)
  {
    assert (fs + [f])[..|fs|] == fs;
  }

  lemma {:induction false} EncodeAllCons(fs: seq<CalFrame>)
    requires fs != []
    ensures EncodeAll(fs) == Encode(fs[0]) + EncodeAll(fs[1..])
  {
    if |fs| == 1 {
      assert fs[..0] == [] && fs[1..] == [];
    } else {
      var n := |fs| - 1;
      var mid := fs[1..n];
      EncodeAllCons(fs[..n]);
      assert fs[..n][1..] == mid;
      assert fs[1..] == mid + [fs[n]];
      EncodeAllSnoc(mid, fs[n]);
      Regroup(Encode(fs[0]), EncodeAll(mid), Encode(fs[n]));
    }
  }

  /** The whole frames at the front of a byte stream, read by their 12-byte headers. */
  ghost function Decode(stream: bytes): seq<RawFrame>
  {
    if |stream| < 12 then []
    else
      var n := FromBig32(stream[8..12]);
      if |stream| < 12 + n then []
      else [Frame(FromBig32(stream[..4]), FromBig32(stream[4..8]), stream[12..12 + n])] + Decode(stream[12 + n..])
  }

  lemma DecodeOne(f: CalFrame, rest: bytes)
    ensures Decode(Encode(f) + rest) == [f] + Decode(rest)
  {
    var s := Encode(f) + rest;
    Big32ReadsBack(f.threadId);
    Big32ReadsBack(f.connectTime);
    Big32ReadsBack(|f.body|);
    assert s[..4] == Big32(f.threadId);
    assert s[4..8] == Big32(f.connectTime);
    assert s[8..12] == Big32(|f.body|);
    assert s[12..12 + |f.body|] == f.body;
    assert s[12 + |f.body|..] == rest;
  }

  /** A reader of any prefix of a frame stream finds a prefix of the frames, and all of them once it is complete. */
  lemma {:induction false} DecodePrefix(fs: seq<CalFrame>, got: bytes)
    requires got <= EncodeAll(fs)
    ensures Decode(got) <= fs
    ensures got == EncodeAll(fs) ==> Decode(got) == fs
  {
    if fs != [] {
      EncodeAllCons(fs);
      DecodeFirst(fs[0], EncodeAll(fs[1..]), got);
      if |got| >= |Encode(fs[0])| {
        var rest := got[|Encode(fs[0])|..];
        DecodePrefix(fs[1..], rest);
        OneInFront(fs, Decode(rest));
      }
    }
  }

  lemma OneInFront(fs: seq<CalFrame>, ds: seq<RawFrame>)
    requires fs != [] && ds <= fs[1..]
    ensures [fs[0]] + ds <= fs && (ds == fs[1..] ==> [fs[0]] + ds == fs)
  {
    assert fs == [fs[0]] + fs[1..];
  }

  lemma DecodeFirst(f: CalFrame, t: bytes, got: bytes)
    requires got <= Encode(f) + t
    ensures |got| < |Encode(f)| ==> Decode(got) == [] && got != Encode(f) + t
    ensures |got| >= |Encode(f)| ==>
              var rest := got[|Encode(f)|..];
              Decode(got) == [f] + Decode(rest) && rest <= t && (got == Encode(f) + t ==> rest == t)
  {
    if |got| >= |Encode(f)| {
      SplitPrefix(Encode(f), t, got);
      DecodeOne(f, got[|Encode(f)|..]);
    } else {
      Incomplete(f, got, t);
    }
  }

  lemma SplitPrefix(e: bytes, t: bytes, got: bytes)
    requires got <= e + t && |got| >= |e|
    ensures got == e + got[|e|..] && got[|e|..] <= t
    ensures got == e + t ==> got[|e|..] == t
  {
    assert got == (e + t)[..|got|];
  }

  lemma Incomplete(f: CalFrame, got: bytes, rest: bytes)
    requires got <= Encode(f) + rest && |got| < |Encode(f)|
    ensures Decode(got) == []
  {
    if |got| >= 12 {
      Big32ReadsBack(|f.body|);
      assert got[8..12] == (Encode(f) + rest)[8..12] == Big32(|f.body|);
    }
  }
}

/**
 The socket handler as a state machine over dial results, send results and messages. A link is one
 connection to the daemon: the bytes the daemon got on it and the frames queued for it, label first.
 */
module CalRuns {
  import opened Bytes
  import opened Seqs
  import opened CalFrames

  datatype Dial = Answered | InProgress | IsConnected | Refused

  datatype Send = Sent(n: nat) | SendFailed

  datatype Socket = Connected | Connecting | NotConnected

  datatype Link = Link(got: bytes, frames: seq<CalFrame>)

  /**
   `past`, `cur` and `submitted` are history: the connections already closed, the one the queued
   frames are for (perhaps not dialed yet), and the frame of every message handled so far.
   */
  datatype Handler = Handler(
    labelFrame: CalFrame, capacity: nat, ring: bytes, socket: Socket, conn: bool, lossy: bool, connectTime: nat,
    crashed: bool, past: seq<Link>, cur: Link, submitted: seq<CalFrame>)

  // The outside world during one input: whether the redial interval is over, and the call results.
  datatype Env = Env(expired: bool, dial: Dial, send: Send, now: nat)

  datatype Input = NewRoot(env: Env) | Message(msg: bytes, env: Env)

  ghost predicate Open(h: Handler)
  {
    h.socket == Connected && h.conn
  }

  /** Every connection the daemon ever had, in order. */
  ghost function Links(h: Handler): seq<Link>
  {
    if Open(h) then h.past + [h.cur] else h.past
  }

  /** connectToCaldaemon: a failed dial leaves the connection nil, whatever the error says. */
  ghost function Dialed(h: Handler, d: Dial): (r: Handler)
    ensures r.submitted == h.submitted
  {
    match d
    case Answered => h.(socket := Connected, conn := true)
    case IsConnected => h.(socket := Connected, conn := false)
    case InProgress => h.(socket := Connecting, conn := false)
    case Refused => h.(conn := false)
  }

  ghost function Closed(h: Handler): (r: Handler)
    ensures r.submitted == h.submitted
  {
    h.(socket := NotConnected, ring := if |Encode(h.labelFrame)| <= h.capacity then Encode(h.labelFrame) else [],
       past := Links(h), cur := Link([], [h.labelFrame]))
  }

  ghost function Completed(h: Handler, env: Env): (r: Handler)
    ensures r.submitted == h.submitted && (r.connectTime == h.connectTime || r.connectTime == env.now)
  {
    match h.socket
    case Connected => h
    case Connecting => if env.dial == Refused then Closed(Dialed(h, env.dial)) else Dialed(h, env.dial)
    case NotConnected =>
      if !env.expired then h
      else if env.dial == Refused then Dialed(h, env.dial)
      else Dialed(h, env.dial).(connectTime := env.now)
  }

  ghost function Queued(h: Handler, f: CalFrame): Handler
  {
    h.(ring := h.ring + Encode(f), cur := h.cur.(frames := h.cur.frames + [f]))
  }

  ghost function Added(h: Handler, msg: bytes): Handler
    requires |msg| >= 4 && h.connectTime < 0x1_0000_0000
  {
    Offered(h, FrameOf(msg, h.connectTime))
  }

  /** A frame is queued whole or not at all. */
  ghost function Offered(h: Handler, f: CalFrame): Handler
  {
    (if |h.ring| + |Encode(f)| <= h.capacity then Queued(h, f) else h.(lossy := true)).(submitted := h.submitted + [f])
  }

  ghost function Flushed(h: Handler, send: Send): (r: Handler)
    ensures r.submitted == h.submitted && r.connectTime == h.connectTime
  {
    if h.socket != Connected then h
    else if !h.conn then h.(crashed := true)
    else match send
      case SendFailed => Closed(h).(lossy := true)
      case Sent(n) =>
        var k := if n <= |h.ring| then n else |h.ring|;
        h.(ring := h.ring[k..], cur := h.cur.(got := h.cur.got + h.ring[..k]))
  }

  ghost predicate Proper(i: Input)
  {
    i.env.now < 0x1_0000_0000 && (i.Message? ==> |i.msg| >= 4)
  }

  ghost function Step(h: Handler, i: Input): Handler
    requires Proper(i) && h.connectTime < 0x1_0000_0000
  {
    if h.crashed then h
    else match i
      case Message(msg, env) => Flushed(Added(Completed(h, env), msg), env.send)
      case NewRoot(env) =>
        if !h.lossy then h
        else
          var f := Flushed(h, env.send);
          if f.crashed then f else Completed(Closed(f).(lossy := false), env)
  }

  ghost predicate Run(h: Handler, inputs: seq<Input>, t: Handler)
    decreases inputs
  {
    if inputs == [] then t == h
    else Proper(inputs[0]) && h.connectTime < 0x1_0000_0000 && Run(Step(h, inputs[0]), inputs[1..], t)
  }

  /** The handler after init: label queued, first dial made. */
  ghost function Initial(labelFrame: CalFrame, capacity: nat, expired: bool, dial: Dial): Handler
  {
    var h := Handler(labelFrame, capacity, if |Encode(labelFrame)| <= capacity then Encode(labelFrame) else [],
                     NotConnected, false, false, labelFrame.connectTime, false, [], Link([], [labelFrame]), []);
    if expired then Dialed(h, dial) else h
  }

  /** All frames put behind a label for some connection, in order. */
  ghost function Told(links: seq<Link>): seq<CalFrame>
  {
    if links == [] then []
    else
      var l := links[|links| - 1];
      Told(links[..|links| - 1]) + if l.frames == [] then [] else l.frames[1..]
  }

  lemma TellLast(links: seq<Link>, l: Link)
    requires l.frames != []
    ensures Told(links + [l]) == Told(links) + l.frames[1..]
  {
    assert (links + [l])[..|links|] == links;
  }

  /** A connection on which the daemon got a prefix of the label and whole frames. */
  ghost predicate LinkOk(labelFrame: CalFrame, l: Link)
  {
    l.frames != [] && l.frames[0] == labelFrame && l.got <= EncodeAll(l.frames)
  }

  /** What was sent and what is still queued make up the label and whole frames, all of them submitted messages. */
  ghost predicate Streams(labelFrame: CalFrame, past: seq<Link>, cur: Link, ring: bytes, submitted: seq<CalFrame>)
  {
    && (forall i :: 0 <= i < |past| ==> LinkOk(labelFrame, past[i]))
    && LinkOk(labelFrame, cur)
    && cur.got + ring == EncodeAll(cur.frames)
    && Subsequence(Told(past) + cur.frames[1..], submitted)
  }

  ghost predicate Inv(h: Handler)
  {
    && |Encode(h.labelFrame)| <= h.capacity
    && h.connectTime < 0x1_0000_0000
    && (!Open(h) ==> h.cur.got == [])
    && Streams(h.labelFrame, h.past, h.cur, h.ring, h.submitted)
  }

  lemma LabelAlone(f: CalFrame)
    ensures EncodeAll([f]) == Encode(f)
  {
    EncodeAllSnoc([], f);
    assert [] + [f] == [f];
  }

  lemma ClosedKeeps(h: Handler)
    requires Inv(h)
    ensures Inv(Closed(h)) && Closed(h).labelFrame == h.labelFrame
  {
    LabelAlone(h.labelFrame);
    assert Closed(h).cur.frames[1..] == [];
    assert [] + Encode(h.labelFrame) == Encode(h.labelFrame);
    if Open(h) {
      TellLast(h.past, h.cur);
    } else {
      SubsequencePrefix(Told(h.past), h.cur.frames[1..], h.submitted);
    }
    assert Told(Links(h)) + [] == Told(Links(h));
  }

  lemma DialedKeeps(h: Handler, d: Dial)
    requires Inv(h) && h.socket != Connected
    ensures Inv(Dialed(h, d)) && Dialed(h, d).labelFrame == h.labelFrame
  {
    assert h.cur.got == [];
  }

  lemma CompletedKeeps(h: Handler, env: Env)
    requires Inv(h) && env.now < 0x1_0000_0000
    ensures Inv(Completed(h, env)) && Completed(h, env).labelFrame == h.labelFrame
  {
    if h.socket != Connected {
      var d := Dialed(h, env.dial);
      DialedKeeps(h, env.dial);
      ClosedKeeps(d);
      assert Inv(d.(connectTime := env.now));
    }
  }

  lemma SubmittedKeeps(labelFrame: CalFrame, past: seq<Link>, cur: Link, ring: bytes, submitted: seq<CalFrame>, f: CalFrame)
    requires Streams(labelFrame, past, cur, ring, submitted)
    ensures Streams(labelFrame, past, cur, ring, submitted + [f])
  {
    SubsequenceSnoc(Told(past) + cur.frames[1..], submitted, f);
  }

  lemma QueuedKeeps(labelFrame: CalFrame, past: seq<Link>, cur: Link, ring: bytes, submitted: seq<CalFrame>, f: CalFrame)
    requires Streams(labelFrame, past, cur, ring, submitted)
    ensures Streams(labelFrame, past, cur.(frames := cur.frames + [f]), ring + Encode(f), submitted + [f])
  {
    SubsequenceSnoc(Told(past) + cur.frames[1..], submitted, f);
    EncodeAllSnoc(cur.frames, f);
    Regroup(cur.got, ring, Encode(f));
    OneMore(Told(past), cur.frames, f);
  }

  lemma OneMore(told: seq<CalFrame>, frames: seq<CalFrame>, f: CalFrame)
    requires frames != []
    ensures told + (frames + [f])[1..] == told + frames[1..] + [f]
  {
  }

  lemma AddedKeeps(h: Handler, msg: bytes)
    requires Inv(h) && |msg| >= 4
    ensures Inv(Added(h, msg)) && Added(h, msg).labelFrame == h.labelFrame
  {
    var f := FrameOf(msg, h.connectTime);
    SubmittedKeeps(h.labelFrame, h.past, h.cur, h.ring, h.submitted, f);
    QueuedKeeps(h.labelFrame, h.past, h.cur, h.ring, h.submitted, f);
  }

  lemma FlushedKeeps(h: Handler, send: Send)
    requires Inv(h)
    ensures Inv(Flushed(h, send)) && Flushed(h, send).labelFrame == h.labelFrame
  {
    if Open(h) {
      if send == SendFailed {
        ClosedKeeps(h);
      } else {
        var k := if send.n <= |h.ring| then send.n else |h.ring|;
        assert h.ring == h.ring[..k] + h.ring[k..];
        Regroup(h.cur.got, h.ring[..k], h.ring[k..]);
      }
    }
  }

  lemma MessageKeeps(h: Handler, msg: bytes, env: Env)
    requires Inv(h) && |msg| >= 4 && env.now < 0x1_0000_0000
    ensures var t := Flushed(Added(Completed(h, env), msg), env.send); Inv(t) && t.labelFrame == h.labelFrame
  {
    var c := Completed(h, env);
    CompletedKeeps(h, env);
    var a := Added(c, msg);
    AddedKeeps(c, msg);
    FlushedKeeps(a, env.send);
  }

  lemma NewRootKeeps(h: Handler, env: Env)
    requires Inv(h) && env.now < 0x1_0000_0000
    ensures Inv(Flushed(h, env.send))
    ensures var t := Completed(Closed(Flushed(h, env.send)).(lossy := false), env); Inv(t) && t.labelFrame == h.labelFrame
  {
    var f := Flushed(h, env.send);
    FlushedKeeps(h, env.send);
    var c := Closed(f).(lossy := false);
    ClosedKeeps(f);
    assert Inv(c);
    CompletedKeeps(c, env);
  }

  lemma StepKeeps(h: Handler, i: Input)
    requires Inv(h) && Proper(i)
    ensures Inv(Step(h, i)) && Step(h, i).labelFrame == h.labelFrame
  {
    match i
    case Message(msg, env) => MessageKeeps(h, msg, env);
    case NewRoot(env) => NewRootKeeps(h, env);
  }

  lemma {:induction false} RunKeeps(h: Handler, inputs: seq<Input>, t: Handler)
    requires Inv(h) && Run(h, inputs, t)
    ensures Inv(t) && t.labelFrame == h.labelFrame
    decreases inputs
  {
    if inputs != [] {
      var next := Step(h, inputs[0]);
      StepKeeps(h, inputs[0]);
      RunKeeps(next, inputs[1..], t);
    }
  }

  lemma InitialKeeps(labelFrame: CalFrame, capacity: nat, expired: bool, dial: Dial)
    requires |Encode(labelFrame)| <= capacity
    ensures Inv(Initial(labelFrame, capacity, expired, dial))
  {
    LabelAlone(labelFrame);
    assert [labelFrame][1..] == [];
    assert [] + Encode(labelFrame) == Encode(labelFrame);
  }

  /**
   In every run, the daemon gets on each connection a prefix of the label frame followed by whole queued
   frames; reading it by its headers yields a prefix of exactly those frames; and over all connections
   the queued frames are submitted messages in their order, each at most once.
   */
  lemma DaemonSeesWholeFrames(labelFrame: CalFrame, capacity: nat, expired: bool, dial: Dial, inputs: seq<Input>, t: Handler)
    requires |Encode(labelFrame)| <= capacity
    requires Run(Initial(labelFrame, capacity, expired, dial), inputs, t)
    ensures forall i :: 0 <= i < |Links(t)| ==>
      LinkOk(labelFrame, Links(t)[i]) && Decode(Links(t)[i].got) <= Links(t)[i].frames
    ensures Subsequence(Told(Links(t)), t.submitted)
  {
    InitialKeeps(labelFrame, capacity, expired, dial);
    RunKeeps(Initial(labelFrame, capacity, expired, dial), inputs, t);
    LinksAreWhole(t);
    AllTold(t);
  }

  lemma LinksAreWhole(t: Handler)
    requires Inv(t)
    ensures forall i :: 0 <= i < |Links(t)| ==>
      LinkOk(t.labelFrame, Links(t)[i]) && Decode(Links(t)[i].got) <= Links(t)[i].frames
  {
    forall i | 0 <= i < |Links(t)|
      ensures LinkOk(t.labelFrame, Links(t)[i]) && Decode(Links(t)[i].got) <= Links(t)[i].frames
    {
      var l := Links(t)[i];
      assert LinkOk(t.labelFrame, l);
      DecodePrefix(l.frames, l.got);
    }
  }

  lemma AllTold(t: Handler)
    requires Inv(t)
    ensures Subsequence(Told(Links(t)), t.submitted)
  {
    if Open(t) {
      TellLast(t.past, t.cur);
    } else {
      SubsequencePrefix(Told(t.past), t.cur.frames[1..], t.submitted);
    }
  }

  // Frames without their connect time, which depends on the connection they wait for.
  ghost function Undated(frames: seq<CalFrame>): seq<CalFrame>
  {
    seq(|frames|, i requires 0 <= i < |frames| => frames[i].(connectTime := 0))
  }

  ghost function Text(i: Input): seq<CalFrame>
    requires Proper(i)
  {
    if i.Message? then [FrameOf(i.msg, 0)] else []
  }

  ghost function Texts(inputs: seq<Input>): seq<CalFrame>
    requires forall i :: 0 <= i < |inputs| ==> Proper(inputs[i])
  {
    if inputs == [] then [] else Text(inputs[0]) + Texts(inputs[1..])
  }

  lemma AddedSubmits(h: Handler, msg: bytes)
    requires |msg| >= 4 && h.connectTime < 0x1_0000_0000
    ensures Added(h, msg).submitted == h.submitted + [FrameOf(msg, h.connectTime)]
  {
  }

  lemma StepSubmits(h: Handler, i: Input)
    requires Proper(i) && h.connectTime < 0x1_0000_0000 && !h.crashed
    ensures Step(h, i).submitted
         == h.submitted + if i.Message? then [FrameOf(i.msg, Completed(h, i.env).connectTime)] else []
  {
    if i.Message? {
      AddedSubmits(Completed(h, i.env), i.msg);
    }
  }

  lemma UndatedAppend(a: seq<CalFrame>, b: seq<CalFrame>)
    ensures Undated(a + b) == Undated(a) + Undated(b)
  {
  }

  lemma StepTexts(h: Handler, i: Input)
    requires Proper(i) && h.connectTime < 0x1_0000_0000 && !h.crashed
    ensures Undated(Step(h, i).submitted) == Undated(h.submitted) + Text(i)
  {
    StepSubmits(h, i);
    if i.Message? {
      UndatedAppend(h.submitted, [FrameOf(i.msg, Completed(h, i.env).connectTime)]);
    } else {
      UndatedAppend(h.submitted, []);
    }
  }

  lemma CrashSticks(h: Handler, i: Input)
    requires Proper(i) && h.connectTime < 0x1_0000_0000
    ensures h.crashed ==> Step(h, i).crashed
  {
  }

  /** The submitted frames of a run are its messages, each once, in order. */
  lemma {:induction false} RunSubmits(h: Handler, inputs: seq<Input>, t: Handler)
    requires Run(h, inputs, t) && !t.crashed && forall i :: 0 <= i < |inputs| ==> Proper(inputs[i])
    ensures !h.crashed && Undated(t.submitted) == Undated(h.submitted) + Texts(inputs)
    decreases inputs
  {
    if inputs != [] {
      var next := Step(h, inputs[0]);
      RunSubmits(next, inputs[1..], t);
      CrashSticks(h, inputs[0]);
      StepTexts(h, inputs[0]);
      Regroup(Undated(h.submitted), Text(inputs[0]), Texts(inputs[1..]));
    }
  }

  /** The bytes queued for the current link that the daemon did not get yet. */
  ghost function Unsent(h: Handler): int
  {
    |EncodeAll(h.cur.frames)| - |h.cur.got|
  }

  /** A message is put behind the current link's frames exactly when it fits with what is still unsent; otherwise it is lost. */
  lemma QueuedIfFits(h: Handler, msg: bytes)
    requires Inv(h) && |msg| >= 4
    ensures var f := FrameOf(msg, h.connectTime);
            var a := Added(h, msg);
            && a.cur.got == h.cur.got && a.past == h.past
            && (if Unsent(h) + 12 + |f.body| <= h.capacity then a.cur.frames == h.cur.frames + [f] && a.lossy == h.lossy
                else a.cur.frames == h.cur.frames && a.lossy)
  {
    assert |h.ring| == Unsent(h);
  }

  /** A send on an open link that takes everything leaves the daemon with all frames of the link. */
  lemma SendOfAllDelivers(h: Handler, n: nat)
    requires Inv(h) && Open(h) && n >= Unsent(h)
    ensures var t := Flushed(h, Sent(n));
            t.cur.frames == h.cur.frames && t.cur.got == EncodeAll(t.cur.frames) && Decode(t.cur.got) == t.cur.frames
  {
    assert |h.ring| == Unsent(h);
    assert h.ring[..|h.ring|] == h.ring;
    FlushedKeeps(h, Sent(n));
    DecodePrefix(h.cur.frames, EncodeAll(h.cur.frames));
  }

  /** Any send delivers just so many of the unsent bytes as it takes. */
  lemma SendDelivers(h: Handler, n: nat)
    requires Inv(h) && Open(h)
    ensures var t := Flushed(h, Sent(n));
            && t.cur.frames == h.cur.frames && t.cur.got <= EncodeAll(h.cur.frames)
            && |t.cur.got| == |h.cur.got| + (if n < Unsent(h) then n else Unsent(h))
  {
    assert |h.ring| == Unsent(h);
    FlushedKeeps(h, Sent(n));
  }

  /** Completing a connection: an open one stays; otherwise it is open exactly when a dial was due and answered. */
  lemma ConnectTells(h: Handler, env: Env)
    ensures var t := Completed(h, env);
            var due := h.socket == Connecting || (h.socket == NotConnected && env.expired);
            && (h.socket == Connected || !due ==> t == h)
            && (h.socket != Connected && due ==> (Open(t) <==> env.dial == Answered))
            && (h.socket == NotConnected && due ==> t.connectTime == if env.dial == Refused then h.connectTime else env.now)
            && (h.socket == Connecting && env.dial == Refused ==> t.socket == NotConnected && t.cur == Link([], [h.labelFrame]))
            && (env.dial != Refused || h.socket != Connecting ==> t.cur == h.cur && t.past == h.past && t.ring == h.ring)
  {
  }

  /** A failed send gives the link up; what was queued for it is not sent again. */
  lemma FailedSendCloses(h: Handler)
    requires Open(h)
    ensures var t := Flushed(h, SendFailed);
            t.past == h.past + [h.cur] && t.cur == Link([], [h.labelFrame]) && t.socket == NotConnected && t.lossy
  {
  }

  /** A new root transaction changes nothing, unless something was lost: then the link, if any, ends and a new one begins. */
  lemma RootTells(h: Handler, env: Env)
    requires Proper(NewRoot(env)) && h.connectTime < 0x1_0000_0000 && !h.crashed
    ensures var t := Step(h, NewRoot(env));
            && t.submitted == h.submitted
            && (!h.lossy ==> t == h)
            && (h.lossy && h.socket == Connected && !h.conn ==> t.crashed)
            && (h.lossy && !(h.socket == Connected && !h.conn) ==>
                  && !t.crashed && !t.lossy && t.cur == Link([], [h.labelFrame])
                  && h.past <= t.past && |t.past| == |h.past| + (if Open(h) then 1 else 0)
                  && (Open(t) <==> env.expired && env.dial == Answered))
  {
    if h.lossy && Open(h) && env.send.SendFailed? {
      FailedSendCloses(h);
    }
  }

  /** Nothing is lost while no message is dropped, no send fails and no pending dial is refused. */
  ghost predicate Undisturbed(h: Handler, inputs: seq<Input>)
    requires forall i :: 0 <= i < |inputs| ==> Proper(inputs[i])
    requires h.connectTime < 0x1_0000_0000
    decreases inputs
  {
    && !h.lossy
    && (inputs != [] ==>
          && Proper(inputs[0])
          && !(inputs[0].Message? && h.socket == Connecting && inputs[0].env.dial == Refused)
          && var next := Step(h, inputs[0]);
             next.connectTime < 0x1_0000_0000 && Undisturbed(next, inputs[1..]))
  }

  /** Everything submitted so far is behind the label of the first and only link. */
  ghost predicate AllQueued(h: Handler)
  {
    h.past == [] && h.cur.frames == [h.labelFrame] + h.submitted
  }

  lemma MessageQueues(h: Handler, msg: bytes, env: Env)
    requires Proper(Message(msg, env)) && h.connectTime < 0x1_0000_0000 && AllQueued(h) && !h.crashed
    requires !(h.socket == Connecting && env.dial == Refused) && !Step(h, Message(msg, env)).lossy
    ensures AllQueued(Step(h, Message(msg, env))) && Step(h, Message(msg, env)).labelFrame == h.labelFrame
  {
    ConnectTells(h, env);
    var c := Completed(h, env);
    var a := Added(c, msg);
    assert !a.lossy && a == Queued(c, FrameOf(msg, c.connectTime)).(submitted := c.submitted + [FrameOf(msg, c.connectTime)]);
    Regroup([h.labelFrame], h.submitted, [FrameOf(msg, c.connectTime)]);
  }

  lemma StepQueues(h: Handler, i: Input)
    requires Proper(i) && h.connectTime < 0x1_0000_0000 && AllQueued(h) && !h.lossy && !Step(h, i).lossy
    requires !(i.Message? && h.socket == Connecting && i.env.dial == Refused)
    ensures AllQueued(Step(h, i)) && Step(h, i).labelFrame == h.labelFrame
  {
    if h.crashed || i.NewRoot? {
      assert Step(h, i) == h;
    } else {
      MessageQueues(h, i.msg, i.env);
      assert i == Message(i.msg, i.env);
    }
  }

  lemma {:induction false} UndisturbedQueues(h: Handler, inputs: seq<Input>, t: Handler)
    requires forall i :: 0 <= i < |inputs| ==> Proper(inputs[i])
    requires h.connectTime < 0x1_0000_0000 && Run(h, inputs, t) && AllQueued(h) && Undisturbed(h, inputs)
    ensures AllQueued(t) && t.labelFrame == h.labelFrame
    decreases inputs
  {
    if inputs != [] {
      var next := Step(h, inputs[0]);
      assert Undisturbed(next, inputs[1..]);
      StepQueues(h, inputs[0]);
      UndisturbedQueues(next, inputs[1..], t);
    }
  }

  /**
   In every undisturbed run each message is queued, and once the link is open and all was sent, the daemon
   decodes the label and every message, in order.
   */
  lemma DaemonGetsEverything(labelFrame: CalFrame, capacity: nat, expired: bool, dial: Dial, inputs: seq<Input>, t: Handler)
    requires |Encode(labelFrame)| <= capacity && forall i :: 0 <= i < |inputs| ==> Proper(inputs[i])
    requires var h := Initial(labelFrame, capacity, expired, dial); Run(h, inputs, t) && Undisturbed(h, inputs)
    ensures t.past == [] && t.cur.frames == [labelFrame] + t.submitted
    ensures !t.crashed ==> Undated(t.submitted) == Texts(inputs)
    ensures Unsent(t) == 0 ==> Decode(t.cur.got) == [labelFrame] + t.submitted
  {
    var h := Initial(labelFrame, capacity, expired, dial);
    InitialKeeps(labelFrame, capacity, expired, dial);
    RunKeeps(h, inputs, t);
    UndisturbedQueues(h, inputs, t);
    DecodePrefix(t.cur.frames, t.cur.got);
    if !t.crashed {
      RunSubmits(h, inputs, t);
      assert Undated([]) + Texts(inputs) == Texts(inputs);
    }
  }

  /** A message with its thread id behind it, as long as the buffer takes it, is framed unchanged. */
  lemma MessageIsFramed(text: bytes, id: bytes, connectTime: nat)
    requires |id| == 4 && |text| <= BODY_MAX - 2 && connectTime < 0x1_0000_0000
    ensures var f := FrameOf(text + id, connectTime);
            && f.body == text && f.connectTime == connectTime
            && f.threadId == id[0] as int + 0x100 * id[1] as int + 0x1_0000 * id[2] as int + 0x100_0000 * id[3] as int
  {
    assert (text + id)[..|text|] == text && (text + id)[|text|..] == id;
  }

  /** A longer one is cut to the buffer, of which carriage return and line feed take the last two bytes. */
  lemma LongMessageIsCut(text: bytes, id: bytes, connectTime: nat)
    requires |id| == 4 && |text| > BODY_MAX - 2 && connectTime < 0x1_0000_0000
    ensures FrameOf(text + id, connectTime).body == text[..BODY_MAX - 2] + if |text| == BODY_MAX - 1 then [13] else [13, 10]
  {
    assert (text + id)[..|text|] == text;
  }
}
