/** The mux's side of one worker: reading its responses, counting requests and recovering it. */
module WorkerClients {
  import opened Bytes
  import opened Codes
  import opened Seqs

  const CMD_CONTROL: nat := 501
  const CMD_EOR: nat := 502
  const RC_STILL_EXECUTING: nat := 7

  // What one read from the worker socket gives.
  datatype Incoming = Netstring(cmd: nat, payload: bytes, serialized: bytes) | MySql | ReadError

  datatype WorkerMsg = WorkerMsg(data: bytes, eor: bool, free: bool, inTransaction: bool, rqId: nat)

  // What a reader of the out channel can tell apart: response bytes and ends of responses.
  datatype Token = Byte(b: byte) | End(free: bool, inTransaction: bool, rqId: nat)

  function Tokens(data: bytes): seq<Token>
  {
    seq(|data|, i requires 0 <= i < |data| => Byte(data[i]))
  }

  /** The out channel as one stream. */
  ghost function Flat(msgs: seq<WorkerMsg>): seq<Token>
  {
    if msgs == [] then []
    else
      var m := msgs[|msgs| - 1];
      Flat(msgs[..|msgs| - 1]) + Tokens(m.data) + if m.eor then [End(m.free, m.inTransaction, m.rqId)] else []
  }

  predicate Readable(f: Incoming)
  {
    f.Netstring? && f.cmd == CMD_EOR ==> |f.payload| >= 3
  }

  function EorCode(payload: bytes): nat
    requires |payload| >= 3
  {
    (payload[0] as int - ZERO as int) % 256
  }

  function EorId(payload: bytes): nat
    requires |payload| >= 3
  {
    (payload[1] as int) * 256 + payload[2] as int
  }

  predicate Stops(f: Incoming)
  {
    f.ReadError? || (f.Netstring? && f.cmd == CMD_CONTROL)
  }

  /** The part of the response stream one frame stands for. */
  ghost function Meaning(f: Incoming): seq<Token>
  {
    if !Readable(f) || !f.Netstring? || f.cmd == CMD_CONTROL then []
    else if f.cmd == CMD_EOR then Tokens(f.payload[3..]) + EndOf(f.payload)
    else Tokens(f.serialized)
  }

  /** The end of response an EOR announces, if it does. */
  ghost function EndOf(payload: bytes): seq<Token>
    requires |payload| >= 3
  {
    var code := EorCode(payload);
    if code == EOR_MORE_INCOMING then []
    else [End(code == EOR_FREE, code == EOR_IN_TRANSACTION || code == EOR_IN_CURSOR_IN_TRANSACTION, EorId(payload))]
  }

  ghost function Meanings(frames: seq<Incoming>): seq<Token>
  {
    if frames == [] then []
    else Meanings(frames[..|frames| - 1]) + Meaning(frames[|frames| - 1])
  }

  /** The worker's status after one frame, and after several. */
  ghost function StatusAfter(s: Status, f: Incoming): Status
  {
    if !Readable(f) || !f.Netstring? || f.cmd == CMD_CONTROL || f.cmd == RC_STILL_EXECUTING then s
    else if f.cmd == CMD_EOR && EorCode(f.payload) == EOR_FREE then Fnsh
    else Wait
  }

  ghost function StatusOf(s: Status, frames: seq<Incoming>): Status
  {
    if frames == [] then s else StatusAfter(StatusOf(s, frames[..|frames| - 1]), frames[|frames| - 1])
  }

  ghost predicate GoesOn(frames: seq<Incoming>)
  {
    forall i :: 0 <= i < |frames| ==> !Stops(frames[i])
  }

  /** Reading ends at the first frame that stops it, or with the frames. */
  ghost predicate ReadUntil(frames: seq<Incoming>, read: nat, ended: bool)
  {
    && read <= |frames|
    && (if ended then 0 < read && Stops(frames[read - 1]) && GoesOn(frames[..read - 1])
        else read == |frames| && GoesOn(frames))
  }

  lemma OneMoreFrame(frames: seq<Incoming>, read: nat, done: seq<Incoming>)
    requires 0 < read <= |frames| && done == frames[..read - 1] && GoesOn(done)
    ensures if Stops(frames[read - 1]) then ReadUntil(frames, read, true) else GoesOn(done + [frames[read - 1]])
  {
  }

  /** After these frames, what was sent and what is buffered make up their meaning. */
  ghost predicate ReadSoFar(flat: seq<Token>, pending: bytes, first: Status, now: Status, done: seq<Incoming>)
  {
    flat + Tokens(pending) == Meanings(done) && now == StatusOf(first, done)
  }

  lemma ReadNothing(first: Status)
    ensures ReadSoFar(Flat([]), [], first, first, [])
  {
    assert Flat([]) == [] && Tokens([]) == [];
  }

  lemma ReadOn(flat: seq<Token>, pending: bytes, flat': seq<Token>, pending': bytes, first: Status, now: Status,
               done: seq<Incoming>, f: Incoming)
    requires ReadSoFar(flat, pending, first, now, done) && Readable(f)
    requires flat' + Tokens(pending') == flat + Tokens(pending) + Meaning(f)
    ensures ReadSoFar(flat', pending', first, StatusAfter(now, f), done + [f])
  {
    assert (done + [f])[..|done|] == done;
  }

  lemma ReadStop(flat: seq<Token>, pending: bytes, flat': seq<Token>, first: Status, now: Status,
                 done: seq<Incoming>, f: Incoming)
    requires ReadSoFar(flat, pending, first, now, done) && Stops(f)
    requires flat' == flat + Tokens(pending)
    ensures ReadSoFar(flat', [], first, now, done + [f])
  {
    assert flat' + Tokens([]) == flat + Tokens(pending) + Meaning(f);
    ReadOn(flat, pending, flat', [], first, now, done, f);
  }

  lemma TokensAppend(a: bytes, b: bytes)
    ensures Tokens(a + b) == Tokens(a) + Tokens(b)
  {
  }

  lemma FlatSnoc(msgs: seq<WorkerMsg>, m: WorkerMsg)
    ensures Flat(msgs + [m]) == Flat(msgs) + Tokens(m.data) + if m.eor then [End(m.free, m.inTransaction, m.rqId)] else []
  {
    assert (msgs + [m])[..|msgs|] == msgs;
  }

  lemma EorMeaning(before: seq<Token>, buffered: bytes, frame: bytes)
    requires |frame| >= 3
    ensures before + Tokens(buffered + frame[3..]) + EndOf(frame)
         == before + Tokens(buffered) + (Tokens(frame[3..]) + EndOf(frame))
    ensures EorCode(frame) == EOR_MORE_INCOMING ==>
              before + Tokens(buffered + frame[3..]) == before + Tokens(buffered) + (Tokens(frame[3..]) + EndOf(frame))
  {
    TokensAppend(buffered, frame[3..]);
    var a, b, c := Tokens(buffered), Tokens(frame[3..]), EndOf(frame);
    assert before + (a + b) + c == before + a + (b + c);
  }

  /** The response bytes a frame brings, as sent by the worker: a data frame whole, an EOR without its three bytes. */
  ghost function Response(f: Incoming): bytes
  {
    if f.Netstring? && f.cmd == CMD_EOR && |f.payload| >= 3 then f.payload[3..]
    else if f.Netstring? && f.cmd != CMD_EOR && f.cmd != CMD_CONTROL then f.serialized
    else []
  }

  ghost function Responses(frames: seq<Incoming>): seq<bytes>
  {
    seq(|frames|, i requires 0 <= i < |frames| => Response(frames[i]))
  }

  /** The bytes and the ends of a stream. */
  ghost function BytesOf(tokens: seq<Token>): bytes
  {
    if tokens == [] then []
    else BytesOf(tokens[..|tokens| - 1]) + var last := tokens[|tokens| - 1]; if last.Byte? then [last.b] else []
  }

  ghost function EndsOf(tokens: seq<Token>): seq<Token>
  {
    if tokens == [] then []
    else EndsOf(tokens[..|tokens| - 1]) + var last := tokens[|tokens| - 1]; if last.Byte? then [] else [last]
  }

  lemma {:induction false} PartsAppend(a: seq<Token>, b: seq<Token>)
    ensures BytesOf(a + b) == BytesOf(a) + BytesOf(b) && EndsOf(a + b) == EndsOf(a) + EndsOf(b)
    decreases b
  {
    if b == [] {
      assert a + b == a;
    } else {
      assert (a + b)[..|a + b| - 1] == a + b[..|b| - 1];
      PartsAppend(a, b[..|b| - 1]);
    }
  }

  lemma {:induction false} PartsOfTokens(data: bytes)
    ensures BytesOf(Tokens(data)) == data && EndsOf(Tokens(data)) == []
    decreases data
  {
    if data != [] {
      assert Tokens(data)[..|data| - 1] == Tokens(data[..|data| - 1]);
      PartsOfTokens(data[..|data| - 1]);
    }
  }

  /** An EOR that ends a response, and what it says of the worker. */
  ghost function Ending(f: Incoming): seq<Token>
  {
    if f.Netstring? && f.cmd == CMD_EOR && |f.payload| >= 3 then EndOf(f.payload) else []
  }

  ghost function Endings(frames: seq<Incoming>): seq<Token>
  {
    if frames == [] then [] else Endings(frames[..|frames| - 1]) + Ending(frames[|frames| - 1])
  }

  lemma FrameCarries(f: Incoming)
    requires Readable(f)
    ensures BytesOf(Meaning(f)) == Response(f) && EndsOf(Meaning(f)) == Ending(f)
  {
    if f.Netstring? && f.cmd == CMD_EOR {
      PartsAppend(Tokens(f.payload[3..]), EndOf(f.payload));
      PartsOfTokens(f.payload[3..]);
      assert EndOf(f.payload) != [] ==> EndOf(f.payload)[..0] == [];
    } else if f.Netstring? {
      PartsOfTokens(f.serialized);
    }
  }

  lemma ResponsesSnoc(frames: seq<Incoming>)
    requires frames != []
    ensures Concat(Responses(frames)) == Concat(Responses(frames[..|frames| - 1])) + Response(frames[|frames| - 1])
  {
    ConcatLast(Responses(frames));
    assert Responses(frames)[..|frames| - 1] == Responses(frames[..|frames| - 1]);
  }

  /**
   The stream of any frames holds the response bytes of all of them, one after the other, and the ends of
   responses their EORs announce.
   */
  lemma {:induction false} StreamCarries(frames: seq<Incoming>)
    requires forall i :: 0 <= i < |frames| ==> Readable(frames[i])
    ensures BytesOf(Meanings(frames)) == Concat(Responses(frames)) && EndsOf(Meanings(frames)) == Endings(frames)
  {
    if frames != [] {
      var front, last := frames[..|frames| - 1], frames[|frames| - 1];
      StreamCarries(front);
      FrameCarries(last);
      PartsAppend(Meanings(front), Meaning(last));
      ResponsesSnoc(frames);
    }
  }

  /** The status the frames leave: finished exactly when the last one that speaks of it is a free EOR. */
  lemma {:induction false} StatusTells(s: Status, frames: seq<Incoming>, k: nat, f: Incoming)
    requires k < |frames| && frames[k] == f && Readable(f) && f.Netstring?
    requires f.cmd != CMD_CONTROL && f.cmd != RC_STILL_EXECUTING
    requires forall i :: k < i < |frames| ==>
               !frames[i].Netstring? || frames[i].cmd == CMD_CONTROL || frames[i].cmd == RC_STILL_EXECUTING
    ensures StatusOf(s, frames) == if f.cmd == CMD_EOR && EorCode(f.payload) == EOR_FREE then Fnsh else Wait
  {
    if k < |frames| - 1 {
      StatusTells(s, frames[..|frames| - 1], k, f);
    }
  }

  /** The EOR payload the worker builds around a response. */
  function EorPayload(code: nat, rqId: nat, response: bytes): bytes
    requires code < 10 && rqId < 0x1_0000
  {
    [(ZERO + code) as byte, (rqId / 256) as byte, (rqId % 256) as byte] + response
  }

  /** The mux reads back the code, the request id and the response the worker put in. */
  lemma EorReadsBack(code: nat, rqId: nat, response: bytes)
    requires code < 10 && rqId < 0x1_0000
    ensures var p := EorPayload(code, rqId, response);
            EorCode(p) == code && EorId(p) == rqId && p[3..] == response
  {
  }

  // What the recovery loop can be woken by, and the status that the reading routine has set meanwhile.
  datatype Wakeup = Timeout(seen: Status) | Closed(seen: Status) | Arrived(msg: WorkerMsg, seen: Status)

  datatype Recovery = AlreadyRunning | NotNeeded | Recycled | Gone | Recovered | Waiting

  class WorkerClient {
    var status: Status
    var rqId: nat
    var isUnderRecovery: bool
    var outCh: seq<WorkerMsg>
    // Terminate was called.
    var terminated: bool
    // The tickets under which the worker was given back to its pool.
    var givenBack: seq<bytes>

    constructor ()
      ensures status == Unset && rqId == 0 && !isUnderRecovery && outCh == [] && !terminated && givenBack == []
    {
      status, rqId, isUnderRecovery, outCh, terminated, givenBack := Unset, 0, false, [], false, [];
    }

    /**
     Reads frames until a read error or a control message; `ended` tells whether one came. As ReadSoFar
     says, what is on the channel and the data still buffered are the response stream of the frames read.
     */
    method DoRead(frames: seq<Incoming>) returns (read: nat, pending: bytes, ended: bool)
      requires forall i :: 0 <= i < |frames| ==> Readable(frames[i])
      modifies this`status, this`outCh
      ensures ReadUntil(frames, read, ended) && (ended ==> pending == [])
      ensures ReadSoFar(Flat(outCh), pending, old(status), status, frames[..read])
    {
      outCh, read, pending := [], 0, [];
      ghost var first, done := status, [];
      ReadNothing(status);
      while read < |frames|
        invariant 0 <= read <= |frames| && done == frames[..read] && GoesOn(done)
        invariant ReadSoFar(Flat(outCh), pending, first, status, done)
      {
        var f := frames[read];
        read := read + 1;
        assert frames[..read] == done + [f];
        OneMoreFrame(frames, read, done);
        if Stops(f) {
          pending := OnStop(f, pending, first, done);
          return read, pending, true;
        }
        pending := OnFrame(f, pending, first, done);
        done := done + [f];
      }
      assert done == frames;
      ended := false;
    }

    /** A frame that ends the reading. */
    method OnStop(f: Incoming, buffered: bytes, ghost first: Status, ghost done: seq<Incoming>) returns (pending: bytes)
      requires Readable(f) && Stops(f) && ReadSoFar(Flat(outCh), buffered, first, status, done)
      modifies this`outCh
      ensures pending == [] && ReadSoFar(Flat(outCh), pending, first, status, done + [f])
    {
      ghost var flat := Flat(outCh);
      pending := FlushPending(buffered);
      ReadStop(flat, buffered, Flat(outCh), first, status, done, f);
    }

    /** One that does not. */
    method OnFrame(f: Incoming, buffered: bytes, ghost first: Status, ghost done: seq<Incoming>) returns (pending: bytes)
      requires Readable(f) && !Stops(f) && ReadSoFar(Flat(outCh), buffered, first, status, done)
      modifies this`status, this`outCh
      ensures ReadSoFar(Flat(outCh), pending, first, status, done + [f])
    {
      ghost var flat, before := Flat(outCh), status;
      pending := Interpret(f, buffered);
      ReadOn(flat, buffered, Flat(outCh), pending, first, before, done, f);
    }

    /** The switch over one frame; other than netstrings are passed over. */
    method Interpret(f: Incoming, buffered: bytes) returns (pending: bytes)
      requires Readable(f) && !Stops(f)
      modifies this`status, this`outCh
      ensures Flat(outCh) + Tokens(pending) == Flat(old(outCh)) + Tokens(buffered) + Meaning(f)
      ensures status == StatusAfter(old(status), f)
    {
      pending := buffered;
      if f.Netstring? {
        if f.cmd == CMD_EOR {
          pending := OnEor(f.payload, pending);
        } else {
          if f.cmd != RC_STILL_EXECUTING {
            status := Wait;
          }
          pending := FlushPending(pending);
          FlatSnoc(outCh, WorkerMsg(f.serialized, false, false, false, 0));
          outCh := outCh + [WorkerMsg(f.serialized, false, false, false, 0)];
        }
      }
    }

    method FlushPending(payload: bytes) returns (rest: bytes)
      modifies this`outCh
      ensures rest == [] && Flat(outCh) == Flat(old(outCh)) + Tokens(payload)
    {
      if |payload| > 0 {
        FlatSnoc(outCh, WorkerMsg(payload, false, false, false, 0));
        outCh := outCh + [WorkerMsg(payload, false, false, false, 0)];
      }
      rest := [];
    }

    method OnEor(frame: bytes, buffered: bytes) returns (payload: bytes)
      requires |frame| >= 3
      modifies this`status, this`outCh
      ensures Flat(outCh) + Tokens(payload) == Flat(old(outCh)) + Tokens(buffered) + (Tokens(frame[3..]) + EndOf(frame))
      ensures status == if EorCode(frame) == EOR_FREE then Fnsh else Wait
    {
      payload := Joined(buffered, frame[3..]);
      EorMeaning(Flat(outCh), buffered, frame);
      var eor := EorCode(frame);
      status := if eor == EOR_FREE then Fnsh else Wait;
      if eor != EOR_MORE_INCOMING {
        var msg := WorkerMsg(payload, true, eor == EOR_FREE,
                             eor == EOR_IN_TRANSACTION || eor == EOR_IN_CURSOR_IN_TRANSACTION, EorId(frame));
        FlatSnoc(outCh, msg);
        outCh := outCh + [msg];
        payload := [];
      }
    }

    method Joined(buffered: bytes, more: bytes) returns (payload: bytes)
      ensures payload == buffered + more
    {
      payload := buffered;
      if |payload| == 0 {
        payload := more;
      } else if |more| > 0 {
        payload := payload + more;
      }
    }

    /** Counts the commands of one message to the worker; the count stands even if the write fails. */
    method Write(nsCount: nat, connected: bool, writeOk: bool) returns (ok: bool)
      modifies this`status, this`rqId, this`terminated
      ensures status == Busy && rqId == (old(rqId) + nsCount) % 0x1_0000
      ensures ok <==> connected && writeOk
      ensures terminated == (old(terminated) || (connected && !writeOk))
    {
      status := Busy;
      rqId := (rqId + nsCount) % 0x1_0000;
      if !connected {
        return false;
      }
      if !writeOk {
        terminated := true;
      }
      return writeOk;
    }

    ghost predicate Accepting(u: Wakeup)
      reads this
    {
      u.Arrived? && u.msg.free && u.msg.rqId == rqId
    }

    /** Wake-ups that the recovery loop sleeps through. */
    ghost predicate Skipped(wakeups: seq<Wakeup>, n: nat)
      requires n <= |wakeups|
      reads this
    {
      forall i :: 0 <= i < n ==> wakeups[i].Arrived? && !Accepting(wakeups[i])
    }

    /** How a recovery that was begun ends at its n-th wake-up, or that it goes on. */
    ghost predicate EndsAt(wakeups: seq<Wakeup>, r: Recovery, n: nat)
      reads this
    {
      && n <= |wakeups|
      && (if r == Waiting then n == |wakeups| && Skipped(wakeups, n)
          else
            && 0 < n && Skipped(wakeups, n - 1)
            && (r == Recovered <==> Accepting(wakeups[n - 1]))
            && (r == Recycled <==> wakeups[n - 1].Timeout?) && (r == Gone <==> wakeups[n - 1].Closed?))
    }

    /** The status it leaves: the reading routine's last word, unless the worker was taken back. */
    ghost function StatusLeft(wakeups: seq<Wakeup>, r: Recovery, n: nat): Status
      requires n <= |wakeups|
    {
      if r == Recovered then Fnsh else if n == 0 then Quce else wakeups[n - 1].seen
    }

    /**
     One recovery at a time, none for an idle worker. Only a free EOR with the mux's own id gives the worker
     back to the pool, under the recovery's ticket; a timeout terminates it.
     */
    method Recover(ticket: bytes, wakeups: seq<Wakeup>) returns (r: Recovery, n: nat)
      modifies this`status, this`isUnderRecovery, this`terminated, this`givenBack
      ensures isUnderRecovery == (old(isUnderRecovery) || r == Waiting)
      ensures r == AlreadyRunning <==> old(isUnderRecovery)
      ensures r == NotNeeded <==> !old(isUnderRecovery) && old(status) == Acpt
      ensures r == AlreadyRunning || r == NotNeeded ==> n == 0 && status == old(status)
      ensures r != AlreadyRunning && r != NotNeeded ==> EndsAt(wakeups, r, n) && status == StatusLeft(wakeups, r, n)
      ensures givenBack == old(givenBack) + if r == Recovered then [ticket] else []
      ensures terminated == (old(terminated) || r == Recycled)
    {
      n := 0;
      if isUnderRecovery {
        return AlreadyRunning, 0;
      }
      isUnderRecovery := true;
      if status == Acpt {
        r := NotNeeded;
      } else {
        status := Quce;
        r, n := AwaitFree(ticket, wakeups);
      }
      isUnderRecovery := r == Waiting;
    }

    method AwaitFree(ticket: bytes, wakeups: seq<Wakeup>) returns (r: Recovery, n: nat)
      requires status == Quce
      modifies this`status, this`terminated, this`givenBack
      ensures r in {Recycled, Gone, Recovered, Waiting} && EndsAt(wakeups, r, n)
      ensures status == StatusLeft(wakeups, r, n)
      ensures givenBack == old(givenBack) + if r == Recovered then [ticket] else []
      ensures terminated == (old(terminated) || r == Recycled)
    {
      n := 0;
      while n < |wakeups|
        invariant 0 <= n <= |wakeups| && Skipped(wakeups, n)
        invariant status == StatusLeft(wakeups, Waiting, n)
        invariant givenBack == old(givenBack) && terminated == old(terminated)
      {
        var u := wakeups[n];
        status := u.seen;
        n := n + 1;
        if u.Timeout? {
          terminated := true;
          return Recycled, n;
        }
        if u.Closed? {
          return Gone, n;
        }
        if u.msg.free && u.msg.rqId == rqId {
          status := Fnsh;
          givenBack := givenBack + [ticket];
          return Recovered, n;
        }
      }
      r := Waiting;
    }
  }
}
