/** From the worker's EOR to the mux taking it back: the protocol's result, seen through the bytes in between. */
module Recoveries {
  import opened Bytes
  import opened Codes
  import opened CmdProcessors
  import opened Protocol
  import opened WorkerClients

  predicate Sendable(m: Message)
  {
    m.code < 10 && m.rqId < WRAP
  }

  // An EOR as the mux reads it: the payload the worker packed around a response.
  function FrameFor(m: Message, response: bytes): (f: Incoming)
    requires Sendable(m)
    ensures Readable(f) && !Stops(f)
  {
    var payload := EorPayload(m.code, m.rqId, response);
    Netstring(CMD_EOR, payload, payload)
  }

  function EndFor(m: Message): seq<Token>
  {
    if m.code == EOR_MORE_INCOMING then []
    else [End(m.code == EOR_FREE, m.code == EOR_IN_TRANSACTION || m.code == EOR_IN_CURSOR_IN_TRANSACTION, m.rqId)]
  }

  /** The mux reads the response bytes and then the end that the worker meant. */
  lemma FrameTells(m: Message, response: bytes)
    requires Sendable(m)
    ensures Meaning(FrameFor(m, response)) == Tokens(response) + EndFor(m)
  {
    EorReadsBack(m.code, m.rqId, response);
  }

  function FramesFor(ms: seq<Message>, responses: seq<bytes>): (fs: seq<Incoming>)
    requires |ms| == |responses| && forall i :: 0 <= i < |ms| ==> Sendable(ms[i])
    ensures |fs| == |ms| && forall i :: 0 <= i < |fs| ==> Readable(fs[i]) && !Stops(fs[i])
  {
    seq(|ms|, i requires 0 <= i < |ms| => FrameFor(ms[i], responses[i]))
  }

  ghost function EndsFor(ms: seq<Message>): seq<Token>
  {
    if ms == [] then [] else EndsFor(ms[..|ms| - 1]) + EndFor(ms[|ms| - 1])
  }

  lemma EndAlone(m: Message)
    ensures EndsOf(EndFor(m)) == EndFor(m) && BytesOf(EndFor(m)) == []
  {
    if EndFor(m) != [] {
      assert EndFor(m)[..0] == [];
    }
  }

  lemma MeaningsSnoc(ms: seq<Message>, responses: seq<bytes>)
    requires 0 < |ms| == |responses| && forall i :: 0 <= i < |ms| ==> Sendable(ms[i])
    ensures var n := |ms| - 1;
            Meanings(FramesFor(ms, responses))
            == Meanings(FramesFor(ms[..n], responses[..n])) + Meaning(FrameFor(ms[n], responses[n]))
  {
    var n := |ms| - 1;
    var fs := FramesFor(ms, responses);
    assert fs[..n] == FramesFor(ms[..n], responses[..n]) && fs[n] == FrameFor(ms[n], responses[n]);
  }

  lemma PartsOfFrame(m: Message, response: bytes)
    requires Sendable(m)
    ensures var tokens := Meaning(FrameFor(m, response)); EndsOf(tokens) == EndFor(m) && BytesOf(tokens) == response
  {
    FrameTells(m, response);
    PartsAppend(Tokens(response), EndFor(m));
    PartsOfTokens(response);
    EndAlone(m);
  }

  lemma StreamStep(ms: seq<Message>, responses: seq<bytes>)
    requires 0 < |ms| == |responses| && forall i :: 0 <= i < |ms| ==> Sendable(ms[i])
    ensures var n := |ms| - 1;
            var all, before := Meanings(FramesFor(ms, responses)), Meanings(FramesFor(ms[..n], responses[..n]));
            EndsOf(all) == EndsOf(before) + EndFor(ms[n]) && BytesOf(all) == BytesOf(before) + responses[n]
  {
    var n := |ms| - 1;
    MeaningsSnoc(ms, responses);
    PartsOfFrame(ms[n], responses[n]);
    PartsAppend(Meanings(FramesFor(ms[..n], responses[..n])), Meaning(FrameFor(ms[n], responses[n])));
  }

  lemma {:induction false} StreamBytes(ms: seq<Message>, responses: seq<bytes>)
    requires |ms| == |responses| && forall i :: 0 <= i < |ms| ==> Sendable(ms[i])
    ensures BytesOf(Meanings(FramesFor(ms, responses))) == Concat(responses)
  {
    if ms != [] {
      var n := |ms| - 1;
      StreamBytes(ms[..n], responses[..n]);
      StreamStep(ms, responses);
      ConcatLast(responses);
    }
  }

  lemma {:induction false} StreamEnds(ms: seq<Message>, responses: seq<bytes>)
    requires |ms| == |responses| && forall i :: 0 <= i < |ms| ==> Sendable(ms[i])
    ensures EndsOf(Meanings(FramesFor(ms, responses))) == EndsFor(ms)
  {
    if ms != [] {
      StreamEnds(ms[..|ms| - 1], responses[..|ms| - 1]);
      StreamStep(ms, responses);
    }
  }

  /**
   What the mux reads of a stream of EORs: the responses whole, one after the other, and the ends the worker
   sent, in order, without the "more incoming" ones.
   */
  lemma StreamTells(ms: seq<Message>, responses: seq<bytes>)
    requires |ms| == |responses| && forall i :: 0 <= i < |ms| ==> Sendable(ms[i])
    ensures EndsOf(Meanings(FramesFor(ms, responses))) == EndsFor(ms)
    ensures BytesOf(Meanings(FramesFor(ms, responses))) == Concat(responses)
  {
    StreamEnds(ms, responses);
    StreamBytes(ms, responses);
  }

  /** The message with which the reading routine ends a response. */
  ghost predicate Announces(msg: WorkerMsg, m: Message)
  {
    msg.eor && EndFor(m) == [End(msg.free, msg.inTransaction, msg.rqId)]
  }

  /**
   In every interleaving: the message of the EOR at hand makes the recovery loop take the worker back if and
   only if the protocol accepts that EOR; and if the EOR answers the last command, the worker is then quiet.
   */
  lemma RecoveredMeansQuiet(acts: seq<Act>, s: System, client: WorkerClient, msg: WorkerMsg, seen: Status)
    requires Reaches(START, acts, s) && s.toMux != [] && Announces(msg, s.toMux[0]) && client.rqId == s.muxId
    ensures Sendable(s.toMux[0])
    ensures client.Accepting(Arrived(msg, seen)) <==> Accepts(s)
    ensures client.Accepting(Arrived(msg, seen)) && s.toMux[0].at.taken == s.written ==> Quiet(s)
  {
    RunKeeps(START, acts, s);
    assert Faithful(s, s.toMux[0]);
    if Accepts(s) {
      AcceptedMeansQuiet(acts, s);
    }
  }
}
