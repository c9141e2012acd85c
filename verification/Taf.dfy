/** Transparent failover: the filter on the primary's answer, and when the fallback may answer instead. */
module Taf {
  import opened Bytes
  import opened MySQLInts
  import opened Readers
  import opened Seqs
  import Netstrings

  const RC_SQL_ERROR: int := 1

  const RETRIABLE: set<int> := {
    3113, 3114, 3135, 12514, 3128, 3127, 3123, 3111, 3106, 1012, 28, 31, 51, 25400, 25401, 25402, 25403,
    25404, 25405, 25407, 25408, 25409, 25425, 24343, 1041, 600, 700, 7445 }

  /** atoi from util.go: leading digits in 64-bit arithmetic, and how many there are. */
  function Atoi(bf: bytes, value: int): (r: (int, nat))
    requires IsInt64(value)
    ensures r.1 <= |bf|
    decreases bf
  {
    if bf == [] || !IsDigit(bf[0]) then (value, 0)
    else
      var rest := Atoi(bf[1..], Signed64((value * 10 + (bf[0] as int - ZERO as int)) % TWO64));
      (rest.0, rest.1 + 1)
  }

  // What a reply says: an error worth a retry, any other SQL error, or anything else.
  datatype Kind = Retry | Final | Plain

  function KindOf(bf: bytes): Kind
  {
    match Netstrings.Parse(bf)
    case Err(_) => Plain
    case Ok((cmd, payload)) =>
      if cmd != RC_SQL_ERROR then Plain else if Atoi(payload, 0).0 in RETRIABLE then Retry else Final
  }

  /** The digits of the error code in a reply worth a retry. */
  function OraText(bf: bytes): bytes
    requires KindOf(bf) == Retry
  {
    var payload := Netstrings.Parse(bf).value.1;
    payload[..Atoi(payload, 0).1]
  }

  datatype Filter = Filter(ok: bool, dataSent: bool)

  const FRESH := Filter(true, false)

  function Judged(f: Filter, bf: bytes): Filter
  {
    var ok := if f.dataSent || KindOf(bf) == Plain then f.ok else KindOf(bf) == Final;
    Filter(ok, f.dataSent || ok)
  }

  function Run(f: Filter, replies: seq<bytes>): Filter
    decreases replies
  {
    if replies == [] then f else Run(Judged(f, replies[0]), replies[1..])
  }

  /** The bytes that reach the client. */
  function Passed(f: Filter, replies: seq<bytes>): bytes
    decreases replies
  {
    if replies == [] then []
    else
      var g := Judged(f, replies[0]);
      (if g.ok then replies[0] else []) + Passed(g, replies[1..])
  }

  /** The replies from the first one on that is not an error worth a retry. */
  function Forwarded(replies: seq<bytes>): seq<bytes>
  {
    if replies != [] && KindOf(replies[0]) == Retry then FromFinal(replies[1..]) else replies
  }

  // After an error worth a retry, only another kind of SQL error ends the silence.
  function FromFinal(replies: seq<bytes>): seq<bytes>
  {
    if replies == [] || KindOf(replies[0]) == Final then replies else FromFinal(replies[1..])
  }

  lemma {:induction false} AllPass(f: Filter, replies: seq<bytes>)
    requires f.ok && f.dataSent
    ensures Passed(f, replies) == Concat(replies) && Run(f, replies) == f
    decreases replies
  {
    if replies != [] {
      AllPass(f, replies[1..]);
    }
  }

  lemma {:induction false} SilentRun(f: Filter, replies: seq<bytes>)
    requires f == Filter(false, false)
    ensures Passed(f, replies) == Concat(FromFinal(replies))
    ensures var g := Run(f, replies); g.ok == g.dataSent == (FromFinal(replies) != [])
    decreases replies
  {
    if replies != [] {
      if KindOf(replies[0]) == Final {
        AllPass(Filter(true, true), replies[1..]);
      } else {
        SilentRun(f, replies[1..]);
      }
    }
  }

  /** Over every run of replies the filter forwards exactly Forwarded, and its flags tell whether it did. */
  lemma FilterMeaning(replies: seq<bytes>)
    ensures Passed(FRESH, replies) == Concat(Forwarded(replies))
    ensures Run(FRESH, replies).dataSent <==> Forwarded(replies) != []
    ensures Run(FRESH, replies).ok <==> replies == [] || Forwarded(replies) != []
  {
    if replies != [] {
      if KindOf(replies[0]) == Retry {
        SilentRun(Filter(false, false), replies[1..]);
      } else {
        AllPass(Filter(true, true), replies[1..]);
      }
    }
  }

  class Client {
    var got: bytes

    constructor ()
      ensures got == []
    {
      got := [];
    }

    method Write(bf: bytes)
      modifies this
      ensures got == old(got) + bf
    {
      got := got + bf;
    }
  }

  class TafResponsePreproc {
    var ok: bool
    var dataSent: bool
    var ora: bytes
    const conn: Client

    constructor (conn: Client)
      ensures this.conn == conn && Abs() == FRESH
    {
      this.conn, ok, dataSent, ora := conn, true, false, [];
    }

    function Abs(): Filter
      reads this
    {
      Filter(ok, dataSent)
    }

    method Write(bf: bytes) returns (n: nat)
      modifies this, conn
      ensures Abs() == Judged(old(Abs()), bf)
      ensures conn.got == old(conn.got) + if ok then bf else []
      ensures ora == if old(dataSent) || KindOf(bf) != Retry then old(ora) else OraText(bf)
      ensures n == if ok then |bf| else 0
    {
      var reader := new Reader(bf, []);
      var ns := Netstrings.NewNetstring(reader);
      if ns.Ok? {
        if !dataSent {
          if ns.value.cmd == RC_SQL_ERROR {
            var code := Atoi(ns.value.payload, 0);
            if code.0 in RETRIABLE {
              ok := false;
              ora := ns.value.payload[..code.1];
            } else {
              ok := true;
            }
          }
        }
      }
      if ok {
        dataSent := true;
        conn.Write(bf);
        return |bf|;
      }
      return 0;
    }
  }

  // Which bytes of a worker's messages reach the writer: all but the indicator byte of each.
  function Stripped(msgs: seq<bytes>): seq<bytes>
  {
    if msgs == [] then []
    else (if msgs[0] == [] then [] else [msgs[0][1..]]) + Stripped(msgs[1..])
  }

  lemma FilterStep(f: Filter, bf: bytes, rest: seq<bytes>)
    ensures Run(f, [bf] + rest) == Run(Judged(f, bf), rest)
    ensures Passed(f, [bf] + rest) == (if Judged(f, bf).ok then bf else []) + Passed(Judged(f, bf), rest)
  {
    assert ([bf] + rest)[1..] == rest;
  }

  /** The filter with rest still to come stands where it will end up, and so does the client. */
  ghost predicate Halfway(f: Filter, got: bytes, rest: seq<bytes>, before: bytes, msgs: seq<bytes>)
  {
    && Run(f, Stripped(rest)) == Run(FRESH, Stripped(msgs))
    && got + Passed(f, Stripped(rest)) == before + Passed(FRESH, Stripped(msgs))
  }

  lemma HalfwayStep(f: Filter, got: bytes, rest: seq<bytes>, before: bytes, msgs: seq<bytes>)
    requires rest != [] && Halfway(f, got, rest, before, msgs)
    ensures rest[0] == [] ==> Halfway(f, got, rest[1..], before, msgs)
    ensures rest[0] != [] ==>
              var g := Judged(f, rest[0][1..]);
              Halfway(g, got + (if g.ok then rest[0][1..] else []), rest[1..], before, msgs)
  {
    if rest[0] == [] {
      assert Stripped(rest) == Stripped(rest[1..]);
    } else {
      var bf := rest[0][1..];
      FilterStep(f, bf, Stripped(rest[1..]));
      var part := if Judged(f, bf).ok then bf else [];
      Regroup(got, part, Passed(Judged(f, bf), Stripped(rest[1..])));
    }
  }

  lemma HalfwayEnd(f: Filter, got: bytes, before: bytes, msgs: seq<bytes>)
    requires Halfway(f, got, [], before, msgs)
    ensures f == Run(FRESH, Stripped(msgs)) && got == before + Concat(Forwarded(Stripped(msgs)))
  {
    FilterMeaning(Stripped(msgs));
    assert got + [] == got;
  }

  /** Without the filter, what came and what is to come are all the stripped messages. */
  ghost predicate Passing(got: bytes, rest: seq<bytes>, before: bytes, msgs: seq<bytes>)
  {
    got + Concat(Stripped(rest)) == before + Concat(Stripped(msgs))
  }

  lemma PassingStep(got: bytes, rest: seq<bytes>, before: bytes, msgs: seq<bytes>)
    requires rest != [] && Passing(got, rest, before, msgs)
    ensures Passing(if rest[0] == [] then got else got + rest[0][1..], rest[1..], before, msgs)
  {
    if rest[0] == [] {
      assert Stripped(rest) == Stripped(rest[1..]);
    } else {
      ConcatAppend([rest[0][1..]], Stripped(rest[1..]));
      ConcatOne(rest[0][1..]);
      Regroup(got, rest[0][1..], Concat(Stripped(rest[1..])));
    }
  }

  datatype Fault =
    | Fine | ErrTimeout | ErrWorkerFail | ErrSaturationKill | ErrClientFail | ErrCanceled | ErrDML | NoPool
    | Refused(code: int)

  datatype Pool = Primary | Fallback | ReadOnly

  datatype Grant = Grant(pool: Pool, worker: nat, ticket: string)

  // The result of asking a pool for a worker; a refusal comes with an empty ticket.
  datatype Got = Granted(worker: nat, ticket: string) | Denied(fault: Fault)

  // One doRequest: the messages the worker sent, and how it ended.
  datatype Answer = Answer(msgs: seq<bytes>, wait: bool, fault: Fault)

  // What became of a worker under which grant.
  datatype Deal = Returned(grant: Grant) | Recovered(grant: Grant, saturated: bool) | Held(grant: Grant)

  /** The outside world of one session: pools, their workers' answers, and the configuration. */
  datatype World = World(
    primaryExists: bool, fallbackUp: bool, usePrimary: bool, primaryUp: bool, allowDml: bool,
    primary: Got, primaryAnswer: Answer, fallback: Got, fallbackAnswer: Answer,
    readOnly: bool, direct: Got, directAnswer: Answer)
  {
    /** Without a healthy fallback the request is dispatched as usual. */
    predicate AsksDirectly()
    {
      primaryExists && !fallbackUp && direct.Granted?
    }

    function DirectPool(): Pool
    {
      if readOnly then ReadOnly else Primary
    }

    /** The pools whose workers get the request, in order. */
    function Asked(): seq<Pool>
    {
      if AsksDirectly() then [DirectPool()]
      else (if AsksPrimary() then [Primary] else []) + (if AsksFallback() then [Fallback] else [])
    }

    predicate AsksPrimary()
    {
      primaryExists && fallbackUp && usePrimary && primaryUp && primary.Granted?
    }

    /** The primary's answer is discarded: no message of it was forwarded, and it failed in a way worth a retry. */
    predicate Retries()
    {
      && !primaryAnswer.wait
      && Forwarded(Stripped(primaryAnswer.msgs)) == []
      && (primaryAnswer.fault == ErrTimeout
          || (Stripped(primaryAnswer.msgs) != [] && primaryAnswer.fault in {Fine, ErrWorkerFail}))
    }

    predicate TriesFallback()
    {
      primaryExists && fallbackUp && (AsksPrimary() ==> Retries())
    }

    predicate AsksFallback()
    {
      TriesFallback() && fallback.Granted?
    }
  }

  /** What the client gets of the primary's answer. */
  function PrimaryBytes(w: World): bytes
  {
    if w.AsksPrimary() then Concat(Forwarded(Stripped(w.primaryAnswer.msgs))) else []
  }

  function FallbackBytes(w: World): bytes
  {
    if w.AsksFallback() then Concat(Stripped(w.fallbackAnswer.msgs)) else []
  }

  function DirectBytes(w: World): bytes
  {
    if w.AsksDirectly() then Concat(Stripped(w.directAnswer.msgs)) else []
  }

  function ClientBytes(w: World): bytes
  {
    if !w.primaryExists then []
    else if !w.fallbackUp then DirectBytes(w)
    else PrimaryBytes(w) + FallbackBytes(w)
  }

  /** The fallback is asked only when nothing of the primary's answer was forwarded: bytes of one answer only. */
  lemma OneAnswerOnly(w: World)
    ensures w.AsksPrimary() && w.TriesFallback() ==> Forwarded(Stripped(w.primaryAnswer.msgs)) == []
    ensures w.TriesFallback() ==> PrimaryBytes(w) == []
    ensures !w.TriesFallback() ==> FallbackBytes(w) == []
  {
  }

  /** What should become of a granted worker after its answer; a failed worker is gone already. */
  function Due(g: Grant, a: Answer, allowDml: bool): seq<Deal>
  {
    if a.wait then (if allowDml then [Held(g)] else [Recovered(g, false)])
    else match a.fault
      case Fine => [Returned(g)]
      case ErrWorkerFail => []
      case ErrSaturationKill => [Recovered(g, true)]
      case _ => [Recovered(g, false)]
  }

  /** The deals of a session as they should be. */
  function DueDeals(w: World): seq<Deal>
  {
    DirectDeals(w) + PrimaryDeals(w)
    + if w.AsksFallback() then Due(Grant(Fallback, w.fallback.worker, w.fallback.ticket), w.fallbackAnswer, w.allowDml) else []
  }

  /** A usual dispatch holds on to a waiting worker. */
  function DirectDeals(w: World): seq<Deal>
  {
    if w.AsksDirectly() then Due(Grant(w.DirectPool(), w.direct.worker, w.direct.ticket), w.directAnswer, true) else []
  }

  function PrimaryDeals(w: World): seq<Deal>
  {
    if w.AsksPrimary() then Due(Grant(Primary, w.primary.worker, w.primary.ticket), w.primaryAnswer, w.allowDml) else []
  }

  /** A waiting fallback worker is recovered under the primary's pool and ticket. */
  function FallbackDeals(w: World): seq<Deal>
  {
    if FallbackWaits(w) then [Recovered(Grant(Primary, w.fallback.worker, PrimaryTicket(w)), false)]
    else if w.AsksFallback() then Due(Grant(Fallback, w.fallback.worker, w.fallback.ticket), w.fallbackAnswer, w.allowDml)
    else []
  }

  /** The deals as they are. */
  function Deals(w: World): seq<Deal>
  {
    DirectDeals(w) + PrimaryDeals(w) + FallbackDeals(w)
  }

  /** The fallback worker asks to wait while writes are not allowed. */
  predicate FallbackWaits(w: World)
  {
    w.AsksFallback() && w.fallbackAnswer.wait && !w.allowDml
  }

  function PrimaryTicket(w: World): string
  {
    if w.AsksPrimary() then w.primary.ticket else ""
  }

  /** Every granted worker gets its due, under its own pool and ticket, exactly when the fallback does not wait. */
  lemma DealsAreDue(w: World)
    ensures Deals(w) == DueDeals(w) <==> !FallbackWaits(w)
  {
    if FallbackWaits(w) {
      var n := |Deals(w)| - 1;
      assert Deals(w)[n].grant.pool == Primary && DueDeals(w)[n].grant.pool == Fallback;
    }
  }

  // The primary is not used, and the fallback worker asks to wait.
  const ASTRAY := World(
    true, true, false, true, false, Denied(NoPool), Answer([], false, Fine), Granted(7, "t"),
    Answer([], true, Fine), false, Denied(NoPool), Answer([], false, Fine))

  /** Then the fallback's worker is recovered into the primary pool under an empty ticket. */
  lemma FallbackWorkerGoesAstray()
    ensures Deals(ASTRAY) == [Recovered(Grant(Primary, 7, ""), false)]
    ensures DueDeals(ASTRAY) == [Recovered(Grant(Fallback, 7, "t"), false)]
  {
    assert Forwarded(Stripped([])) == [];
  }

  /** How a request ends. */
  function EndOf(a: Answer, allowDml: bool): Fault
  {
    if !a.wait then a.fault else if allowDml then Fine else ErrDML
  }

  function Verdict(w: World): Fault
  {
    if !w.primaryExists then NoPool
    else if !w.fallbackUp then (if w.direct.Denied? then w.direct.fault else EndOf(w.directAnswer, true))
    else if !w.TriesFallback() then EndOf(w.primaryAnswer, w.allowDml)
    else if w.fallback.Denied? then w.fallback.fault
    else EndOf(w.fallbackAnswer, w.allowDml)
  }

  // Messages as workers send them: each is empty, an end without response, or starts with a netstring.
  ghost predicate Framed(msgs: seq<bytes>)
  {
    forall i :: 0 <= i < |msgs| ==> msgs[i] == [] || exists cmd: int, payload, after :: Starts(msgs[i], cmd, payload, after)
  }

  ghost predicate Starts(msg: bytes, cmd: int, payload: bytes, after: bytes)
  {
    msg == Netstrings.NetstringFrom(cmd, payload).serialized + after
  }

  /** A netstring without its indicator byte is a plain reply, whatever it says. */
  lemma StrippedIsPlain(cmd: int, payload: bytes, after: bytes)
    ensures KindOf((Netstrings.NetstringFrom(cmd, payload).serialized + after)[1..]) == Plain
  {
    var body := Netstrings.Body(cmd, payload);
    var d := Decimal(|body|);
    var msg := Netstrings.NetstringFrom(cmd, payload).serialized + after;
    Regroup(Netstrings.Framed(d, body), [COMMA], after);
    Netstrings.FramedParts(d, body, [COMMA] + after);
    assert IsDigit(d[0]) && msg[1..][0] == d[0];
  }

  /** The same reply with its indicator byte is recognised by its code. */
  lemma WholeIsRecognised(payload: bytes, after: bytes)
    ensures KindOf(Netstrings.NetstringFrom(RC_SQL_ERROR, payload).serialized + after)
         == if Atoi(payload, 0).0 in RETRIABLE then Retry else Final
  {
    Netstrings.NetstringReadsBack(RC_SQL_ERROR, payload, after);
  }

  /** The first reply the filter gets from such messages is a plain one. */
  lemma {:induction false} FirstReplyIsPlain(msgs: seq<bytes>)
    requires Framed(msgs)
    ensures Stripped(msgs) != [] ==> KindOf(Stripped(msgs)[0]) == Plain
  {
    if msgs != [] {
      if msgs[0] == [] {
        assert Framed(msgs[1..]) by {
          assert forall i :: 0 <= i < |msgs[1..]| ==> msgs[1..][i] == msgs[i + 1];
        }
        FirstReplyIsPlain(msgs[1..]);
      } else {
        var cmd, payload, after :| Starts(msgs[0], cmd, payload, after);
        StrippedIsPlain(cmd, payload, after);
        assert Stripped(msgs)[0] == msgs[0][1..];
      }
    }
  }

  /** So no error of a worker is ever retried: the fallback is tried after a timeout without any response only. */
  lemma OnlySilentTimeoutsRetry(w: World)
    requires Framed(w.primaryAnswer.msgs)
    ensures w.Retries() <==>
              !w.primaryAnswer.wait && w.primaryAnswer.fault == ErrTimeout && Stripped(w.primaryAnswer.msgs) == []
  {
    FirstReplyIsPlain(w.primaryAnswer.msgs);
  }

  /** Both legs in turn make up the session. */
  lemma InTurn(w: World, got: bytes, asked: seq<Pool>, deals: seq<Deal>)
    requires w.primaryExists && w.fallbackUp
    ensures got + PrimaryBytes(w) + FallbackBytes(w) == got + ClientBytes(w)
    ensures deals + PrimaryDeals(w) + FallbackDeals(w) == deals + Deals(w)
    ensures asked + (if w.AsksPrimary() then [Primary] else []) + (if w.AsksFallback() then [Fallback] else [])
         == asked + w.Asked()
  {
    Regroup(got, PrimaryBytes(w), FallbackBytes(w));
    Regroup(deals, PrimaryDeals(w), FallbackDeals(w));
    assert Deals(w) == PrimaryDeals(w) + FallbackDeals(w);
  }

  lemma NoLegs(w: World)
    requires !w.fallbackUp || !w.primaryExists
    ensures Deals(w) == DirectDeals(w) && ClientBytes(w) == DirectBytes(w)
    ensures !w.primaryExists ==> Deals(w) == [] && ClientBytes(w) == [] && w.Asked() == []
  {
  }

  class Coordinator {
    const conn: Client
    var deals: seq<Deal>
    var asked: seq<Pool>

    constructor (conn: Client)
      ensures this.conn == conn && deals == [] && asked == []
    {
      this.conn, deals, asked := conn, [], [];
    }

    /** doRequest through the filter: each non-empty message without its first byte. */
    method AskPrimary(a: Answer, filter: TafResponsePreproc)
      requires filter.conn == conn && filter.Abs() == FRESH
      modifies filter, conn
      ensures filter.Abs() == Run(FRESH, Stripped(a.msgs))
      ensures conn.got == old(conn.got) + Concat(Forwarded(Stripped(a.msgs)))
    {
      var i := 0;
      ghost var before, rest := conn.got, a.msgs;
      while i < |a.msgs|
        invariant 0 <= i <= |a.msgs| && rest == a.msgs[i..]
        invariant Halfway(filter.Abs(), conn.got, rest, before, a.msgs)
      {
        HalfwayStep(filter.Abs(), conn.got, rest, before, a.msgs);
        rest := rest[1..];
        if |a.msgs[i]| > 0 {
          var _ := filter.Write(a.msgs[i][1..]);
        }
        i := i + 1;
      }
      HalfwayEnd(filter.Abs(), conn.got, before, a.msgs);
    }

    /** doRequest straight to the client. */
    method AskDirectly(a: Answer)
      modifies conn
      ensures conn.got == old(conn.got) + Concat(Stripped(a.msgs))
    {
      var i := 0;
      ghost var before, rest := conn.got, a.msgs;
      while i < |a.msgs|
        invariant 0 <= i <= |a.msgs| && rest == a.msgs[i..]
        invariant Passing(conn.got, rest, before, a.msgs)
      {
        PassingStep(conn.got, rest, before, a.msgs);
        rest := rest[1..];
        if |a.msgs[i]| > 0 {
          conn.Write(a.msgs[i][1..]);
        }
        i := i + 1;
      }
      assert conn.got + [] == conn.got;
    }

    /** The end of a request that did not ask to wait. */
    method PutBack(g: Grant, a: Answer)
      requires !a.wait
      modifies this`deals
      ensures deals == old(deals) + Due(g, a, false)
    {
      if a.fault == Fine {
        deals := deals + [Returned(g)];
      } else if a.fault != ErrWorkerFail {
        if a.fault == ErrSaturationKill {
          deals := deals + [Recovered(g, true)];
        } else {
          deals := deals + [Recovered(g, false)];
        }
      }
    }

    /** The first leg; fallThrough says whether the fallback is to be tried. */
    method TryPrimary(w: World) returns (ticket: string, err: Fault, fallThrough: bool)
      requires w.AsksPrimary()
      modifies this, conn
      ensures (fallThrough <==> w.Retries()) && (!fallThrough ==> err == EndOf(w.primaryAnswer, w.allowDml))
      ensures ticket == w.primary.ticket && asked == old(asked) + [Primary]
      ensures conn.got == old(conn.got) + PrimaryBytes(w) && deals == old(deals) + PrimaryDeals(w)
    {
      ticket := w.primary.ticket;
      var g := Grant(Primary, w.primary.worker, ticket);
      var a := w.primaryAnswer;
      var filter := new TafResponsePreproc(conn);
      asked := asked + [Primary];
      AskPrimary(a, filter);
      FilterMeaning(Stripped(a.msgs));
      if a.wait {
        if w.allowDml {
          deals := deals + [Held(g)];
          return ticket, Fine, false;
        }
        deals := deals + [Recovered(g, false)];
        return ticket, ErrDML, false;
      }
      PutBack(g, a);
      if a.fault == Fine {
        return ticket, Fine, !filter.ok;
      }
      if filter.dataSent {
        return ticket, a.fault, false;
      }
      if a.fault == ErrTimeout {
        return ticket, a.fault, true;
      }
      return ticket, a.fault, a.fault == ErrWorkerFail && !filter.ok;
    }

    /** The second leg. Its wait exit recovers the worker under the primary's pool and ticket. */
    method TryFallback(w: World, ticket: string) returns (err: Fault)
      requires w.fallback.Granted?
      modifies this, conn
      ensures asked == old(asked) + [Fallback] && err == EndOf(w.fallbackAnswer, w.allowDml)
      ensures conn.got == old(conn.got) + Concat(Stripped(w.fallbackAnswer.msgs))
      ensures deals == old(deals) +
                       if w.fallbackAnswer.wait && !w.allowDml
                       then [Recovered(Grant(Primary, w.fallback.worker, ticket), false)]
                       else Due(Grant(Fallback, w.fallback.worker, w.fallback.ticket), w.fallbackAnswer, w.allowDml)
    {
      var g := Grant(Fallback, w.fallback.worker, w.fallback.ticket);
      asked := asked + [Fallback];
      AskDirectly(w.fallbackAnswer);
      if w.fallbackAnswer.wait {
        if w.allowDml {
          deals := deals + [Held(g)];
          return Fine;
        }
        deals := deals + [Recovered(Grant(Primary, w.fallback.worker, ticket), false)];
        return ErrDML;
      }
      PutBack(g, w.fallbackAnswer);
      return w.fallbackAnswer.fault;
    }

    /** What remains to be done when the primary did not answer. */
    method LastPool(w: World, ticket: string) returns (err: Fault)
      requires w.TriesFallback() && ticket == PrimaryTicket(w)
      modifies this, conn
      ensures asked == old(asked) + if w.AsksFallback() then [Fallback] else []
      ensures conn.got == old(conn.got) + FallbackBytes(w)
      ensures deals == old(deals) + FallbackDeals(w) && err == Verdict(w)
    {
      if w.fallback.Denied? {
        return w.fallback.fault;
      }
      err := TryFallback(w, ticket);
    }

    /** The session when both pools can be used. */
    method TwoPools(w: World) returns (err: Fault)
      requires w.primaryExists && w.fallbackUp
      modifies this, conn
      ensures conn.got == old(conn.got) + PrimaryBytes(w) + FallbackBytes(w)
      ensures asked == old(asked) + (if w.AsksPrimary() then [Primary] else [])
                       + (if w.AsksFallback() then [Fallback] else [])
      ensures deals == old(deals) + PrimaryDeals(w) + FallbackDeals(w) && err == Verdict(w)
    {
      OneAnswerOnly(w);
      var ticket := "";
      if w.usePrimary && w.primaryUp {
        if w.primary.Granted? {
          var fallThrough;
          ticket, err, fallThrough := TryPrimary(w);
          if !fallThrough {
            return err;
          }
        }
      }
      err := LastPool(w, ticket);
    }

    /** The usual dispatch, when there is no fallback. */
    method DispatchRequest(w: World) returns (err: Fault)
      requires w.primaryExists && !w.fallbackUp
      modifies this, conn
      ensures conn.got == old(conn.got) + DirectBytes(w) && deals == old(deals) + DirectDeals(w)
      ensures asked == old(asked) + w.Asked() && err == Verdict(w)
    {
      if w.direct.Denied? {
        return w.direct.fault;
      }
      var g := Grant(w.DirectPool(), w.direct.worker, w.direct.ticket);
      asked := asked + [g.pool];
      AskDirectly(w.directAnswer);
      if w.directAnswer.wait {
        deals := deals + [Held(g)];
        return Fine;
      }
      PutBack(g, w.directAnswer);
      return w.directAnswer.fault;
    }

    /**
     A session: the client gets the bytes of ClientBytes, the pools are asked in turn, and the granted
     workers get the deals of Deals.
     */
    method DispatchTAFSession(w: World) returns (err: Fault)
      modifies this, conn
      ensures conn.got == old(conn.got) + ClientBytes(w)
      ensures asked == old(asked) + w.Asked()
      ensures deals == old(deals) + Deals(w) && err == Verdict(w)
    {
      if !w.primaryExists {
        NoLegs(w);
        return NoPool;
      }
      if !w.fallbackUp {
        NoLegs(w);
        err := DispatchRequest(w);
        return;
      }
      InTurn(w, conn.got, asked, deals);
      err := TwoPools(w);
    }
  }
}
