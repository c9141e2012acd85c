/**
 The request-id protocol between the mux and one worker process. The mux counts the commands it
 wrote, the worker those it consumed, both in uint16; an EOR carries the worker's count, and a
 recovering mux sends a signal and takes the worker back on an EOR that says free with the mux's own count.
 */
module Protocol {
  import opened CmdProcessors
  import opened Codes

  const WRAP: nat := 0x1_0000
  const CHANNEL: nat := 10

  // An entry of the worker's command channel; the reader queues Broken for a failed read.
  datatype Item = Command(cmd: Cmd) | Broken

  // The worker's history when it sent an EOR: commands and broken entries counted, signals sent to it
  // so far, and how many of those it had not noticed yet.
  datatype Stamp = Stamp(taken: nat, phantoms: nat, signals: nat, owed: nat)

  // An EOR on its way to the mux, with its history.
  datatype Message = Message(code: nat, rqId: nat, at: Stamp)

  datatype Mode = Idle | Working(cmd: Cmd) | Draining | Rolling | Exited

  /**
   Both ends and what is between them. `pending` counts the signals the worker has not noticed. History:
   commands written by the mux, commands and broken entries counted by the worker, commands that
   never reached the channel, commands drained without being processed, and signals sent.
   */
  datatype System = System(
    muxId: nat, wire: seq<Cmd>, chan: seq<Item>, proc: Proc, mode: Mode, toMux: seq<Message>, pending: nat,
    written: nat, taken: nat, phantoms: nat, lost: nat, drained: nat, signals: nat)

  datatype Act =
    | Write(cmds: seq<Cmd>, delivered: nat)   // WorkerClient.Write, possibly cut short by a write error
    | Kill(merged: bool)                      // Recover sends SIGHUP, which may merge with a pending one
    | Move                                    // the reader queues the next command
    | ReadError(dropped: nat, logged: bool)   // the reader fails, losing some commands; logging it is fatal
    | Take                                    // the main loop receives from the channel
    | Run(w: World, shutdown: bool)           // and processes what it received
    | Signal                                  // SIGHUP reaches the main loop
    | DrainOne | DrainEnd | RollBack(rw: World)
    | Stop                                    // SIGTERM
    | Deliver                                 // the mux takes the next EOR

  const START: System := System(0, [], [], FRESH, Idle, [], 0, 0, 0, 0, 0, 0, 0)

  ghost predicate Enabled(s: System, a: Act)
  {
    match a
    case Write(cmds, delivered) => delivered <= |cmds|
    case Kill(_) => true
    case Move => s.wire != [] && |s.chan| < CHANNEL
    case ReadError(dropped, logged) => dropped <= |s.wire| && |s.chan| < CHANNEL
    case Take => s.mode.Idle? && s.chan != []
    case Run(w, _) => s.mode.Working? && w.more == (s.chan != [])
    case Signal => s.mode.Idle? && s.pending > 0
    case DrainOne => s.mode.Draining? && s.chan != []
    case DrainEnd => s.mode.Draining? && s.chan == []
    case RollBack(w) => s.mode.Rolling? && w.more == (s.chan != [])
    case Stop => s.mode.Idle?
    case Deliver => s.toMux != []
  }

  /** The EORs among the frames sent, with the worker's history. */
  ghost function Stamped(out: seq<Frame>, at: Stamp): (r: seq<Message>)
    ensures forall i :: 0 <= i < |r| ==> r[i].at == at && Eor(r[i].code, r[i].rqId) in out
  {
    if out == [] then []
    else (if out[0].Eor? then [Message(out[0].code, out[0].rqId, at)] else []) + Stamped(out[1..], at)
  }

  ghost function Now(s: System): Stamp
  {
    Stamp(s.taken, s.phantoms, s.signals, s.pending)
  }

  /** Receiving one channel entry: the counter moves whatever the entry is. */
  ghost function Count(s: System): System
    requires s.chan != []
  {
    s.(chan := s.chan[1..], proc := Numbered(s.proc),
       taken := if s.chan[0].Command? then s.taken + 1 else s.taken,
       phantoms := if s.chan[0].Broken? then s.phantoms + 1 else s.phantoms)
  }

  ghost function Processed(s: System, cmd: Cmd, w: World, shutdown: bool): System
  {
    var r := Process(s.proc, cmd, w);
    s.(proc := r.proc, toMux := s.toMux + Stamped(r.out, Now(s)),
       mode := if r.ending == Done && !shutdown then Idle else Exited)
  }

  ghost function Do(s: System, a: Act): System
    requires Enabled(s, a)
  {
    match a
    case Write(cmds, delivered) =>
      s.(muxId := (s.muxId + |cmds|) % WRAP, wire := s.wire + cmds[..delivered],
         written := s.written + |cmds|, lost := s.lost + |cmds| - delivered)
    case Kill(merged) =>
      s.(pending := if merged && s.pending > 0 then s.pending else s.pending + 1, signals := s.signals + 1)
    case Move => s.(wire := s.wire[1..], chan := s.chan + [Command(s.wire[0])])
    case ReadError(dropped, logged) =>
      var t := s.(wire := s.wire[dropped..], lost := s.lost + dropped);
      if logged then t.(mode := Exited) else t.(chan := s.chan + [Broken])
    case Take => Count(s).(mode := if s.chan[0].Command? then Working(s.chan[0].cmd) else Exited)
    case Run(w, shutdown) => Processed(s, s.mode.cmd, w, shutdown)
    case Signal => s.(mode := Draining, pending := s.pending - 1)
    case DrainOne => Count(s).(drained := s.drained + if s.chan[0].Command? then 1 else 0)
    case DrainEnd => s.(mode := Rolling)
    case RollBack(w) => Processed(s, Rollback, w, false)
    case Stop => s.(mode := Exited)
    case Deliver => s.(toMux := s.toMux[1..])
  }

  ghost predicate Reaches(s: System, acts: seq<Act>, t: System)
    decreases acts
  {
    if acts == [] then t == s
    else Enabled(s, acts[0]) && Reaches(Do(s, acts[0]), acts[1..], t)
  }

  ghost function Commands(chan: seq<Item>): nat
  {
    if chan == [] then 0 else Commands(chan[1..]) + if chan[0].Command? then 1 else 0
  }

  /** The worker will not notice a signal any more, nor is it still acting on one. */
  ghost predicate Steady(s: System)
  {
    s.pending == 0 && !s.mode.Draining?
  }

  /**
   An EOR in transit: its id is the count at sending; while no command followed, it still describes the
   worker; and if every signal was noticed before it was sent and none followed, the worker is steady.
   */
  ghost predicate Faithful(s: System, m: Message)
  {
    && m.code in {EOR_FREE, EOR_IN_TRANSACTION, EOR_MORE_INCOMING}
    && m.rqId == (m.at.taken + m.at.phantoms) % WRAP
    && m.at.taken <= s.taken && m.at.phantoms <= s.phantoms && m.at.signals <= s.signals
    && (m.code == EOR_FREE && m.at.taken == s.taken ==> !s.proc.inTrans && !s.mode.Working?)
    && (m.at.owed == 0 && m.at.signals == s.signals ==> Steady(s))
  }

  ghost predicate Inv(s: System)
  {
    && s.muxId == s.written % WRAP
    && s.proc.rqId == (s.taken + s.phantoms) % WRAP
    && s.taken + Commands(s.chan) + |s.wire| + s.lost == s.written
    && Sound(s.proc)
    && forall i :: 0 <= i < |s.toMux| ==> Faithful(s, s.toMux[i])
  }

  lemma {:induction false} CommandsSnoc(chan: seq<Item>, x: Item)
    ensures Commands(chan + [x]) == Commands(chan) + if x.Command? then 1 else 0
  {
    if chan == [] {
      assert chan + [x] == [x];
      assert [x][1..] == [];
    } else {
      assert (chan + [x])[1..] == chan[1..] + [x];
      CommandsSnoc(chan[1..], x);
    }
  }

  /** Steps that touch neither the processor nor the counters keep every EOR in transit faithful. */
  lemma StillFaithful(s: System, t: System)
    requires forall i :: 0 <= i < |s.toMux| ==> Faithful(s, s.toMux[i])
    requires t.toMux == s.toMux && t.proc == s.proc && t.taken == s.taken && t.phantoms == s.phantoms
    requires t.mode.Working? ==> s.mode.Working?
    requires t.signals > s.signals || (t.signals == s.signals && (Steady(s) ==> Steady(t)))
    ensures forall i :: 0 <= i < |t.toMux| ==> Faithful(t, t.toMux[i])
  {
    forall i | 0 <= i < |t.toMux|
      ensures Faithful(t, t.toMux[i])
    {
      assert Faithful(s, s.toMux[i]);
    }
  }

  lemma NewFaithful(s: System, cmd: Cmd, w: World, shutdown: bool, m: Message)
    requires Inv(s) && (s.mode.Working? || s.mode.Rolling?)
    requires m in Stamped(Process(s.proc, cmd, w).out, Now(s))
    ensures Faithful(Processed(s, cmd, w, shutdown), m)
  {
    CommandKeeps(s.proc, cmd, w);
    assert Eor(m.code, m.rqId) in Process(s.proc, cmd, w).out;
  }

  lemma OldFaithful(s: System, cmd: Cmd, w: World, shutdown: bool, m: Message)
    requires Inv(s) && Faithful(s, m) && (s.mode == Working(cmd) || (s.mode.Rolling? && cmd.Rollback?))
    ensures Faithful(Processed(s, cmd, w, shutdown), m)
  {
    CommandKeeps(s.proc, cmd, w);
  }

  lemma ProcessedKeeps(s: System, cmd: Cmd, w: World, shutdown: bool)
    requires Inv(s)
    requires s.mode == Working(cmd) || (s.mode.Rolling? && cmd.Rollback?)
    ensures Inv(Processed(s, cmd, w, shutdown))
  {
    CommandKeeps(s.proc, cmd, w);
    var t := Processed(s, cmd, w, shutdown);
    forall i | 0 <= i < |t.toMux|
      ensures Faithful(t, t.toMux[i])
    {
      if i < |s.toMux| {
        OldFaithful(s, cmd, w, shutdown, s.toMux[i]);
      } else {
        NewFaithful(s, cmd, w, shutdown, t.toMux[i]);
      }
    }
  }

  lemma CountKeeps(s: System, mode: Mode, drained: nat)
    requires Inv(s) && s.chan != [] && (s.mode.Idle? || s.mode.Draining?)
    requires mode.Working? ==> s.chan[0].Command?
    requires mode.Draining? ==> s.mode.Draining?
    ensures Inv(Count(s).(mode := mode, drained := drained))
  {
    var t := Count(s).(mode := mode, drained := drained);
    forall i | 0 <= i < |t.toMux|
      ensures Faithful(t, t.toMux[i])
    {
      assert Faithful(s, s.toMux[i]);
    }
  }

  lemma WireKeeps(s: System, a: Act)
    requires Inv(s) && Enabled(s, a) && (a.Write? || a.Move? || a.ReadError?)
    ensures Inv(Do(s, a))
  {
    if a.Move? {
      CommandsSnoc(s.chan, Command(s.wire[0]));
    } else if a.ReadError? {
      CommandsSnoc(s.chan, Broken);
    }
    StillFaithful(s, Do(s, a));
  }

  lemma StepKeeps(s: System, a: Act)
    requires Inv(s) && Enabled(s, a)
    ensures Inv(Do(s, a))
  {
    match a
    case Write(_, _) => WireKeeps(s, a);
    case Move => WireKeeps(s, a);
    case ReadError(_, _) => WireKeeps(s, a);
    case Run(w, shutdown) => ProcessedKeeps(s, s.mode.cmd, w, shutdown);
    case RollBack(w) => ProcessedKeeps(s, Rollback, w, false);
    case Take => CountKeeps(s, if s.chan[0].Command? then Working(s.chan[0].cmd) else Exited, s.drained);
    case DrainOne => CountKeeps(s, Draining, s.drained + if s.chan[0].Command? then 1 else 0);
    case Deliver =>
      var t := Do(s, a);
      forall i | 0 <= i < |t.toMux|
        ensures Faithful(t, t.toMux[i])
      {
        assert t.toMux[i] == s.toMux[i + 1] && Faithful(s, s.toMux[i + 1]);
      }
    case _ => StillFaithful(s, Do(s, a));
  }

  lemma {:induction false} RunKeeps(s: System, acts: seq<Act>, t: System)
    requires Inv(s) && Reaches(s, acts, t)
    ensures Inv(t)
    decreases acts
  {
    if acts != [] {
      StepKeeps(s, acts[0]);
      RunKeeps(Do(s, acts[0]), acts[1..], t);
    }
  }

  /** The mux is recovering and the next message makes it take the worker back. */
  ghost predicate Accepts(s: System)
  {
    s.toMux != [] && s.toMux[0].code == EOR_FREE && s.toMux[0].rqId == s.muxId
  }

  /** Everything the mux wrote was consumed, nothing is on its way, no command is being worked on, no transaction is open. */
  ghost predicate Quiet(s: System)
  {
    && s.taken == s.written && s.lost == 0
    && s.wire == [] && Commands(s.chan) == 0
    && !s.mode.Working? && !s.proc.inTrans
  }

  /**
   In every interleaving: when the mux accepts, the EOR answers the last command it wrote exactly when
   the worker counted no broken entry (modulo the wrap) and fewer than 2^16 commands followed the EOR;
   and then the whole system is quiet.
   */
  lemma AcceptedMeansQuiet(acts: seq<Act>, s: System)
    requires Reaches(START, acts, s) && Accepts(s)
    ensures var at := s.toMux[0].at;
            && (at.taken == s.written <==> at.phantoms % WRAP == 0 && s.written - at.taken < WRAP)
            && (at.taken == s.written ==> Quiet(s))
  {
    RunKeeps(START, acts, s);
    var m := s.toMux[0];
    assert Faithful(s, m);
    SameResidue(m.at.taken, m.at.phantoms, s.written);
  }

  lemma SameResidue(a: nat, b: nat, c: nat)
    requires a <= c && (a + b) % WRAP == c % WRAP
    ensures a == c <==> b % WRAP == 0 && c - a < WRAP
  {
  }

  /** As long as reads succeed and the wrap-around is not reached, taking the worker back is safe. */
  lemma RecoveryIsSafe(acts: seq<Act>, s: System)
    requires Reaches(START, acts, s) && Accepts(s)
    requires forall i :: 0 <= i < |acts| ==> !acts[i].ReadError?
    requires s.written - s.toMux[0].at.taken < WRAP
    ensures Quiet(s)
  {
    NoPhantoms(START, acts, s);
    RunKeeps(START, acts, s);
    assert Faithful(s, s.toMux[0]);
    AcceptedMeansQuiet(acts, s);
  }

  ghost predicate Unbroken(s: System)
  {
    s.phantoms == 0 && forall i :: 0 <= i < |s.chan| ==> s.chan[i].Command?
  }

  lemma {:induction false} NoPhantoms(s: System, acts: seq<Act>, t: System)
    requires Unbroken(s) && Reaches(s, acts, t)
    requires forall i :: 0 <= i < |acts| ==> !acts[i].ReadError?
    ensures t.phantoms == 0
    decreases acts
  {
    if acts != [] {
      assert Unbroken(Do(s, acts[0]));
      NoPhantoms(Do(s, acts[0]), acts[1..], t);
    }
  }
}

/** What becomes of the commands written after a recovery, and runs in which the protocol fails. */
module ProtocolRuns {
  import opened CmdProcessors
  import opened Codes
  import opened Protocol

  ghost predicate NoKills(acts: seq<Act>)
  {
    forall i :: 0 <= i < |acts| ==> !acts[i].Kill?
  }

  /** A steady worker drains nothing until it gets another signal. */
  lemma {:induction false} SteadyDrainsNothing(s: System, acts: seq<Act>, t: System)
    requires Steady(s) && Reaches(s, acts, t) && NoKills(acts)
    ensures t.drained == s.drained
    decreases acts
  {
    if acts != [] {
      assert !acts[0].Kill? && Steady(Do(s, acts[0]));
      SteadyDrainsNothing(Do(s, acts[0]), acts[1..], t);
    }
  }

  /** A run with one more step in front. */
  lemma Prefixed(s: System, a: Act, acts: seq<Act>, t: System) returns (longer: seq<Act>)
    requires Enabled(s, a) && Reaches(Do(s, a), acts, t)
    ensures Reaches(s, longer, t) && (NoKills(acts) && !a.Kill? ==> NoKills(longer))
  {
    longer := [a] + acts;
    assert longer[1..] == acts;
  }

  lemma Stay(s: System) returns (acts: seq<Act>)
    ensures Reaches(s, acts, s) && NoKills(acts)
  {
    acts := [];
  }

  /** A draining worker drains the next command that is written. */
  lemma {:induction false} DrainingTakesNext(s: System) returns (acts: seq<Act>, t: System)
    requires s.mode.Draining? && s.wire == []
    ensures Reaches(s, acts, t) && NoKills(acts) && t.drained > s.drained
    decreases |s.chan|
  {
    if s.chan != [] {
      var next := Do(s, DrainOne);
      if s.chan[0].Command? {
        t := next;
        acts := Stay(t);
      } else {
        acts, t := DrainingTakesNext(next);
      }
      acts := Prefixed(s, DrainOne, acts, t);
    } else {
      var a := Do(s, Write([OtherCmd], 1));
      assert a.wire == [OtherCmd];
      var b := Do(a, Move);
      t := Do(b, DrainOne);
      acts := Stay(t);
      acts := Prefixed(b, DrainOne, acts, t);
      acts := Prefixed(a, Move, acts, t);
      acts := Prefixed(s, Write([OtherCmd], 1), acts, t);
    }
  }

  /** A world in which every call succeeds. */
  function AllWell(more: bool): World
  {
    World(false, false, true, true, Bound, true, true, true, true, false, true, true, true, more)
  }

  /** A worker that is not steady can drain the next command. */
  lemma UnsteadyTakesNext(s: System) returns (acts: seq<Act>, t: System)
    requires Quiet(s) && !s.mode.Exited? && !Steady(s)
    ensures Reaches(s, acts, t) && NoKills(acts) && t.drained > s.drained
  {
    match s.mode
    case Draining =>
      acts, t := DrainingTakesNext(s);
    case Idle =>
      acts, t := DrainingTakesNext(Do(s, Signal));
      acts := Prefixed(s, Signal, acts, t);
    case Rolling =>
      var back := RollBack(AllWell(s.chan != []));
      var a := Do(s, back);
      acts, t := DrainingTakesNext(Do(a, Signal));
      acts := Prefixed(a, Signal, acts, t);
      acts := Prefixed(s, back, acts, t);
  }

  /**
   After an accepted recovery whose EOR answers the last command, the commands written next are
   processed and not drained, whatever happens short of another recovery, if and only if the worker is
   steady or gone. It is steady when every signal was noticed before the EOR was sent.
   */
  lemma NextCommandsAreKept(acts: seq<Act>, s: System)
    requires Reaches(START, acts, s) && Accepts(s) && s.toMux[0].at.taken == s.written && !s.mode.Exited?
    ensures Steady(s) <==> forall next, t :: Reaches(s, next, t) && NoKills(next) ==> t.drained == s.drained
    ensures s.toMux[0].at.owed == 0 && s.toMux[0].at.signals == s.signals ==> Steady(s)
  {
    RunKeeps(START, acts, s);
    assert Faithful(s, s.toMux[0]);
    AcceptedMeansQuiet(acts, s);
    if Steady(s) {
      forall next, t | Reaches(s, next, t) && NoKills(next)
        ensures t.drained == s.drained
      {
        SteadyDrainsNothing(s, next, t);
      }
    } else {
      var next, t := UnsteadyTakesNext(s);
      assert Reaches(s, next, t) && NoKills(next);
    }
  }

  // One command, a commit, until the worker holds it.
  const WROTE := START.(muxId := 1, wire := [Commit], written := 1)
  const QUEUED := WROTE.(wire := [], chan := [Command(Commit)])
  const HOLDS := WROTE.(wire := [], mode := Working(Commit), proc := FRESH.(rqId := 1), taken := 1)

  lemma FromWrote(acts: seq<Act>, t: System) returns (longer: seq<Act>)
    requires Reaches(WROTE, acts, t)
    ensures Reaches(START, longer, t)
  {
    assert [Commit][..1] == [Commit];
    assert WROTE == Do(START, Write([Commit], 1));
    longer := Prefixed(START, Write([Commit], 1), acts, t);
  }

  lemma FromQueued(acts: seq<Act>, t: System) returns (longer: seq<Act>)
    requires Reaches(QUEUED, acts, t)
    ensures Reaches(WROTE, longer, t)
  {
    assert QUEUED == Do(WROTE, Move);
    longer := Prefixed(WROTE, Move, acts, t);
  }

  lemma FromHolds(acts: seq<Act>, t: System) returns (longer: seq<Act>)
    requires Reaches(HOLDS, acts, t)
    ensures Reaches(QUEUED, longer, t)
  {
    assert QUEUED.chan[1..] == [] && Numbered(FRESH) == FRESH.(rqId := 1);
    assert HOLDS == Do(QUEUED, Take);
    longer := Prefixed(QUEUED, Take, acts, t);
  }

  lemma GetsCommit(acts: seq<Act>, t: System) returns (longer: seq<Act>)
    requires Reaches(HOLDS, acts, t)
    ensures Reaches(START, longer, t)
  {
    longer := FromHolds(acts, t);
    longer := FromQueued(longer, t);
    longer := FromWrote(longer, t);
  }

  /** Answering the commit, with or without a signal waiting. */
  lemma AnswersCommit(s: System)
    requires s == HOLDS || s == Do(HOLDS, Kill(false))
    ensures Enabled(s, Run(AllWell(false), false))
    ensures Do(s, Run(AllWell(false), false)) == s.(mode := Idle, toMux := [Message(EOR_FREE, 1, Now(s))])
  {
    assert Process(s.proc, Commit, AllWell(false)).out == [Eor(EOR_FREE, 1)];
  }

  lemma FloodWraps(s: System, flood: seq<Cmd>)
    requires s == HOLDS.(mode := Idle, toMux := [Message(EOR_FREE, 1, Now(HOLDS))]) && |flood| == WRAP
    ensures var t := Do(s, Write(flood, WRAP)); Accepts(t) && !Quiet(t) && t.written - t.taken == WRAP
  {
  }

  /** An EOR overtaken by 2^16 commands is accepted although none of them was consumed. */
  lemma WrapFoolsTheMux(flood: seq<Cmd>)
    requires |flood| == WRAP
    ensures exists acts, s :: Reaches(START, acts, s) && Accepts(s) && !Quiet(s) && s.written - s.taken == WRAP
  {
    var run := Run(AllWell(false), false);
    AnswersCommit(HOLDS);
    var a := Do(HOLDS, run);
    FloodWraps(a, flood);
    var b := Do(a, Write(flood, WRAP));
    var acts := Stay(b);
    acts := Prefixed(a, Write(flood, WRAP), acts, b);
    acts := Prefixed(HOLDS, run, acts, b);
    acts := GetsCommit(acts, b);
  }

  /** A recovery signal overtaken by the answer: the mux takes a quiet worker back that will drain the next command. */
  lemma LateSignalAwaitsNextClient()
    ensures exists acts, s :: Reaches(START, acts, s) && Accepts(s) && Quiet(s) && s.mode.Idle? && !Steady(s)
  {
    var run := Run(AllWell(false), false);
    var a := Do(HOLDS, Kill(false));
    AnswersCommit(a);
    var b := Do(a, run);
    var acts := Stay(b);
    acts := Prefixed(a, run, acts, b);
    acts := Prefixed(HOLDS, Kill(false), acts, b);
    acts := GetsCommit(acts, b);
    assert Reaches(START, acts, b) && Accepts(b) && Quiet(b) && !Steady(b);
  }

  // The command is lost in a failed read that is not logged, and the mux recovers the worker.
  const BROKE := WROTE.(wire := [], chan := [Broken], lost := 1)
  const SIGNALLED := BROKE.(pending := 1, signals := 1)
  const DRAINING := BROKE.(mode := Draining, signals := 1)
  const DRAINED := DRAINING.(chan := [], proc := FRESH.(rqId := 1), phantoms := 1)

  lemma FromBroke(acts: seq<Act>, t: System) returns (longer: seq<Act>)
    requires Reaches(BROKE, acts, t)
    ensures Reaches(WROTE, longer, t)
  {
    assert BROKE == Do(WROTE, ReadError(1, false));
    longer := Prefixed(WROTE, ReadError(1, false), acts, t);
  }

  lemma FromDraining(acts: seq<Act>, t: System) returns (longer: seq<Act>)
    requires Reaches(DRAINING, acts, t)
    ensures Reaches(BROKE, longer, t)
  {
    assert SIGNALLED == Do(BROKE, Kill(false)) && DRAINING == Do(SIGNALLED, Signal);
    longer := Prefixed(SIGNALLED, Signal, acts, t);
    longer := Prefixed(BROKE, Kill(false), longer, t);
  }

  lemma FromDrained(acts: seq<Act>, t: System) returns (longer: seq<Act>)
    requires Reaches(DRAINED, acts, t)
    ensures Reaches(DRAINING, longer, t)
  {
    assert DRAINED == Do(DRAINING, DrainOne);
    longer := Prefixed(DRAINING, DrainOne, acts, t);
  }

  lemma DrainsBroken(acts: seq<Act>, t: System) returns (longer: seq<Act>)
    requires Reaches(DRAINED, acts, t)
    ensures Reaches(START, longer, t)
  {
    longer := FromDrained(acts, t);
    longer := FromDraining(longer, t);
    longer := FromBroke(longer, t);
    longer := FromWrote(longer, t);
  }

  /** A failed read drained during recovery is counted as the command it lost, and the mux accepts. */
  lemma ReadErrorFoolsTheMux()
    ensures exists acts, s :: Reaches(START, acts, s) && Accepts(s) && s.written == 1 && s.taken == 0
  {
    var back := RollBack(AllWell(false));
    var a := Do(DRAINED, DrainEnd);
    assert Process(a.proc, Rollback, AllWell(false)).out == [Eor(EOR_FREE, 1)];
    var b := Do(a, back);
    var acts := Stay(b);
    acts := Prefixed(a, back, acts, b);
    acts := Prefixed(DRAINED, DrainEnd, acts, b);
    acts := DrainsBroken(acts, b);
    assert Reaches(START, acts, b) && Accepts(b);
  }
}
