/**
 The worker's command processor: which database and transaction state each netstring command
 leaves behind and which end-of-response (EOR) frames it sends. Results of the database, of the
 bind-variable bookkeeping and of socket writes are inputs.
 */
module CmdProcessors {
  import opened Codes

  datatype Cmd =
    | CorrelationId | Prepare | BindName | BindType | BindValue | BindNum
    | Execute | Fetch | ColsInfo | Commit | Rollback | OtherCmd

  // Outcome of looking up and converting bind variables; Crash is a run-time panic.
  datatype Binding = Bound | Unbound | Crash

  /** What the outside world answers while one command is processed. */
  datatype World = World(
    hasResult: bool, startTrans: bool,      // the SQL parser's view of the statement
    beginOk: bool, prepareOk: bool, bind: Binding,
    execOk: bool, affectedOk: bool, columnsOk: bool, typesOk: bool,
    gotRows: bool, scanOk: bool, writeOk: bool,
    endOk: bool,                            // the commit or rollback succeeded
    more: bool)                             // requests are waiting in the incoming channel

  datatype Frame = Eor(code: nat, rqId: nat) | Data

  datatype Ending = Done | Failed | Panicked

  /** Which pointers are set and which flags hold; calExec is the CAL transaction of the statement. */
  datatype Proc = Proc(
    tx: bool, stmt: bool, rows: bool, result: bool, lastErr: bool, calExec: bool,
    hasResult: bool, inTrans: bool, rqId: nat)

  datatype Step = Step(proc: Proc, out: seq<Frame>, ending: Ending)

  const FRESH: Proc := Proc(false, false, false, false, false, false, false, false, 0)

  function EorFrame(p: Proc, code: nat, w: World): Frame
  {
    Eor(if code == EOR_FREE && w.more then EOR_MORE_INCOMING else code, p.rqId)
  }

  /** The code answering a command that did not change the transaction. */
  function Standing(p: Proc): nat
  {
    if p.inTrans then EOR_IN_TRANSACTION else EOR_FREE
  }

  function OnPrepare(p: Proc, w: World): Step
  {
    Step(p.(tx := p.tx || (w.startTrans && w.beginOk), stmt := w.prepareOk, rows := false, result := false,
            lastErr := !w.prepareOk, calExec := w.prepareOk, hasResult := w.hasResult), [], Done)
  }

  function OnBind(p: Proc, w: World): Step
  {
    if !p.stmt || w.bind.Bound? then Step(p, [], Done)
    else if w.bind.Crash? || !p.calExec then Step(p, [], Panicked)
    else Step(p.(calExec := false), [], Failed)
  }

  function OnExecute(p: Proc, w: World): Step
  {
    if !p.stmt then
      if p.lastErr then Step(p, [EorFrame(p, Standing(p), w)], Done) else Step(p, [], Panicked)
    else if w.bind.Crash? then Step(p, [], Panicked)
    else if w.bind.Unbound? then Step(p, [], Failed)
    else Executed(p, w)
  }

  /** The rows or the result that running the statement leaves. */
  function Ran(p: Proc, ok: bool): Proc
  {
    if p.hasResult then p.(rows := ok) else p.(result := ok)
  }

  /** Running a bound statement. */
  function Executed(p: Proc, w: World): Step
  {
    var q := Ran(p, w.execOk);
    if w.execOk then AfterSuccess(q, w) else AfterFailure(q, w)
  }

  /** After a successful execution an open transaction counts. */
  function AfterSuccess(p: Proc, w: World): Step
  {
    var q := p.(inTrans := p.inTrans || p.tx);
    if !p.calExec then Step(q, [], Panicked) else AfterExecute(q.(calExec := false), w)
  }

  /** The answer to a failed execution. */
  function AfterFailure(p: Proc, w: World): Step
  {
    if p.calExec then Step(p.(lastErr := true, calExec := false), [EorFrame(p, Standing(p), w)], Done)
    else Step(p, [], Panicked)
  }

  /** The answer to it. */
  function AfterExecute(p: Proc, w: World): Step
  {
    var counted := if p.result then [EorFrame(p, EOR_IN_TRANSACTION, w)] else [];
    if p.result && !w.affectedOk then Step(p, [], Panicked)
    else if !p.rows then Step(p, counted, if p.result && !w.writeOk then Failed else Done)
    else if !w.columnsOk then Step(p, counted, Panicked)
    else Step(p, counted + [if p.hasResult then Data else EorFrame(p, Standing(p), w)], Done)
  }

  function OnFetch(p: Proc, w: World): Step
  {
    if !p.rows then Step(p, [EorFrame(p, Standing(p), w)], Done)
    else if !w.typesOk then Step(p, [], Failed)
    else if w.gotRows && !w.writeOk then Step(p, [Data], Failed)
    else
      Step(p.(rows := false), (if w.gotRows then [Data] else []) + [EorFrame(p, Standing(p), w)],
           if w.gotRows || w.scanOk then Done else Failed)
  }

  function OnColsInfo(p: Proc, w: World): Step
  {
    if !p.rows then Step(p, [], Done)
    else if !w.typesOk then Step(p, [], Failed)
    else Step(p, [Data], if w.writeOk then Done else Failed)
  }

  /** Commit and rollback. */
  function OnEnd(p: Proc, w: World): Step
  {
    if p.tx && !w.endOk then Step(p, [EorFrame(p, EOR_IN_TRANSACTION, w)], Done)
    else var q := p.(tx := false, inTrans := false); Step(q, [EorFrame(q, EOR_FREE, w)], Done)
  }

  /** The effect of one netstring command. */
  function Process(p: Proc, cmd: Cmd, w: World): Step
  {
    match cmd
    case Prepare => OnPrepare(p, w)
    case BindName | BindType | BindValue => OnBind(p, w)
    case BindNum => OnBind(p, w.(bind := Unbound))
    case Execute => OnExecute(p, w)
    case Fetch => OnFetch(p, w)
    case ColsInfo => OnColsInfo(p, w)
    case Commit | Rollback => OnEnd(p, w)
    case CorrelationId | OtherCmd => Step(p, [], Done)
  }

  ghost predicate Sound(p: Proc)
  {
    p.inTrans ==> p.tx
  }

  /** Codes that tell the mux the worker holds no transaction. */
  predicate SaysFree(f: Frame)
  {
    f.Eor? && (f.code == EOR_FREE || f.code == EOR_MORE_INCOMING)
  }

  /** The commands that answer "in transaction" although no statement ran in one. */
  ghost predicate Overstates(p: Proc, cmd: Cmd, w: World)
  {
    && !p.inTrans
    && (|| ((cmd.Commit? || cmd.Rollback?) && p.tx && !w.endOk)
        || (cmd.Execute? && p.stmt && !p.tx && w.bind.Bound? && w.execOk && p.calExec
            && w.affectedOk && (p.result || !p.hasResult)))
  }

  /** The frames of an answer carry the request's id, and say free only where the processor ends up free. */
  ghost predicate Truthful(p: Proc, w: World, s: Step)
  {
    forall f :: f in s.out && f.Eor? ==>
                  && f.rqId == p.rqId
                  && (SaysFree(f) ==> !s.proc.inTrans && (w.more <==> f.code == EOR_MORE_INCOMING))
                  && (!SaysFree(f) ==> f.code == EOR_IN_TRANSACTION)
  }

  ghost predicate ClaimsTransaction(s: Step)
  {
    exists f :: f in s.out && f.Eor? && !SaysFree(f)
  }

  /** The transaction state is kept in order, and left only through a successful commit or rollback. */
  ghost predicate Orderly(p: Proc, cmd: Cmd, w: World, q: Proc)
  {
    && Sound(q) && q.rqId == p.rqId
    && (p.inTrans && !q.inTrans ==> (cmd.Commit? || cmd.Rollback?) && w.endOk && p.tx && !q.tx)
  }

  /** All that a command keeps; it claims a transaction it is not in exactly when it overstates. */
  ghost predicate Kept(p: Proc, cmd: Cmd, w: World, s: Step)
  {
    && Orderly(p, cmd, w, s.proc) && Truthful(p, w, s)
    && (!s.proc.inTrans && ClaimsTransaction(s) <==> Overstates(p, cmd, w))
  }

  /** An answer that leaves the transaction alone and says how it stands keeps everything. */
  lemma StandingKeeps(p: Proc, cmd: Cmd, w: World, s: Step)
    requires Sound(p) && !Overstates(p, cmd, w)
    requires s.proc.tx == p.tx && s.proc.rqId == p.rqId
    requires s.proc.inTrans == p.inTrans || (s.out == [] && s.proc.inTrans && p.tx)
    requires forall f :: f in s.out ==> f.Data? || f == EorFrame(p, Standing(p), w)
    ensures Kept(p, cmd, w, s)
  {
  }

  lemma FetchKeeps(p: Proc, w: World)
    requires Sound(p)
    ensures Kept(p, Fetch, w, OnFetch(p, w))
  {
    StandingKeeps(p, Fetch, w, OnFetch(p, w));
  }

  /** The commands that send no end of response. */
  lemma QuietKeeps(p: Proc, cmd: Cmd, w: World)
    requires Sound(p) && !cmd.Execute? && !cmd.Commit? && !cmd.Rollback? && !cmd.Fetch?
    ensures Kept(p, cmd, w, Process(p, cmd, w))
  {
    var s := Process(p, cmd, w);
    assert forall f :: f in s.out ==> f.Data?;
  }

  /** The answer to an execution claims a transaction for every counted result, and otherwise only inside one. */
  lemma AnswerTells(q: Proc, w: World)
    ensures var s := AfterExecute(q, w);
            && s.proc == q && Truthful(q, w, s)
            && (q.result && w.affectedOk ==> ClaimsTransaction(s))
            && (ClaimsTransaction(s) ==> q.inTrans || (q.result && w.affectedOk))
  {
    var s := AfterExecute(q, w);
    if q.result && w.affectedOk {
      assert s.out[0] in s.out;
    }
  }

  predicate Succeeds(p: Proc, w: World)
  {
    p.stmt && w.bind.Bound? && w.execOk && p.calExec
  }

  lemma SuccessKeeps(p: Proc, w: World, s: Step)
    requires Sound(p) && Succeeds(p, w) && Truthful(s.proc, w, s)
    requires s.proc.rqId == p.rqId && s.proc.tx == p.tx && s.proc.inTrans == (p.inTrans || p.tx)
    requires s.proc.result == (p.result || !p.hasResult)
    requires s.proc.result && w.affectedOk ==> ClaimsTransaction(s)
    requires ClaimsTransaction(s) ==> s.proc.inTrans || (s.proc.result && w.affectedOk)
    ensures Kept(p, Execute, w, s)
  {
  }

  lemma FailureKeeps(p: Proc, w: World)
    requires Sound(p) && !Succeeds(p, w)
    ensures Kept(p, Execute, w, OnExecute(p, w))
  {
    StandingKeeps(p, Execute, w, OnExecute(p, w));
  }

  lemma ExecuteKeeps(p: Proc, w: World)
    requires Sound(p)
    ensures Kept(p, Execute, w, OnExecute(p, w))
  {
    if Succeeds(p, w) {
      var q := Ran(p, true).(inTrans := p.inTrans || p.tx);
      AnswerTells(q.(calExec := false), w);
      SuccessKeeps(p, w, AfterExecute(q.(calExec := false), w));
    } else {
      FailureKeeps(p, w);
    }
  }

  lemma EndKeeps(p: Proc, cmd: Cmd, w: World)
    requires Sound(p) && (cmd.Commit? || cmd.Rollback?)
    ensures Kept(p, cmd, w, OnEnd(p, w))
  {
    if Overstates(p, cmd, w) {
      var s := OnEnd(p, w);
      assert s.out[0] in s.out;
    }
  }

  /**
   One command keeps "in transaction implies an open transaction", leaves a transaction only through
   a successful commit or rollback, and answers with this request's id and an EOR that says free
   only outside a transaction. It says "in transaction" outside one exactly when it overstates.
   */
  lemma CommandKeeps(p: Proc, cmd: Cmd, w: World)
    requires Sound(p)
    ensures Kept(p, cmd, w, Process(p, cmd, w))
  {
    match cmd
    case Execute => ExecuteKeeps(p, w);
    case Commit | Rollback => EndKeeps(p, cmd, w);
    case Fetch => FetchKeeps(p, w);
    case _ => QuietKeeps(p, cmd, w);
  }

  /** The processor after the main loop counted the next request. */
  function Numbered(p: Proc): Proc
  {
    p.(rqId := (p.rqId + 1) % 0x1_0000)
  }

  /** The next request, and that the session can go on after it. */
  ghost predicate Follows(p: Proc, cmd: Cmd, w: World, q: Proc, last: bool)
  {
    var s := Process(Numbered(p), cmd, w);
    q == s.proc && (!last ==> s.ending == Done)
  }

  /** The states a run of commands goes through; each command gets the next request id. */
  ghost predicate Session(ps: seq<Proc>, cmds: seq<Cmd>, ws: seq<World>)
  {
    && |ps| == |cmds| + 1 == |ws| + 1
    && ps[0] == FRESH
    && forall i :: 0 <= i < |cmds| ==> Follows(ps[i], cmds[i], ws[i], ps[i + 1], i + 1 == |cmds|)
  }

  lemma NextNumber(n: nat)
    ensures (n % 0x1_0000 + 1) % 0x1_0000 == (n + 1) % 0x1_0000
  {
  }

  lemma NextSound(p: Proc, cmd: Cmd, w: World, q: Proc, last: bool)
    requires Sound(p) && Follows(p, cmd, w, q, last)
    ensures Sound(q) && q.rqId == (p.rqId + 1) % 0x1_0000
  {
    CommandKeeps(Numbered(p), cmd, w);
  }

  lemma {:induction false} SessionSound(ps: seq<Proc>, cmds: seq<Cmd>, ws: seq<World>, n: nat)
    requires Session(ps, cmds, ws) && n < |ps|
    ensures Sound(ps[n]) && ps[n].rqId == n % 0x1_0000
  {
    if n > 0 {
      SessionSound(ps, cmds, ws, n - 1);
      NextSound(ps[n - 1], cmds[n - 1], ws[n - 1], ps[n], n == |cmds|);
      NextNumber(n - 1);
    }
  }

  /**
   In every run, every EOR carries its request's number, one that says free leaves the worker outside a
   transaction, and a transaction is left only by a successful commit or rollback.
   */
  lemma SessionFree(ps: seq<Proc>, cmds: seq<Cmd>, ws: seq<World>, n: nat)
    requires Session(ps, cmds, ws) && n < |cmds|
    ensures var s := Process(Numbered(ps[n]), cmds[n], ws[n]);
            Truthful(Numbered(ps[n]), ws[n], s) && Numbered(ps[n]).rqId == (n + 1) % 0x1_0000 && s.proc == ps[n + 1]
    ensures Orderly(Numbered(ps[n]), cmds[n], ws[n], ps[n + 1])
  {
    SessionSound(ps, cmds, ws, n);
    assert Follows(ps[n], cmds[n], ws[n], ps[n + 1], n + 1 == |cmds|);
    CommandKeeps(Numbered(ps[n]), cmds[n], ws[n]);
    NextNumber(n);
  }

  // The events of a session that matter to its transaction, by command and outcome alone.
  predicate Opens(cmd: Cmd, w: World)
  {
    cmd == Prepare && w.startTrans && w.beginOk
  }

  predicate Closes(cmd: Cmd, w: World)
  {
    (cmd == Commit || cmd == Rollback) && w.endOk
  }

  predicate Runs(cmd: Cmd, w: World)
  {
    cmd == Execute && w.bind == Bound && w.execOk
  }

  /** Before command n: a prepare began a transaction, and none was ended since. */
  ghost predicate OpenBefore(cmds: seq<Cmd>, ws: seq<World>, n: nat)
    requires n <= |cmds| == |ws|
  {
    exists i :: OpenedAt(cmds, ws, i, n)
  }

  ghost predicate OpenedAt(cmds: seq<Cmd>, ws: seq<World>, i: int, n: nat)
    requires n <= |cmds| == |ws|
  {
    0 <= i < n && Opens(cmds[i], ws[i]) && forall j :: i < j < n ==> !Closes(cmds[j], ws[j])
  }

  /** Before command n: the last prepare succeeded. */
  ghost predicate PreparedBefore(cmds: seq<Cmd>, ws: seq<World>, n: nat)
    requires n <= |cmds| == |ws|
  {
    exists i :: PreparedAt(cmds, ws, i, n)
  }

  ghost predicate PreparedAt(cmds: seq<Cmd>, ws: seq<World>, i: int, n: nat)
    requires n <= |cmds| == |ws|
  {
    0 <= i < n && cmds[i] == Prepare && ws[i].prepareOk && forall j :: i < j < n ==> cmds[j] != Prepare
  }

  /** Before command n: a prepared statement ran while a transaction was open, and none was ended since. */
  ghost predicate WorkedBefore(cmds: seq<Cmd>, ws: seq<World>, n: nat)
    requires n <= |cmds| == |ws|
  {
    exists i :: WorkedAt(cmds, ws, i, n)
  }

  ghost predicate WorkedAt(cmds: seq<Cmd>, ws: seq<World>, i: int, n: nat)
    requires n <= |cmds| == |ws|
  {
    && 0 <= i < n && Runs(cmds[i], ws[i]) && PreparedBefore(cmds, ws, i) && OpenBefore(cmds, ws, i)
    && forall j :: i < j < n ==> !Closes(cmds[j], ws[j])
  }

  /** One command, seen in the three pointers and flags. */
  ghost predicate Moves(p: Proc, cmd: Cmd, w: World, q: Proc)
  {
    && (q.tx <==> Opens(cmd, w) || (p.tx && !Closes(cmd, w)))
    && (q.stmt <==> if cmd == Prepare then w.prepareOk else p.stmt)
    && (q.hasResult <==> if cmd == Prepare then w.hasResult else p.hasResult)
    && (q.inTrans <==> (Runs(cmd, w) && p.stmt && p.tx) || (p.inTrans && !Closes(cmd, w)))
  }

  ghost predicate Still(p: Proc, q: Proc)
  {
    q.tx == p.tx && q.stmt == p.stmt && q.hasResult == p.hasResult && q.inTrans == p.inTrans
  }

  lemma StillMoves(p: Proc, cmd: Cmd, w: World, q: Proc)
    requires Still(p, q) && !cmd.Commit? && !cmd.Rollback? && !cmd.Prepare? && !(Runs(cmd, w) && p.stmt)
    ensures Moves(p, cmd, w, q)
  {
  }

  lemma SuccessMoves(p: Proc, w: World)
    ensures Still(p.(inTrans := p.inTrans || p.tx), AfterSuccess(p, w).proc)
  {
    AnswerTells(p.(inTrans := p.inTrans || p.tx, calExec := false), w);
  }

  lemma FailureIsStill(p: Proc, w: World)
    requires !(Runs(Execute, w) && p.stmt)
    ensures Still(p, OnExecute(p, w).proc)
  {
  }

  lemma ExecuteMoves(p: Proc, w: World)
    ensures Moves(p, Execute, w, OnExecute(p, w).proc)
  {
    if Runs(Execute, w) && p.stmt {
      SuccessMoves(Ran(p, true), w);
    } else {
      FailureIsStill(p, w);
      StillMoves(p, Execute, w, OnExecute(p, w).proc);
    }
  }

  lemma EndMoves(p: Proc, cmd: Cmd, w: World)
    requires Sound(p) && (cmd == Commit || cmd == Rollback)
    ensures Moves(p, cmd, w, OnEnd(p, w).proc)
  {
  }

  lemma PrepareMoves(p: Proc, w: World)
    ensures Moves(p, Prepare, w, OnPrepare(p, w).proc)
  {
  }

  lemma OthersAreStill(p: Proc, w: World)
    ensures Still(p, OnBind(p, w).proc) && Still(p, OnFetch(p, w).proc) && Still(p, OnColsInfo(p, w).proc)
  {
  }

  lemma CommandMoves(p: Proc, cmd: Cmd, w: World)
    requires Sound(p)
    ensures Moves(p, cmd, w, Process(p, cmd, w).proc)
  {
    match cmd
    case Execute => ExecuteMoves(p, w);
    case Prepare => PrepareMoves(p, w);
    case Commit | Rollback => EndMoves(p, cmd, w);
    case _ =>
      OthersAreStill(p, w);
      OthersAreStill(p, w.(bind := Unbound));
      StillMoves(p, cmd, w, Process(p, cmd, w).proc);
  }

  lemma OpenStep(cmds: seq<Cmd>, ws: seq<World>, n: nat)
    requires n < |cmds| == |ws|
    ensures OpenBefore(cmds, ws, n + 1) <==>
              Opens(cmds[n], ws[n]) || (OpenBefore(cmds, ws, n) && !Closes(cmds[n], ws[n]))
  {
    if OpenBefore(cmds, ws, n) && !Closes(cmds[n], ws[n]) {
      var i :| OpenedAt(cmds, ws, i, n);
      assert OpenedAt(cmds, ws, i, n + 1);
    }
    if Opens(cmds[n], ws[n]) {
      assert OpenedAt(cmds, ws, n, n + 1);
    }
    if OpenBefore(cmds, ws, n + 1) {
      var i :| OpenedAt(cmds, ws, i, n + 1);
      assert i != n ==> OpenedAt(cmds, ws, i, n);
    }
  }

  lemma PreparedStep(cmds: seq<Cmd>, ws: seq<World>, n: nat)
    requires n < |cmds| == |ws|
    ensures PreparedBefore(cmds, ws, n + 1) <==>
              if cmds[n] == Prepare then ws[n].prepareOk else PreparedBefore(cmds, ws, n)
  {
    if cmds[n] != Prepare && PreparedBefore(cmds, ws, n) {
      var i :| PreparedAt(cmds, ws, i, n);
      assert PreparedAt(cmds, ws, i, n + 1);
    }
    if cmds[n] == Prepare && ws[n].prepareOk {
      assert PreparedAt(cmds, ws, n, n + 1);
    }
    if PreparedBefore(cmds, ws, n + 1) {
      var i :| PreparedAt(cmds, ws, i, n + 1);
      assert i != n ==> PreparedAt(cmds, ws, i, n);
    }
  }

  lemma WorkedStep(cmds: seq<Cmd>, ws: seq<World>, n: nat)
    requires n < |cmds| == |ws|
    ensures WorkedBefore(cmds, ws, n + 1) <==>
              || (Runs(cmds[n], ws[n]) && PreparedBefore(cmds, ws, n) && OpenBefore(cmds, ws, n))
              || (WorkedBefore(cmds, ws, n) && !Closes(cmds[n], ws[n]))
  {
    if WorkedBefore(cmds, ws, n) && !Closes(cmds[n], ws[n]) {
      var i :| WorkedAt(cmds, ws, i, n);
      assert WorkedAt(cmds, ws, i, n + 1);
    }
    if Runs(cmds[n], ws[n]) && PreparedBefore(cmds, ws, n) && OpenBefore(cmds, ws, n) {
      assert WorkedAt(cmds, ws, n, n + 1);
    }
    if WorkedBefore(cmds, ws, n + 1) {
      var i :| WorkedAt(cmds, ws, i, n + 1);
      assert i != n ==> WorkedAt(cmds, ws, i, n);
    }
  }

  /**
   In every state of every session: a transaction is open exactly when a prepare began one that no commit or
   rollback ended since; the worker is in transaction exactly when a prepared statement ran in it.
   */
  lemma {:induction false} SessionTells(ps: seq<Proc>, cmds: seq<Cmd>, ws: seq<World>, n: nat)
    requires Session(ps, cmds, ws) && n < |ps|
    ensures ps[n].tx <==> OpenBefore(cmds, ws, n)
    ensures ps[n].stmt <==> PreparedBefore(cmds, ws, n)
    ensures ps[n].inTrans <==> WorkedBefore(cmds, ws, n)
  {
    if n > 0 {
      var k := n - 1;
      SessionTells(ps, cmds, ws, k);
      SessionSound(ps, cmds, ws, k);
      assert Follows(ps[k], cmds[k], ws[k], ps[n], n == |cmds|);
      CommandMoves(Numbered(ps[k]), cmds[k], ws[k]);
      OpenStep(cmds, ws, k);
      PreparedStep(cmds, ws, k);
      WorkedStep(cmds, ws, k);
    }
  }

  /** Rows come from statements with a result, counts from those without. */
  ghost predicate Tidy(p: Proc)
  {
    (p.rows ==> p.hasResult) && (p.result ==> !p.hasResult)
  }

  /** An answer with one end of response, as its last frame. */
  predicate EndsOnce(out: seq<Frame>)
  {
    && out != [] && out[|out| - 1].Eor?
    && forall i :: 0 <= i < |out| - 1 ==> out[i] == Data
  }

  /** A statement that runs leaves rows or a count, and is answered by data or an end of response. */
  lemma ExecuteAnswers(p: Proc, w: World)
    requires Tidy(p) && OnExecute(p, w).ending == Done
    ensures var s := OnExecute(p, w);
            && Tidy(s.proc) && |s.out| == 1
            && (s.out == [Data] <==> p.stmt && w.execOk && p.hasResult)
            && (p.stmt ==> (s.proc.rows <==> w.execOk && p.hasResult) && (s.proc.result <==> w.execOk && !p.hasResult))
            && (p.stmt && !w.execOk ==> s.proc.lastErr)
  {
  }

  /** A fetch sends the rows it got and then one end of response, and the rows are gone. */
  lemma FetchAnswers(p: Proc, w: World)
    requires Tidy(p) && OnFetch(p, w).ending == Done
    ensures var s := OnFetch(p, w);
            && Tidy(s.proc) && EndsOnce(s.out) && !s.proc.rows
            && (|s.out| == 2 <==> p.rows && w.gotRows)
  {
  }

  /**
   In every session, a command that is done ends the response exactly once if it is a commit, a rollback, a
   fetch, or an execute that leaves no rows, and otherwise not at all.
   */
  lemma AnswersOnce(p: Proc, cmd: Cmd, w: World)
    requires Tidy(p) && Process(p, cmd, w).ending == Done
    ensures var s := Process(p, cmd, w);
            && Tidy(s.proc)
            && (if cmd in {Commit, Rollback, Fetch} || (cmd == Execute && !(p.stmt && s.proc.rows)) then EndsOnce(s.out)
                else forall f :: f in s.out ==> f == Data)
  {
    match cmd
    case Execute => ExecuteAnswers(p, w);
    case Fetch => FetchAnswers(p, w);
    case Commit | Rollback => EndAnswers(p, w);
    case _ => OthersAnswer(p, cmd, w);
  }

  lemma EndAnswers(p: Proc, w: World)
    requires Tidy(p)
    ensures Tidy(OnEnd(p, w).proc) && EndsOnce(OnEnd(p, w).out)
  {
  }

  /** Column information is data for open rows; the remaining commands send nothing. */
  lemma OthersAnswer(p: Proc, cmd: Cmd, w: World)
    requires Tidy(p) && cmd !in {Execute, Fetch, Commit, Rollback} && Process(p, cmd, w).ending == Done
    ensures var s := Process(p, cmd, w);
            Tidy(s.proc) && s.out == if cmd == ColsInfo && p.rows then [Data] else []
  {
  }

  // A statement without result, outside a transaction, for which every call succeeds.
  const PLAIN_WORLD :=
    World(false, false, true, true, Bound, true, true, true, true, false, true, true, true, false)

  /** Preparing and executing such a statement makes the worker claim a transaction it is not in. */
  lemma PlainStatementOverstates()
    ensures exists ps: seq<Proc>, cmds: seq<Cmd>, ws: seq<World> ::
              && Session(ps, cmds, ws) && cmds == [Prepare, Execute]
              && Overstates(Numbered(ps[1]), Execute, ws[1])
              && ClaimsTransaction(Process(Numbered(ps[1]), Execute, ws[1])) && !ps[2].inTrans
  {
    var p1 := Process(Numbered(FRESH), Prepare, PLAIN_WORLD).proc;
    var s2 := Process(Numbered(p1), Execute, PLAIN_WORLD);
    var ps, cmds, ws := [FRESH, p1, s2.proc], [Prepare, Execute], [PLAIN_WORLD, PLAIN_WORLD];
    assert Session(ps, cmds, ws);
    assert s2.out[0] in s2.out;
  }

  /** The same statement in a transaction. */
  lemma TransactionIsReached()
    ensures exists ps: seq<Proc>, cmds: seq<Cmd>, ws: seq<World> ::
              Session(ps, cmds, ws) && cmds == [Prepare, Execute] && !ps[1].inTrans && ps[1].tx && ps[2].inTrans
  {
    var w := PLAIN_WORLD.(startTrans := true);
    var p1 := Process(Numbered(FRESH), Prepare, w).proc;
    var p2 := Process(Numbered(p1), Execute, w).proc;
    var ps, cmds, ws := [FRESH, p1, p2], [Prepare, Execute], [w, w];
    assert Session(ps, cmds, ws);
  }

  class CmdProcessor {
    var tx: bool
    var stmt: bool
    var rows: bool
    var result: bool
    var lastErr: bool
    var calExecTxn: bool
    var hasResult: bool
    var inTrans: bool
    var rqId: nat
    // Frames written to the mux.
    var sent: seq<Frame>

    ghost function View(): Proc
      reads this
    {
      Proc(tx, stmt, rows, result, lastErr, calExecTxn, hasResult, inTrans, rqId)
    }

    constructor ()
      ensures View() == FRESH && sent == []
    {
      tx, stmt, rows, result, lastErr, calExecTxn := false, false, false, false, false, false;
      hasResult, inTrans, rqId, sent := false, false, 0, [];
    }

    method SendEor(code: nat, w: World)
      modifies this`sent
      ensures sent == old(sent) + [EorFrame(View(), code, w)]
    {
      var c := code;
      if c == EOR_FREE && w.more {
        c := EOR_MORE_INCOMING;
      }
      sent := sent + [Eor(c, rqId)];
    }

    method SendStanding(w: World)
      modifies this`sent
      ensures sent == old(sent) + [EorFrame(View(), Standing(View()), w)]
    {
      if inTrans {
        SendEor(EOR_IN_TRANSACTION, w);
      } else {
        SendEor(EOR_FREE, w);
      }
    }

    /** The netstring branch of ProcessCmd: the state stays sound and the answer is as Kept says. */
    method ProcessCmd(cmd: Cmd, w: World) returns (ending: Ending)
      modifies this
      ensures var s := Process(old(View()), cmd, w);
              View() == s.proc && ending == s.ending && sent == old(sent) + s.out
      ensures Sound(old(View())) ==>
                Sound(View()) && Kept(old(View()), cmd, w, Step(View(), sent[|old(sent)|..], ending))
    {
      if Sound(View()) {
        CommandKeeps(View(), cmd, w);
      }
      ending := Branch(cmd, w);
      assert sent[|old(sent)|..] == Process(old(View()), cmd, w).out;
    }

    method Branch(cmd: Cmd, w: World) returns (ending: Ending)
      modifies this
      ensures var s := Process(old(View()), cmd, w);
              View() == s.proc && ending == s.ending && sent == old(sent) + s.out
    {
      match cmd {
        case Prepare =>
          ProcessPrepare(w);
          ending := Done;
        case BindName | BindType | BindValue =>
          ending := ProcessBind(w);
        case BindNum =>
          ending := ProcessBind(w.(bind := Unbound));
        case Execute =>
          ending := ProcessExecute(w);
        case Fetch =>
          ending := ProcessFetch(w);
        case ColsInfo =>
          ending := ProcessColsInfo(w);
        case Commit | Rollback =>
          ProcessEnd(w);
          ending := Done;
        case CorrelationId | OtherCmd =>
          ending := Done;
      }
    }

    method ProcessPrepare(w: World)
      modifies this
      ensures View() == OnPrepare(old(View()), w).proc && sent == old(sent)
    {
      lastErr := false;
      hasResult := w.hasResult;
      calExecTxn := true;
      if !tx && w.startTrans {
        tx := w.beginOk;
      }
      stmt := w.prepareOk;
      if !w.prepareOk {
        calExecTxn := false;
        lastErr := true;
      }
      rows, result := false, false;
    }

    method ProcessFetch(w: World) returns (ending: Ending)
      modifies this
      ensures var s := OnFetch(old(View()), w);
              View() == s.proc && ending == s.ending && sent == old(sent) + s.out
    {
      if !rows {
        SendStanding(w);
        return Done;
      }
      if !w.typesOk {
        return Failed;
      }
      if w.gotRows {
        sent := sent + [Data];
        if !w.writeOk {
          return Failed;
        }
      }
      SendStanding(w);
      rows := false;
      return if w.gotRows || w.scanOk then Done else Failed;
    }

    method ProcessColsInfo(w: World) returns (ending: Ending)
      modifies this`sent
      ensures var s := OnColsInfo(old(View()), w);
              View() == s.proc && ending == s.ending && sent == old(sent) + s.out
    {
      if !rows {
        return Done;
      }
      if !w.typesOk {
        return Failed;
      }
      sent := sent + [Data];
      return if w.writeOk then Done else Failed;
    }

    method ProcessEnd(w: World)
      modifies this
      ensures var s := OnEnd(old(View()), w);
              View() == s.proc && sent == old(sent) + s.out
    {
      var failed := false;
      if tx {
        if w.endOk {
          tx := false;
        } else {
          failed := true;
        }
      }
      if !failed {
        inTrans := false;
        SendEor(EOR_FREE, w);
      } else {
        SendEor(EOR_IN_TRANSACTION, w);
      }
    }

    method ProcessBind(w: World) returns (ending: Ending)
      modifies this`calExecTxn
      ensures var s := OnBind(old(View()), w); View() == s.proc && ending == s.ending
    {
      if stmt && !w.bind.Bound? {
        if w.bind.Crash? || !calExecTxn {
          return Panicked;
        }
        calExecTxn := false;
        return Failed;
      }
      return Done;
    }

    method ProcessExecute(w: World) returns (ending: Ending)
      modifies this
      ensures var s := OnExecute(old(View()), w);
              View() == s.proc && ending == s.ending && sent == old(sent) + s.out
    {
      if !stmt {
        if !lastErr {
          return Panicked;
        }
        SendStanding(w);
        return Done;
      }
      if w.bind.Crash? {
        return Panicked;
      }
      if w.bind.Unbound? {
        return Failed;
      }
      ending := RunStatement(w);
    }

    method RunStatement(w: World) returns (ending: Ending)
      modifies this
      ensures var s := Executed(old(View()), w);
              View() == s.proc && ending == s.ending && sent == old(sent) + s.out
    {
      Record(w.execOk);
      if !w.execOk {
        ending := AnswerFailure(w);
      } else {
        ending := AnswerSuccess(w);
      }
    }

    method AnswerSuccess(w: World) returns (ending: Ending)
      modifies this`sent, this`inTrans, this`calExecTxn
      ensures var s := AfterSuccess(old(View()), w);
              View() == s.proc && ending == s.ending && sent == old(sent) + s.out
    {
      if tx {
        inTrans := true;
      }
      if !calExecTxn {
        return Panicked;
      }
      calExecTxn := false;
      ending := AnswerExecute(w);
    }

    method Record(ok: bool)
      modifies this`rows, this`result
      ensures View() == Ran(old(View()), ok)
    {
      if hasResult {
        rows := ok;
      } else {
        result := ok;
      }
    }

    method AnswerFailure(w: World) returns (ending: Ending)
      modifies this`sent, this`lastErr, this`calExecTxn
      ensures var s := AfterFailure(old(View()), w);
              View() == s.proc && ending == s.ending && sent == old(sent) + s.out
    {
      if !calExecTxn {
        return Panicked;
      }
      calExecTxn := false;
      SendStanding(w);
      lastErr := true;
      return Done;
    }

    method AnswerExecute(w: World) returns (ending: Ending)
      modifies this`sent
      ensures var s := AfterExecute(old(View()), w);
              View() == s.proc && ending == s.ending && sent == old(sent) + s.out
    {
      ending := Done;
      if result {
        if !w.affectedOk {
          return Panicked;
        }
        SendEor(EOR_IN_TRANSACTION, w);
        ending := if w.writeOk then Done else Failed;
      }
      if rows {
        if !w.columnsOk {
          return Panicked;
        }
        ending := Done;
        if hasResult {
          sent := sent + [Data];
        } else {
          SendStanding(w);
        }
      }
    }
  }
}
