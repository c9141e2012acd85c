/** Routing a request to a shard, as functions on a session's shard state. */
module ShardingSpec {
  import opened Seqs
  import opened ShardMaps

  datatype Config = Config(sharding: bool, whitelist: bool, useMap: bool, shards: nat, crossKeysErr: bool)
  {
    predicate Valid()
    {
      1 <= shards <= 48
    }

    /** Neither the whitelist nor a missing map softens the rules. */
    predicate MapMode()
    {
      Valid() && sharding && !whitelist && useMap
    }
  }

  // The shard map, the bucket hash of a key value, and the whitelist.
  datatype Maps = Maps(table: seq<Rec>, hash: string -> nat, listed: string -> Option<Rec>)

  datatype Info = Info(values: seq<string>, recs: seq<Rec>, session: int, shardID: int, sqlhash: int)

  const UNSET: int := -1

  // A sub-command of a composite request, as far as routing looks at it.
  datatype Kind = KeyBind | ShardKey(named: bool, vals: seq<string>) | Plain

  datatype Part = Part(kind: Kind, payload: string)

  datatype Why =
    | AutodiscoverWhileSet | BothApis | NoShardKey | MarkdownRead | MarkdownWrite | CrossKeys | CrossShard

  datatype Verdict = Accepted | Refused(hangup: bool, why: Why)

  const SHARD0 := Rec(0, 0, PLAIN)

  function Lookup(m: Maps, v: string): Rec
    requires m.table != []
  {
    m.table[m.hash(v) % |m.table|]
  }

  /** The record of one key value: whitelist entries count when they name an existing shard. */
  function RecFor(c: Config, m: Maps, v: string): Rec
    requires m.table != []
  {
    if c.whitelist && v == "" then SHARD0
    else if (c.whitelist || !c.useMap) && m.listed(v).Some? && InRange(m.listed(v).value.logical, c.shards)
      then m.listed(v).value
    else Lookup(m, v)
  }

  /** Only the first value counts. */
  predicate Single(c: Config)
  {
    c.whitelist || !c.useMap
  }

  function RecsFor(c: Config, m: Maps, values: seq<string>): (recs: seq<Rec>)
    requires m.table != []
    ensures recs == [] <==> values == []
    ensures recs != [] ==> recs[0] == RecFor(c, m, values[0])
  {
    if values == [] then []
    else if !Single(c) then seq(|values|, i requires 0 <= i < |values| => RecFor(c, m, values[i]))
    else if c.whitelist && values[0] != "" && |values| > 1 && values[1] == "" then [RecFor(c, m, values[0]), SHARD0]
    else [RecFor(c, m, values[0])]
  }

  /** A null value of the whitelist ends the list without cutting it. */
  function ValuesFor(c: Config, values: seq<string>): (kept: seq<string>)
    ensures kept == [] <==> values == []
    ensures kept != [] ==> kept[0] == values[0]
  {
    if Single(c) && |values| > 1 && !(c.whitelist && (values[0] == "" || values[1] == "")) then values[..1] else values
  }

  /** computeLogicalShards. */
  function Computed(c: Config, m: Maps, s: Info): Info
    requires m.table != []
  {
    var recs := RecsFor(c, m, s.values);
    s.(recs := recs, values := ValuesFor(c, s.values), shardID := if recs != [] then recs[0].logical else s.shardID)
  }

  datatype Checked = Checked(shard: Info, verdict: Verdict)

  /** The walk over the sub-commands, then the shards of what autodiscovery found. */
  function Walk(c: Config, m: Maps, sqlhash: int, session: int, parts: seq<Part>, i: nat, s: Info, autodisc: bool): Checked
    requires m.table != [] && i <= |parts|
    decreases |parts| - i
  {
    if i == |parts| then Checked(if autodisc then Computed(c, m, s).(sqlhash := sqlhash) else s, Accepted)
    else match parts[i].kind
      case Plain => Walk(c, m, sqlhash, session, parts, i + 1, s, autodisc)
      case KeyBind =>
        if s.session != UNSET then Checked(s, Refused(true, AutodiscoverWhileSet))
        else if i + 1 == |parts| then Walk(c, m, sqlhash, session, parts, i + 1, s, autodisc)
        else
          var s' := if autodisc then s else Info([], [], session, 0, 0);
          Walk(c, m, sqlhash, session, parts, i + 1, s'.(values := s'.values + [parts[i + 1].payload]), true)
      case ShardKey(named, vals) =>
        if s.session != UNSET then Checked(s, Refused(true, BothApis))
        else if !named && !Single(c) then Checked(s, Refused(false, NoShardKey))
        else Checked(Computed(c, m, (if named then s.(values := vals) else s).(sqlhash := sqlhash)), Accepted)
  }

  /** Without keys and set shard, the soft modes go to shard 0. */
  function Defaulted(c: Config, s: Info): Info
  {
    if s.values == [] && s.session == UNSET && Single(c) then s.(recs := [SHARD0]) else s
  }

  predicate BadMapping(c: Config, s: Info)
  {
    s.values != [] && s.recs != [] && (s.recs[0].flags.badLogical || s.recs[0].logical >= c.shards)
  }

  predicate NoUsableKey(s: Info)
  {
    |s.values| > 1 || (s.values == [] && s.session == UNSET && s.recs == [])
  }

  /** verifyValidShard. */
  function Verified(c: Config, isRead: bool, s: Info): Checked
  {
    if BadMapping(c, s) && !c.whitelist then Checked(s, Refused(s.recs[0].flags.badLogical, NoShardKey))
    else
      var s' := if BadMapping(c, s) then s.(recs := s.recs[0 := SHARD0], shardID := 0) else s;
      if NoUsableKey(s') then
        Checked(s', Refused(s'.values != [] && s'.recs != [] && s'.recs[0].flags.badLogical, NoShardKey))
      else if s'.recs != [] && isRead && s'.recs[0].flags.readDown then Checked(s', Refused(true, MarkdownRead))
      else if s'.recs != [] && !isRead && s'.recs[0].flags.writeDown then Checked(s', Refused(true, MarkdownWrite))
      else Checked(s', Accepted)
  }

  /** verifyXShard. */
  function CrossCheck(c: Config, isRead: bool, prev: Info, s: Info): Verdict
  {
    if isRead then Accepted
    else if prev.values != [] && s.values != [] && prev.values[0] != s.values[0] && c.crossKeysErr
      then Refused(true, CrossKeys)
    else if s.recs != [] && prev.shardID != s.recs[0].logical then Refused(true, CrossShard)
    else Accepted
  }

  datatype State = State(shard: Info, prev: Info, inTxn: bool, worker: Option<int>)

  datatype Request = Request(parts: seq<Part>, isRead: bool, sqlhash: int)

  const START := State(Info([], [], UNSET, 0, 0), Info([], [], UNSET, 0, 0), false, None)

  /** What every request starts from: no keys yet; a transaction remembers where it was. */
  function Opened(st: State): State
  {
    st.(shard := st.shard.(values := [], recs := []),
        prev := if st.inTxn then st.shard else st.prev.(session := st.shard.session))
  }

  datatype Routed = Routed(state: State, verdict: Verdict)

  /** PreprocessSharding; the first sub-command is not looked at. */
  function Preprocessed(c: Config, m: Maps, st: State, r: Request): Routed
    requires m.table != []
  {
    var o := Opened(st);
    var first := if r.parts == [] then 0 else 1;
    var w := Walk(c, m, r.sqlhash, o.prev.session, r.parts, first, o.shard, false);
    if w.verdict != Accepted then Routed(o.(shard := w.shard), w.verdict)
    else
      var v := Verified(c, r.isRead, Defaulted(c, w.shard));
      var o' := o.(shard := v.shard);
      if v.verdict != Accepted || !st.inTxn then Routed(o', v.verdict)
      else Routed(o', CrossCheck(c, r.isRead, o.prev, v.shard))
  }

  /** processSetShardID; None is a value that does not parse. */
  function ShardSet(c: Config, st: State, val: Option<int>): (State, bool)
  {
    if val.None? || !(-1 <= val.value < c.shards) || (!c.sharding && val.value != 0 && val.value != UNSET) then (st, false)
    else
      var s := st.shard.(session := val.value);
      if st.inTxn && st.worker.Some? && st.worker.value != val.value then (st.(shard := s), false)
      else
        var id := if (c.whitelist || !c.sharding) && val.value == UNSET then 0 else val.value;
        (st.(shard := s.(shardID := id)), true)
  }
}

module ShardingProofs {
  import opened Seqs
  import opened ShardMaps
  import opened ShardingSpec

  /** What the walk can have done to the shard info. */
  ghost predicate Walked(c: Config, s: Info, t: Info)
  {
    && t.session == s.session
    && (t.values != [] ==> s.session == UNSET)
    && (t.recs != [] ==> t.values != [] && t.shardID == t.recs[0].logical)
    && (t.recs == [] ==> t.shardID in {s.shardID, 0})
    && (s.session != UNSET ==> t == s)
  }

  /** The walk from a clean start: values without records only where it refuses. */
  lemma {:induction false} WalkKeeps(c: Config, m: Maps, sqlhash: int, parts: seq<Part>, i: nat, s0: Info, s: Info, autodisc: bool)
    requires m.table != [] && i <= |parts|
    requires s0.values == [] && s0.recs == [] && s.recs == []
    requires Walked(c, s0, s) && (autodisc <==> s.values != [])
    ensures var w := Walk(c, m, sqlhash, s0.session, parts, i, s, autodisc);
            && Walked(c, s0, w.shard)
            && (w.verdict != Accepted ==> w.shard.recs == [] && w.verdict != Refused(true, NoShardKey))
            && (w.verdict == Accepted && w.shard.values != [] ==>
                  w.shard.recs != [] && w.shard.recs[0] == RecFor(c, m, w.shard.values[0]))
    decreases |parts| - i
  {
    if i < |parts| {
      match parts[i].kind
      case Plain =>
        WalkKeeps(c, m, sqlhash, parts, i + 1, s0, s, autodisc);
      case KeyBind =>
        if s.session == UNSET {
          if i + 1 == |parts| {
            WalkKeeps(c, m, sqlhash, parts, i + 1, s0, s, autodisc);
          } else {
            var s' := if autodisc then s else Info([], [], s0.session, 0, 0);
            WalkKeeps(c, m, sqlhash, parts, i + 1, s0, s'.(values := s'.values + [parts[i + 1].payload]), true);
          }
        }
      case ShardKey(named, vals) =>
    }
  }

  /** What verification gets to see, when the walk lets the request through. */
  ghost function Seen(c: Config, m: Maps, st: State, r: Request): Checked
    requires m.table != []
  {
    var o := Opened(st);
    var w := Walk(c, m, r.sqlhash, o.prev.session, r.parts, if r.parts == [] then 0 else 1, o.shard, false);
    if w.verdict == Accepted then w.(shard := Defaulted(c, w.shard)) else w
  }

  /** In every mode, keys that reach verification have records, the first belonging to the first key. */
  lemma KeysHaveRecords(c: Config, m: Maps, st: State, r: Request)
    requires m.table != []
    ensures var s := Seen(c, m, st, r);
            s.verdict == Accepted && s.shard.values != [] ==>
              && s.shard.recs != [] && s.shard.recs[0] == RecFor(c, m, s.shard.values[0])
              && s.shard.shardID == s.shard.recs[0].logical
  {
    var o := Opened(st);
    WalkKeeps(c, m, r.sqlhash, r.parts, if r.parts == [] then 0 else 1, o.shard, o.shard, false);
  }

  /** A request keeps the set shard, the transaction and the worker, and remembers where it started. */
  lemma PreprocessedKeeps(c: Config, m: Maps, st: State, r: Request)
    requires m.table != []
    ensures var t := Preprocessed(c, m, st, r).state;
            && t.shard.session == st.shard.session && t.inTxn == st.inTxn && t.worker == st.worker
            && t.prev == (if st.inTxn then st.shard else st.prev.(session := st.shard.session))
            && (st.shard.session != UNSET ==> t.shard == st.shard.(values := [], recs := []))
  {
    var o := Opened(st);
    WalkKeeps(c, m, r.sqlhash, r.parts, if r.parts == [] then 0 else 1, o.shard, o.shard, false);
  }

  /** In every mode, a write accepted inside a transaction stays on the transaction's shard. */
  lemma WritesStayOnShard(c: Config, m: Maps, st: State, r: Request)
    requires m.table != [] && st.inTxn && !r.isRead && Preprocessed(c, m, st, r).verdict == Accepted
    ensures var t := Preprocessed(c, m, st, r).state; t.shard.shardID == t.prev.shardID == st.shard.shardID
  {
    var o := Opened(st);
    WalkKeeps(c, m, r.sqlhash, r.parts, if r.parts == [] then 0 else 1, o.shard, o.shard, false);
  }

  /** By the map, an accepted request goes to an existing shard unless a set shard left a missing one in place. */
  lemma AcceptedInRange(c: Config, m: Maps, st: State, r: Request)
    requires c.MapMode() && m.table != [] && Routable(m.table, |m.table|, c.shards)
    requires Preprocessed(c, m, st, r).verdict == Accepted
    ensures InRange(Preprocessed(c, m, st, r).state.shard.shardID, c.shards)
       <==> st.shard.session == UNSET || InRange(st.shard.shardID, c.shards)
  {
    var o := Opened(st);
    WalkKeeps(c, m, r.sqlhash, r.parts, if r.parts == [] then 0 else 1, o.shard, o.shard, false);
    PreprocessedKeeps(c, m, st, r);
    var s := Seen(c, m, st, r).shard;
    if s.values != [] {
      LookedUp(m, c.shards, s.values[0]);
    }
  }

  lemma LookedUp(m: Maps, shards: nat, v: string)
    requires m.table != [] && Routable(m.table, |m.table|, shards)
    ensures Lookup(m, v).flags.badLogical <==> !InRange(Lookup(m, v).logical, shards)
  {
    assert 0 <= m.hash(v) % |m.table| < |m.table|;
  }

  // How the dispatch of a request ends; a failure ends the session.
  datatype After = Wait(inTxn: bool) | Done | Failed

  // Requests that are not routed: a prepare on its own, or any other command for the worker.
  datatype Unrouted = LonePrepare(isRead: bool) | ForWorker(composite: bool)

  datatype Step =
    | SetShard(val: Option<int>)
    | Ask(request: Request, after: After)
    | Forward(command: Unrouted, fate: After)
    | WorkerSays(inTxn: bool, free: bool)
    | Reload(table: seq<Rec>)

  /** A worker outside a transaction is given up before a composite request is dispatched. */
  ghost function Relieved(st: State): State
  {
    if st.inTxn then st else st.(worker := None)
  }

  /** A request that no held worker can take: there is none, or it is a read on another shard. */
  ghost predicate NeedsPool(st: State, isRead: bool)
  {
    st.worker.None? || (isRead && st.shard.shardID != st.worker.value)
  }

  /** The session is over: the dispatch fails, or there is no pool for the shard. */
  ghost predicate DispatchFails(c: Config, st: State, isRead: bool, after: After)
  {
    after.Failed? || (NeedsPool(st, isRead) && !InRange(st.shard.shardID, c.shards))
  }

  /** A dispatch that works; a read on another shard borrows a worker and restores the shard info. */
  ghost function Dispatched(st: State, isRead: bool, after: After): State
  {
    if st.worker.Some? && NeedsPool(st, isRead) then st.(shard := st.prev, inTxn := true)
    else if after.Wait?
      then st.(worker := Some(if st.worker.Some? then st.worker.value else st.shard.shardID),
               inTxn := if isRead then st.inTxn else after.inTxn)
    else st.(worker := None, inTxn := false)
  }

  /** Without a worker the mux answers these itself. */
  ghost predicate Answered(st: State, command: Unrouted)
  {
    command.ForWorker? && st.worker.None?
  }

  ghost function Unbound(st: State, command: Unrouted): State
  {
    if command == ForWorker(true) then Relieved(st) else st
  }

  ghost predicate Reads(command: Unrouted)
  {
    command == LonePrepare(true)
  }

  ghost predicate Ends(c: Config, m: Maps, st: State, step: Step)
    requires m.table != []
  {
    match step
    case Ask(r, after) =>
      var p := Preprocessed(c, m, st, r);
      p.verdict == Accepted && DispatchFails(c, Relieved(p.state), r.isRead, after)
    case Forward(command, after) =>
      !Answered(st, command) && DispatchFails(c, Unbound(st, command), Reads(command), after)
    case _ => false
  }

  ghost function Stepped(c: Config, m: Maps, st: State, step: Step): State
    requires m.table != []
  {
    match step
    case SetShard(val) => ShardSet(c, st, val).0
    case Ask(r, after) =>
      var p := Preprocessed(c, m, st, r);
      if p.verdict == Accepted then Dispatched(Relieved(p.state), r.isRead, after) else p.state
    case Forward(command, after) =>
      if Answered(st, command) then st else Dispatched(Unbound(st, command), Reads(command), after)
    case WorkerSays(inTxn, free) =>
      if st.worker.None? then st
      else if free then st.(worker := None, inTxn := false)
      else st.(inTxn := inTxn)
    case Reload(_) => st
  }

  ghost predicate StepOk(c: Config, step: Step)
  {
    step.Reload? ==> step.table != [] && Routable(step.table, |step.table|, c.shards)
  }

  ghost function MapsAfter(m: Maps, step: Step): Maps
  {
    if step.Reload? then m.(table := step.table) else m
  }

  /** A map that routing may rely on. */
  ghost predicate ByMap(c: Config, m: Maps)
  {
    c.MapMode() && m.table != [] && Routable(m.table, |m.table|, c.shards)
  }

  /** Every request the run accepts goes to an existing shard. */
  ghost predicate RoutesInRange(c: Config, m: Maps, st: State, steps: seq<Step>)
    requires m.table != []
    decreases steps
  {
    steps != [] ==>
      && (steps[0].Ask? && Preprocessed(c, m, st, steps[0].request).verdict == Accepted ==>
            InRange(Preprocessed(c, m, st, steps[0].request).state.shard.shardID, c.shards))
      && (StepOk(c, steps[0]) && !Ends(c, m, st, steps[0]) ==>
            RoutesInRange(c, MapsAfter(m, steps[0]), Stepped(c, m, st, steps[0]), steps[1..]))
  }

  /** What later requests rely on: a set shard, a transaction, its worker and its memory are on existing shards. */
  ghost predicate Inv(c: Config, st: State)
  {
    && (st.shard.session != UNSET ==> InRange(st.shard.shardID, c.shards))
    && (st.inTxn ==> st.worker.Some? && InRange(st.shard.shardID, c.shards))
    && (st.worker.Some? ==> InRange(st.worker.value, c.shards))
    && InRange(st.prev.shardID, c.shards)
  }

  /** A transaction whose session stands on a shard that does not exist. */
  ghost predicate Leaky(c: Config, st: State)
  {
    st.inTxn && st.worker.Some? && InRange(st.worker.value, c.shards) && !InRange(st.shard.shardID, c.shards)
  }

  /** A request is turned away because its key's bucket is flagged. */
  ghost predicate MissesShard(c: Config, m: Maps, st: State, step: Step)
    requires m.table != []
  {
    step.Ask? && Preprocessed(c, m, st, step.request).verdict == Refused(true, NoShardKey)
  }

  /** The held worker begins a transaction, in answer to an unrouted command or by itself. */
  ghost predicate Begins(st: State, step: Step)
  {
    && st.worker.Some? && !st.inTxn
    && (step == WorkerSays(true, false)
        || (step.Forward? && step.fate == Wait(true) && step.command in {LonePrepare(false), ForWorker(false)}))
  }

  /** A flagged bucket inside a transaction, or a transaction begun while the session's shard is missing. */
  ghost predicate Strays(c: Config, m: Maps, st: State, step: Step)
    requires m.table != []
  {
    || (st.inTxn && MissesShard(c, m, st, step))
    || (Begins(st, step) && !InRange(st.shard.shardID, c.shards))
  }

  /** A request that is not turned away over a flagged bucket inside a transaction keeps the invariant. */
  lemma RequestKeeps(c: Config, m: Maps, st: State, r: Request)
    requires ByMap(c, m) && Inv(c, st)
    requires Preprocessed(c, m, st, r).verdict == Refused(true, NoShardKey) ==> !st.inTxn
    ensures var t := Preprocessed(c, m, st, r).state;
            Inv(c, t) && (st.inTxn ==> t.prev == st.shard)
  {
    PreprocessedKeeps(c, m, st, r);
    var o := Opened(st);
    WalkKeeps(c, m, r.sqlhash, r.parts, if r.parts == [] then 0 else 1, o.shard, o.shard, false);
    var s := Seen(c, m, st, r).shard;
    if s.values != [] {
      LookedUp(m, c.shards, s.values[0]);
    }
  }

  /** One that is leaves the transaction on a missing shard. */
  lemma MissLeaks(c: Config, m: Maps, st: State, r: Request)
    requires ByMap(c, m) && Inv(c, st) && st.inTxn
    requires Preprocessed(c, m, st, r).verdict == Refused(true, NoShardKey)
    ensures Leaky(c, Preprocessed(c, m, st, r).state)
  {
    PreprocessedKeeps(c, m, st, r);
    var o := Opened(st);
    WalkKeeps(c, m, r.sqlhash, r.parts, if r.parts == [] then 0 else 1, o.shard, o.shard, false);
    LookedUp(m, c.shards, Seen(c, m, st, r).shard.values[0]);
  }

  lemma AskStep(c: Config, m: Maps, st: State, r: Request, after: After)
    requires ByMap(c, m) && Inv(c, st) && !Ends(c, m, st, Ask(r, after))
    ensures var t := Stepped(c, m, st, Ask(r, after));
            if Strays(c, m, st, Ask(r, after)) then Leaky(c, t) else Inv(c, t)
  {
    if Strays(c, m, st, Ask(r, after)) {
      MissLeaks(c, m, st, r);
    } else {
      RequestKeeps(c, m, st, r);
      PreprocessedKeeps(c, m, st, r);
      if Preprocessed(c, m, st, r).verdict == Accepted {
        AcceptedInRange(c, m, st, r);
      }
    }
  }

  /** Every step keeps the invariant, except exactly the straying ones, which put a transaction on a missing shard. */
  lemma StepKeeps(c: Config, m: Maps, st: State, step: Step)
    requires ByMap(c, m) && Inv(c, st) && StepOk(c, step) && !Ends(c, m, st, step)
    ensures var t := Stepped(c, m, st, step);
            if Strays(c, m, st, step) then Leaky(c, t) else Inv(c, t)
  {
    match step
    case Ask(r, after) => AskStep(c, m, st, r, after);
    case _ =>
  }

  /** No step of the run strays. */
  ghost predicate Smooth(c: Config, m: Maps, st: State, steps: seq<Step>)
    requires m.table != []
    decreases steps
  {
    steps != [] ==>
      && StepOk(c, steps[0]) && !Strays(c, m, st, steps[0])
      && (!Ends(c, m, st, steps[0]) ==>
            Smooth(c, MapsAfter(m, steps[0]), Stepped(c, m, st, steps[0]), steps[1..]))
  }

  lemma {:induction false} RunKeeps(c: Config, m: Maps, st: State, steps: seq<Step>)
    requires ByMap(c, m) && Inv(c, st) && Smooth(c, m, st, steps)
    ensures RoutesInRange(c, m, st, steps)
    decreases steps
  {
    if steps != [] {
      if steps[0].Ask? && Preprocessed(c, m, st, steps[0].request).verdict == Accepted {
        AcceptedInRange(c, m, st, steps[0].request);
      }
      if !Ends(c, m, st, steps[0]) {
        StepKeeps(c, m, st, steps[0]);
        RunKeeps(c, MapsAfter(m, steps[0]), Stepped(c, m, st, steps[0]), steps[1..]);
      }
    }
  }

  const NO_KEY := Request([Part(Plain, "")], false, 0)

  /** What a client may send next: a set shard and a request without key. */
  function Probe(v: int): seq<Step>
  {
    [SetShard(Some(v)), Ask(NO_KEY, Done)]
  }

  /** In a leaky state a set shard is refused but remembered, and a request without key goes to the missing shard. */
  lemma LeakyIsProbed(c: Config, m: Maps, st: State, v: int)
    requires ByMap(c, m) && Leaky(c, st) && 0 <= v < c.shards && v != st.worker.value
    ensures !RoutesInRange(c, m, st, Probe(v))
  {
    var t := Stepped(c, m, st, SetShard(Some(v)));
    assert t.shard.shardID == st.shard.shardID && t.shard.session == v;
    assert Preprocessed(c, m, t, NO_KEY).verdict == Accepted;
    assert Probe(v)[1..] == [Ask(NO_KEY, Done)];
    assert !RoutesInRange(c, m, t, [Ask(NO_KEY, Done)]);
  }

  lemma ProbeIsSmooth(c: Config, m: Maps, st: State, v: int)
    requires ByMap(c, m) && Inv(c, st)
    ensures Smooth(c, m, st, Probe(v))
  {
    var t := Stepped(c, m, st, SetShard(Some(v)));
    assert Probe(v)[1..] == [Ask(NO_KEY, Done)] && [Ask(NO_KEY, Done)][1..] == [];
    assert Preprocessed(c, m, t, NO_KEY).verdict != Refused(true, NoShardKey);
    assert Smooth(c, m, t, [Ask(NO_KEY, Done)]);
  }

  /** The run up to step k, then the probe, routes in range. */
  ghost predicate Withstands(c: Config, m: Maps, st: State, steps: seq<Step>, k: nat, v: int)
    requires m.table != []
  {
    k <= |steps| ==> RoutesInRange(c, m, st, steps[..k] + Probe(v))
  }

  lemma {:induction false} SmoothProbes(c: Config, m: Maps, st: State, steps: seq<Step>, k: nat, v: int)
    requires ByMap(c, m) && Inv(c, st) && Smooth(c, m, st, steps) && k <= |steps|
    ensures Smooth(c, m, st, steps[..k] + Probe(v))
    decreases k
  {
    var probed := steps[..k] + Probe(v);
    if k == 0 {
      ProbeIsSmooth(c, m, st, v);
      assert probed == Probe(v);
    } else {
      assert probed[0] == steps[0] && probed[1..] == steps[1..][..k - 1] + Probe(v);
      if !Ends(c, m, st, steps[0]) {
        StepKeeps(c, m, st, steps[0]);
        SmoothProbes(c, MapsAfter(m, steps[0]), Stepped(c, m, st, steps[0]), steps[1..], k - 1, v);
      }
    }
  }

  /** A run that strays is found out by a probe right after the straying step. */
  lemma {:induction false} StrayIsProbed(c: Config, m: Maps, st: State, steps: seq<Step>) returns (k: nat, v: int)
    requires ByMap(c, m) && Inv(c, st) && c.shards > 1 && !Smooth(c, m, st, steps)
    requires forall i :: 0 <= i < |steps| ==> StepOk(c, steps[i])
    ensures k <= |steps| && !RoutesInRange(c, m, st, steps[..k] + Probe(v))
    decreases steps
  {
    var step, next, m' := steps[0], Stepped(c, m, st, steps[0]), MapsAfter(m, steps[0]);
    if Strays(c, m, st, step) {
      StrayGoesOn(c, m, st, step);
      StepKeeps(c, m, st, step);
      v := if next.worker.value == 0 then 1 else 0;
      LeakyIsProbed(c, m', next, v);
      k := 1;
      assert steps[..1] + Probe(v) == [step] + Probe(v) && ([step] + Probe(v))[1..] == Probe(v);
    } else {
      StepKeeps(c, m, st, step);
      k, v := StrayIsProbed(c, m', next, steps[1..]);
      k := k + 1;
      assert (steps[..k] + Probe(v))[1..] == steps[1..][..k - 1] + Probe(v);
    }
  }

  lemma StrayGoesOn(c: Config, m: Maps, st: State, step: Step)
    requires m.table != [] && Strays(c, m, st, step)
    ensures !Ends(c, m, st, step) && !step.Reload?
  {
  }

  /**
   By the map, a session routes every accepted request to an existing shard if no step strays; and with
   several shards this is exact: no step strays if and only if the session, cut off anywhere, withstands
   every set shard followed by a request without key.
   */
  lemma SessionRoutesInRange(c: Config, m: Maps, steps: seq<Step>)
    requires ByMap(c, m) && forall i :: 0 <= i < |steps| ==> StepOk(c, steps[i])
    ensures Smooth(c, m, START, steps) ==> RoutesInRange(c, m, START, steps)
    ensures c.shards > 1 ==> (Smooth(c, m, START, steps) <==> forall k, v :: Withstands(c, m, START, steps, k, v))
  {
    if Smooth(c, m, START, steps) {
      RunKeeps(c, m, START, steps);
      forall k: nat, v
        ensures Withstands(c, m, START, steps, k, v)
      {
        if k <= |steps| {
          SmoothProbes(c, m, START, steps, k, v);
          RunKeeps(c, m, START, steps[..k] + Probe(v));
        }
      }
    } else if c.shards > 1 {
      var k, v := StrayIsProbed(c, m, START, steps);
      assert !Withstands(c, m, START, steps, k, v);
    }
  }

  /** With one shard: a set shard and a held worker can only be on it. */
  ghost predicate OneShardInv(st: State)
  {
    && (st.shard.session != UNSET ==> st.shard.shardID == 0)
    && (st.worker.Some? ==> st.worker.value == 0)
    && (st.inTxn ==> st.worker.Some?)
  }

  lemma OneShardStep(c: Config, m: Maps, st: State, step: Step)
    requires ByMap(c, m) && c.shards == 1 && OneShardInv(st) && !Ends(c, m, st, step)
    ensures OneShardInv(Stepped(c, m, st, step))
  {
    if step.Ask? {
      PreprocessedKeeps(c, m, st, step.request);
      if Preprocessed(c, m, st, step.request).verdict == Accepted {
        AcceptedInRange(c, m, st, step.request);
      }
    }
  }

  /** With one shard every session routes in range, straying or not. */
  lemma {:induction false} OneShardRoutesInRange(c: Config, m: Maps, st: State, steps: seq<Step>)
    requires ByMap(c, m) && c.shards == 1 && OneShardInv(st)
    ensures RoutesInRange(c, m, st, steps)
    decreases steps
  {
    if steps != [] {
      if steps[0].Ask? && Preprocessed(c, m, st, steps[0].request).verdict == Accepted {
        AcceptedInRange(c, m, st, steps[0].request);
      }
      if StepOk(c, steps[0]) && !Ends(c, m, st, steps[0]) {
        OneShardStep(c, m, st, steps[0]);
        OneShardRoutesInRange(c, MapsAfter(m, steps[0]), Stepped(c, m, st, steps[0]), steps[1..]);
      }
    }
  }

  function KeyRequest(v: string, isRead: bool): Request
  {
    Request([Part(Plain, ""), Part(ShardKey(true, [v]), "")], isRead, 0)
  }

  // Two shards, the second bucket flagged, keys of odd length in it.
  const LEAK_CONFIG := Config(true, false, true, 2, false)
  const LEAK_MAPS := Maps([Rec(0, 0, PLAIN), GapAt(1)], (v: string) => |v|, _ => None)

  lemma LeakIsByMap()
    ensures ByMap(LEAK_CONFIG, LEAK_MAPS)
  {
  }

  /** A transaction on shard 0, then a key in the flagged bucket: refused, but the shard has become -1. */
  lemma FlaggedKeyMovesShard()
    ensures var a := Stepped(LEAK_CONFIG, LEAK_MAPS, START, Ask(KeyRequest("ab", false), Wait(true)));
            Leaky(LEAK_CONFIG, Stepped(LEAK_CONFIG, LEAK_MAPS, a, Ask(KeyRequest("a", false), Done)))
  {
    var a := Stepped(LEAK_CONFIG, LEAK_MAPS, START, Ask(KeyRequest("ab", false), Wait(true)));
    assert a.shard.shardID == 0 && a.inTxn && a.worker == Some(0) && a.shard.session == UNSET;
  }

  /** A read held on shard 0, the shard reset, then the worker begins a transaction: no flagged bucket is met. */
  lemma BeginningMovesShard()
    ensures var a := Stepped(LEAK_CONFIG, LEAK_MAPS, START, Ask(KeyRequest("ab", true), Wait(false)));
            var b := Stepped(LEAK_CONFIG, LEAK_MAPS, a, SetShard(Some(UNSET)));
            Leaky(LEAK_CONFIG, Stepped(LEAK_CONFIG, LEAK_MAPS, b, Forward(ForWorker(false), Wait(true))))
  {
    var a := Stepped(LEAK_CONFIG, LEAK_MAPS, START, Ask(KeyRequest("ab", true), Wait(false)));
    assert a.shard.shardID == 0 && !a.inTxn && a.worker == Some(0);
    var b := Stepped(LEAK_CONFIG, LEAK_MAPS, a, SetShard(Some(UNSET)));
    assert b.shard.shardID == -1 && !b.inTxn && b.worker == Some(0);
  }

  lemma RunOn(step: Step, st: State, rest: seq<Step>)
    requires !step.Reload? && !Ends(LEAK_CONFIG, LEAK_MAPS, st, step)
    requires !RoutesInRange(LEAK_CONFIG, LEAK_MAPS, Stepped(LEAK_CONFIG, LEAK_MAPS, st, step), rest)
    ensures !RoutesInRange(LEAK_CONFIG, LEAK_MAPS, st, [step] + rest)
  {
    assert ([step] + rest)[1..] == rest;
  }

  /** So both conditions are needed: the first run accepts a request for a shard that does not exist. */
  lemma FlaggedBucketLeaksShard()
    ensures !RoutesInRange(
               LEAK_CONFIG, LEAK_MAPS, START,
               [Ask(KeyRequest("ab", false), Wait(true))] + ([Ask(KeyRequest("a", false), Done)] + Probe(1)))
  {
    LeakIsByMap();
    FlaggedKeyMovesShard();
    var s0, s1 := Ask(KeyRequest("ab", false), Wait(true)), Ask(KeyRequest("a", false), Done);
    var a := Stepped(LEAK_CONFIG, LEAK_MAPS, START, s0);
    LeakyIsProbed(LEAK_CONFIG, LEAK_MAPS, Stepped(LEAK_CONFIG, LEAK_MAPS, a, s1), 1);
    RunOn(s1, a, Probe(1));
    RunOn(s0, START, [s1] + Probe(1));
  }

  /** And so does the second, without any flagged bucket. */
  lemma BeginningLeaksShard()
    ensures !RoutesInRange(
               LEAK_CONFIG, LEAK_MAPS, START,
               [Ask(KeyRequest("ab", true), Wait(false))]
               + ([SetShard(Some(UNSET))] + ([Forward(ForWorker(false), Wait(true))] + Probe(1))))
  {
    LeakIsByMap();
    BeginningMovesShard();
    var s0, s1, s2 := Ask(KeyRequest("ab", true), Wait(false)), SetShard(Some(UNSET)), Forward(ForWorker(false), Wait(true));
    var a := Stepped(LEAK_CONFIG, LEAK_MAPS, START, s0);
    var b := Stepped(LEAK_CONFIG, LEAK_MAPS, a, s1);
    LeakyIsProbed(LEAK_CONFIG, LEAK_MAPS, Stepped(LEAK_CONFIG, LEAK_MAPS, b, s2), 1);
    RunOn(s2, b, Probe(1));
    RunOn(s1, a, [s2] + Probe(1));
    RunOn(s0, START, [s1] + ([s2] + Probe(1)));
  }
}
