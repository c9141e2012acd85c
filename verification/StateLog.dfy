/** Connection counting in the state log. */
module StateLogs {

  const ASSIGN: int := 0
  const IDLE: int := 1
  const BACKLOG: int := 2
  const STRANDED: int := 3
  const CLOSE: int := 4
  const MAX_CONN_STATE: int := 5

  const RW: int := 0
  const TYPES: int := 3

  // The counters of one shard, worker type and instance.
  datatype Cell = Cell(shard: int, wtype: int, inst: int)

  type Cells = map<Cell, seq<int>>

  datatype Event = Event(at: Cell, from: int, to: int)

  /** sizes[s][t] instances of each type in each shard; there is always a first read-write instance. */
  ghost predicate Sized(sizes: seq<seq<nat>>)
  {
    |sizes| > 0 && forall s :: 0 <= s < |sizes| ==> |sizes[s]| == TYPES && sizes[s][RW] > 0
  }

  predicate Exists(sizes: seq<seq<nat>>, x: Cell)
  {
    0 <= x.shard < |sizes| && 0 <= x.wtype < |sizes[x.shard]| && 0 <= x.inst < sizes[x.shard][x.wtype]
  }

  ghost predicate Shaped(sizes: seq<seq<nat>>, cells: Cells)
  {
    && Sized(sizes)
    && (forall x :: x in cells <==> Exists(sizes, x))
    && forall x :: x in cells ==> |cells[x]| == MAX_CONN_STATE
  }

  /** Idle and assigned connections belong to no shard: they are counted everywhere. */
  predicate Global(state: int)
  {
    state == IDLE || state == ASSIGN
  }

  predicate IsState(state: int)
  {
    0 <= state < MAX_CONN_STATE
  }

  function Added(counts: seq<int>, state: int, d: int): seq<int>
    requires 0 <= state < |counts|
  {
    counts[state := counts[state] + d]
  }

  ghost function Bumped(cells: Cells, at: Cell, state: int, d: int): (r: Cells)
    requires IsState(state) && forall x :: x in cells ==> |cells[x]| == MAX_CONN_STATE
    ensures r.Keys == cells.Keys && forall x :: x in r ==> |r[x]| == MAX_CONN_STATE
  {
    map x | x in cells :: if Global(state) || x == at then Added(cells[x], state, d) else cells[x]
  }

  /** The check at the start of updateConnectionState. */
  predicate Sane(sizes: seq<seq<nat>>, maxStandby: nat, e: Event)
  {
    && e.to != e.from && IsState(e.to) && IsState(e.from)
    && e.at.shard < |sizes| && e.at.wtype < TYPES && e.at.inst < maxStandby
  }

  ghost function Updated(sizes: seq<seq<nat>>, maxStandby: nat, cells: Cells, e: Event): (r: Cells)
    requires Shaped(sizes, cells)
    ensures Shaped(sizes, r)
  {
    if Sane(sizes, maxStandby, e) then Bumped(Bumped(cells, e.at, e.to, 1), e.at, e.from, -1) else cells
  }

  /** Backlog, stranded and, if asked for, closed connections of one cell. */
  function Local(counts: seq<int>, withClose: bool): int
    requires |counts| == MAX_CONN_STATE
  {
    counts[BACKLOG] + counts[STRANDED] + if withClose then counts[CLOSE] else 0
  }

  predicate Counted(state: int, withClose: bool)
  {
    state == BACKLOG || state == STRANDED || (withClose && state == CLOSE)
  }

  ghost function SumInsts(sizes: seq<seq<nat>>, cells: Cells, s: nat, t: nat, n: nat, withClose: bool): int
    requires Shaped(sizes, cells) && s < |sizes| && t < TYPES && n <= sizes[s][t]
  {
    if n == 0 then 0
    else SumInsts(sizes, cells, s, t, n - 1, withClose) + Local(cells[Cell(s, t, n - 1)], withClose)
  }

  ghost function SumTypes(sizes: seq<seq<nat>>, cells: Cells, s: nat, t: nat, withClose: bool): int
    requires Shaped(sizes, cells) && s < |sizes| && t <= TYPES
  {
    if t == 0 then 0
    else SumTypes(sizes, cells, s, t - 1, withClose) + SumInsts(sizes, cells, s, t - 1, sizes[s][t - 1], withClose)
  }

  ghost function SumShards(sizes: seq<seq<nat>>, cells: Cells, s: nat, withClose: bool): int
    requires Shaped(sizes, cells) && s <= |sizes|
  {
    if s == 0 then 0 else SumShards(sizes, cells, s - 1, withClose) + SumTypes(sizes, cells, s - 1, TYPES, withClose)
  }

  lemma BumpedShape(sizes: seq<seq<nat>>, cells: Cells, at: Cell, state: int, d: int)
    requires Shaped(sizes, cells) && IsState(state)
    ensures Shaped(sizes, Bumped(cells, at, state, d))
  {
  }

  lemma {:induction false} BumpInsts(sizes: seq<seq<nat>>, cells: Cells, at: Cell, state: int, d: int, s: nat, t: nat, n: nat, withClose: bool)
    requires Shaped(sizes, cells) && Exists(sizes, at) && IsState(state) && Shaped(sizes, Bumped(cells, at, state, d))
    requires s < |sizes| && t < TYPES && n <= sizes[s][t]
    ensures SumInsts(sizes, Bumped(cells, at, state, d), s, t, n, withClose)
         == SumInsts(sizes, cells, s, t, n, withClose)
            + if Counted(state, withClose) && at.shard == s && at.wtype == t && at.inst < n then d else 0
  {
    if n > 0 {
      BumpInsts(sizes, cells, at, state, d, s, t, n - 1, withClose);
    }
  }

  lemma {:induction false} BumpTypes(sizes: seq<seq<nat>>, cells: Cells, at: Cell, state: int, d: int, s: nat, t: nat, withClose: bool)
    requires Shaped(sizes, cells) && Exists(sizes, at) && IsState(state) && Shaped(sizes, Bumped(cells, at, state, d))
    requires s < |sizes| && t <= TYPES
    ensures SumTypes(sizes, Bumped(cells, at, state, d), s, t, withClose)
         == SumTypes(sizes, cells, s, t, withClose)
            + if Counted(state, withClose) && at.shard == s && at.wtype < t then d else 0
  {
    if t > 0 {
      BumpTypes(sizes, cells, at, state, d, s, t - 1, withClose);
      BumpInsts(sizes, cells, at, state, d, s, t - 1, sizes[s][t - 1], withClose);
    }
  }

  lemma {:induction false} BumpShards(sizes: seq<seq<nat>>, cells: Cells, at: Cell, state: int, d: int, s: nat, withClose: bool)
    requires Shaped(sizes, cells) && Exists(sizes, at) && IsState(state) && Shaped(sizes, Bumped(cells, at, state, d))
    requires s <= |sizes|
    ensures SumShards(sizes, Bumped(cells, at, state, d), s, withClose)
         == SumShards(sizes, cells, s, withClose) + if Counted(state, withClose) && at.shard < s then d else 0
  {
    if s > 0 {
      BumpShards(sizes, cells, at, state, d, s - 1, withClose);
      BumpTypes(sizes, cells, at, state, d, s - 1, TYPES, withClose);
    }
  }

  const FIRST := Cell(0, RW, 0)

  ghost predicate Agree(cells: Cells)
  {
    forall x, y :: x in cells && y in cells && |cells[x]| == |cells[y]| == MAX_CONN_STATE ==>
                     cells[x][ASSIGN] == cells[y][ASSIGN] && cells[x][IDLE] == cells[y][IDLE]
  }

  ghost function Active(sizes: seq<seq<nat>>, cells: Cells): int
    requires Shaped(sizes, cells)
  {
    cells[FIRST][ASSIGN] + cells[FIRST][IDLE]
  }

  /** The books balance: every connection counted in is counted out, and Close counts closes less opens. */
  ghost predicate Balanced(sizes: seq<seq<nat>>, cells: Cells, open: int)
    requires Shaped(sizes, cells)
  {
    && Agree(cells)
    && Active(sizes, cells) + SumShards(sizes, cells, |sizes|, true) == 0
    && Active(sizes, cells) + SumShards(sizes, cells, |sizes|, false) == open
  }

  lemma BumpAgrees(cells: Cells, at: Cell, state: int, d: int)
    requires IsState(state) && Agree(cells) && forall x :: x in cells ==> |cells[x]| == MAX_CONN_STATE
    ensures Agree(Bumped(cells, at, state, d))
  {
    var next := Bumped(cells, at, state, d);
    forall x, y | x in next && y in next
      ensures next[x][ASSIGN] == next[y][ASSIGN] && next[x][IDLE] == next[y][IDLE]
    {
      assert cells[x][ASSIGN] == cells[y][ASSIGN] && cells[x][IDLE] == cells[y][IDLE];
    }
  }

  /** One change of a counter, seen in the sums. */
  lemma BumpBalance(sizes: seq<seq<nat>>, cells: Cells, at: Cell, state: int, d: int)
    requires Shaped(sizes, cells) && Exists(sizes, at) && IsState(state) && Agree(cells)
    ensures var next := Bumped(cells, at, state, d);
            && Shaped(sizes, next) && Agree(next)
            && Active(sizes, next) + SumShards(sizes, next, |sizes|, true)
               == Active(sizes, cells) + SumShards(sizes, cells, |sizes|, true) + d
            && Active(sizes, next) + SumShards(sizes, next, |sizes|, false)
               == Active(sizes, cells) + SumShards(sizes, cells, |sizes|, false) + if state == CLOSE then 0 else d
  {
    var next := Bumped(cells, at, state, d);
    BumpedShape(sizes, cells, at, state, d);
    BumpShards(sizes, cells, at, state, d, |sizes|, true);
    BumpShards(sizes, cells, at, state, d, |sizes|, false);
    BumpAgrees(cells, at, state, d);
    assert FIRST in cells;
  }

  ghost predicate InRange(sizes: seq<seq<nat>>, maxStandby: nat, e: Event)
  {
    Sane(sizes, maxStandby, e) ==> Exists(sizes, e.at)
  }

  /** Opens less closes of a run. */
  function Opened(sizes: seq<seq<nat>>, maxStandby: nat, events: seq<Event>): int
  {
    if events == [] then 0
    else
      var e := events[|events| - 1];
      Opened(sizes, maxStandby, events[..|events| - 1])
      + if !Sane(sizes, maxStandby, e) then 0 else if e.from == CLOSE then 1 else if e.to == CLOSE then -1 else 0
  }

  lemma UpdateBalances(sizes: seq<seq<nat>>, maxStandby: nat, cells: Cells, e: Event, open: int)
    requires Shaped(sizes, cells) && Balanced(sizes, cells, open) && InRange(sizes, maxStandby, e)
    ensures var next := Updated(sizes, maxStandby, cells, e);
            && Shaped(sizes, next)
            && Balanced(sizes, next,
                        open + if !Sane(sizes, maxStandby, e) then 0
                               else if e.from == CLOSE then 1 else if e.to == CLOSE then -1 else 0)
  {
    if Sane(sizes, maxStandby, e) {
      BumpBalance(sizes, cells, e.at, e.to, 1);
      BumpBalance(sizes, Bumped(cells, e.at, e.to, 1), e.at, e.from, -1);
    }
  }

  ghost predicate Zero(cells: Cells)
  {
    forall x :: x in cells ==> cells[x] == [0, 0, 0, 0, 0]
  }

  /** The counters after a run of events. */
  ghost function After(sizes: seq<seq<nat>>, maxStandby: nat, cells: Cells, events: seq<Event>): Cells
    requires Shaped(sizes, cells)
    ensures Shaped(sizes, After(sizes, maxStandby, cells, events))
  {
    if events == [] then cells
    else Updated(sizes, maxStandby, After(sizes, maxStandby, cells, events[..|events| - 1]), events[|events| - 1])
  }

  /** One event, seen from one counter: up for the state entered, down for the one left, everywhere if it is global. */
  lemma EventTells(sizes: seq<seq<nat>>, maxStandby: nat, cells: Cells, e: Event, x: Cell, state: int)
    requires Shaped(sizes, cells) && x in cells && 0 <= state < MAX_CONN_STATE
    ensures var next := Updated(sizes, maxStandby, cells, e);
            x in next && |next[x]| == MAX_CONN_STATE && next[x][state] == cells[x][state] + Effect(sizes, maxStandby, e, x, state)
  {
  }

  function Effect(sizes: seq<seq<nat>>, maxStandby: nat, e: Event, x: Cell, state: int): int
  {
    if !Sane(sizes, maxStandby, e) || (x != e.at && state != IDLE && state != ASSIGN) then 0
    else if e.to == state then 1 else if e.from == state then -1 else 0
  }

  function Effects(sizes: seq<seq<nat>>, maxStandby: nat, events: seq<Event>, x: Cell, state: int): int
  {
    if events == [] then 0
    else Effects(sizes, maxStandby, events[..|events| - 1], x, state) + Effect(sizes, maxStandby, events[|events| - 1], x, state)
  }

  /** Every counter is what its events made it: the connections that entered its state less those that left. */
  lemma {:induction false} CountersTell(sizes: seq<seq<nat>>, maxStandby: nat, cells: Cells, events: seq<Event>, x: Cell, state: int)
    requires Shaped(sizes, cells) && x in cells && 0 <= state < MAX_CONN_STATE
    ensures var after := After(sizes, maxStandby, cells, events);
            && Shaped(sizes, after) && x in after && |after[x]| == MAX_CONN_STATE
            && after[x][state] == cells[x][state] + Effects(sizes, maxStandby, events, x, state)
    decreases events
  {
    if events != [] {
      CountersTell(sizes, maxStandby, cells, events[..|events| - 1], x, state);
      EventTells(sizes, maxStandby, After(sizes, maxStandby, cells, events[..|events| - 1]), events[|events| - 1], x, state);
    }
  }

  lemma {:induction false} ZeroSums(sizes: seq<seq<nat>>, cells: Cells, s: nat, withClose: bool)
    requires Shaped(sizes, cells) && Zero(cells) && s <= |sizes|
    ensures SumShards(sizes, cells, s, withClose) == 0
  {
    if s > 0 {
      ZeroSums(sizes, cells, s - 1, withClose);
      for t := 0 to TYPES
        invariant SumTypes(sizes, cells, s - 1, t, withClose) == 0
      {
        for n := 0 to sizes[s - 1][t]
          invariant SumInsts(sizes, cells, s - 1, t, n, withClose) == 0
        {
        }
      }
    }
  }

  /** After any run of events from zero, the books balance. */
  lemma {:induction false} RunBalances(sizes: seq<seq<nat>>, maxStandby: nat, cells: Cells, events: seq<Event>)
    requires Shaped(sizes, cells) && Zero(cells)
    requires forall i :: 0 <= i < |events| ==> InRange(sizes, maxStandby, events[i])
    ensures Balanced(sizes, After(sizes, maxStandby, cells, events), Opened(sizes, maxStandby, events))
  {
    if events == [] {
      ZeroSums(sizes, cells, |sizes|, true);
      ZeroSums(sizes, cells, |sizes|, false);
      assert FIRST in cells;
    } else {
      var n := |events| - 1;
      RunBalances(sizes, maxStandby, cells, events[..n]);
      UpdateBalances(sizes, maxStandby, After(sizes, maxStandby, cells, events[..n]), events[n],
                     Opened(sizes, maxStandby, events[..n]));
    }
  }

  /** What GetTotalConnections adds up over the first s shards. */
  ghost function Total(sizes: seq<seq<nat>>, cells: Cells, s: nat): int
    requires Shaped(sizes, cells) && s <= |sizes|
  {
    if s == 0 then 0
    else
      assert Exists(sizes, Cell(s - 1, RW, 0));
      Total(sizes, cells, s - 1) + cells[Cell(s - 1, RW, 0)][ASSIGN] + cells[Cell(s - 1, RW, 0)][IDLE]
      + SumTypes(sizes, cells, s - 1, TYPES, false)
  }

  lemma {:induction false} TotalCountsActivePerShard(sizes: seq<seq<nat>>, cells: Cells, s: nat)
    requires Shaped(sizes, cells) && Agree(cells) && s <= |sizes|
    ensures Total(sizes, cells, s) == s * Active(sizes, cells) + SumShards(sizes, cells, s, false)
  {
    if s > 0 {
      TotalCountsActivePerShard(sizes, cells, s - 1);
      assert Exists(sizes, Cell(s - 1, RW, 0)) && FIRST in cells;
      assert s * Active(sizes, cells) == (s - 1) * Active(sizes, cells) + Active(sizes, cells);
    }
  }

  /** After any run the total is the open connections, plus the active ones again for every further shard. */
  lemma TotalConnections(sizes: seq<seq<nat>>, maxStandby: nat, cells: Cells, events: seq<Event>)
    requires Shaped(sizes, cells) && Zero(cells)
    requires forall i :: 0 <= i < |events| ==> InRange(sizes, maxStandby, events[i])
    ensures var t := After(sizes, maxStandby, cells, events);
            && Total(sizes, t, |sizes|) == Opened(sizes, maxStandby, events) + (|sizes| - 1) * Active(sizes, t)
            && (Total(sizes, t, |sizes|) == Opened(sizes, maxStandby, events) <==> |sizes| == 1 || Active(sizes, t) == 0)
  {
    var t := After(sizes, maxStandby, cells, events);
    RunBalances(sizes, maxStandby, cells, events);
    TotalCountsActivePerShard(sizes, t, |sizes|);
    Overcount(|sizes|, Active(sizes, t), Opened(sizes, maxStandby, events));
  }

  lemma Overcount(shards: int, active: int, open: int)
    requires shards > 0
    ensures shards * active + (open - active) == open + (shards - 1) * active
    ensures open + (shards - 1) * active == open <==> shards == 1 || active == 0
  {
    assert shards * active == (shards - 1) * active + active;
  }

  // Two shards with one read-write instance each.
  const TWO_SHARDS: seq<seq<nat>> := [[1, 0, 0], [1, 0, 0]]
  const OPENING := Event(FIRST, CLOSE, IDLE)

  /** With two shards, one open connection makes a total of two. */
  lemma OneConnectionCountsTwice(cells: Cells)
    requires Shaped(TWO_SHARDS, cells) && Zero(cells)
    ensures Opened(TWO_SHARDS, 1, [OPENING]) == 1
    ensures Total(TWO_SHARDS, After(TWO_SHARDS, 1, cells, [OPENING]), 2) == 2
  {
    assert [OPENING][..0] == [];
    assert Exists(TWO_SHARDS, FIRST);
    TotalConnections(TWO_SHARDS, 1, cells, [OPENING]);
  }

  class StateLog {
    const sizes: seq<seq<nat>>
    const maxStandby: nat
    var cells: Cells

    ghost predicate Valid()
      reads this
    {
      Shaped(sizes, cells)
    }

    constructor (sizes: seq<seq<nat>>, maxStandby: nat)
      requires Sized(sizes)
      ensures this.sizes == sizes && this.maxStandby == maxStandby && Valid() && Zero(cells)
    {
      this.sizes, this.maxStandby := sizes, maxStandby;
      cells := map s, t, n | 0 <= s < |sizes| && 0 <= t < |sizes[s]| && 0 <= n < sizes[s][t] ::
                 Cell(s, t, n) := [0, 0, 0, 0, 0];
    }

    /** Counts one connection in or out of a state, everywhere if the state is global. */
    method Count(at: Cell, state: int, d: int)
      requires Valid() && Exists(sizes, at) && IsState(state)
      modifies this
      ensures Valid() && cells == Bumped(old(cells), at, state, d)
    {
      if state == IDLE || state == ASSIGN {
        CountEverywhere(state, d);
      } else {
        cells := cells[at := Added(cells[at], state, d)];
      }
      BumpedShape(sizes, old(cells), at, state, d);
    }

    method CountEverywhere(state: int, d: int)
      requires Valid() && Global(state)
      modifies this
      ensures cells == Bumped(old(cells), FIRST, state, d)
    {
      ghost var before := cells;
      for s := 0 to |sizes|
        invariant Progress(before, cells, state, d, s, 0, 0)
      {
        for t := 0 to TYPES
          invariant Progress(before, cells, state, d, s, t, 0)
        {
          for n := 0 to sizes[s][t]
            invariant Progress(before, cells, state, d, s, t, n)
          {
            NextInst(sizes, before, cells, state, d, s, t, n);
            cells := cells[Cell(s, t, n) := Added(cells[Cell(s, t, n)], state, d)];
          }
          NextType(sizes, before, cells, state, d, s, t);
        }
        NextShard(sizes, before, cells, state, d, s);
      }
      AllDone(sizes, before, cells, state, d);
    }

    method UpdateConnectionState(e: Event)
      requires Valid() && InRange(sizes, maxStandby, e)
      modifies this
      ensures Valid() && cells == Updated(sizes, maxStandby, old(cells), e)
    {
      if e.to == e.from || e.to < 0 || e.to >= MAX_CONN_STATE || e.from < 0 || e.from >= MAX_CONN_STATE
         || e.at.shard >= |sizes| || e.at.wtype >= TYPES || e.at.inst >= maxStandby {
        return;
      }
      Count(e.at, e.to, 1);
      Count(e.at, e.from, -1);
    }

    method GetTotalConnections() returns (counter: int)
      requires Valid()
      ensures counter == Total(sizes, cells, |sizes|)
    {
      counter := 0;
      for s := 0 to |sizes|
        invariant counter == Total(sizes, cells, s)
      {
        assert Exists(sizes, Cell(s, RW, 0));
        counter := counter + cells[Cell(s, RW, 0)][ASSIGN];
        counter := counter + cells[Cell(s, RW, 0)][IDLE];
        ghost var base := counter;
        for t := 0 to TYPES
          invariant counter == base + SumTypes(sizes, cells, s, t, false)
        {
          ghost var inner := counter;
          for n := 0 to sizes[s][t]
            invariant counter == inner + SumInsts(sizes, cells, s, t, n, false)
          {
            assert Exists(sizes, Cell(s, t, n));
            for c := BACKLOG to CLOSE
              invariant counter == inner + SumInsts(sizes, cells, s, t, n, false)
                                   + (if c > BACKLOG then cells[Cell(s, t, n)][BACKLOG] else 0)
                                   + (if c > STRANDED then cells[Cell(s, t, n)][STRANDED] else 0)
            {
              counter := counter + cells[Cell(s, t, n)][c];
            }
          }
        }
      }
    }
  }

  /** The cells before (s, t, n) in loop order are changed, the others are not. */
  ghost predicate Progress(before: Cells, cells: Cells, state: int, d: int, s: int, t: int, n: int)
  {
    && cells.Keys == before.Keys
    && forall x :: x in cells ==>
                     && |cells[x]| == |before[x]| == MAX_CONN_STATE && IsState(state)
                     && cells[x] == if Earlier(x, s, t, n) then Added(before[x], state, d) else before[x]
  }

  lemma NextInst(sizes: seq<seq<nat>>, before: Cells, cells: Cells, state: int, d: int, s: nat, t: nat, n: nat)
    requires Shaped(sizes, before) && Exists(sizes, Cell(s, t, n)) && Progress(before, cells, state, d, s, t, n)
    ensures Cell(s, t, n) in cells && IsState(state) && |cells[Cell(s, t, n)]| == MAX_CONN_STATE
    ensures Progress(before, cells[Cell(s, t, n) := Added(cells[Cell(s, t, n)], state, d)], state, d, s, t, n + 1)
  {
    var next := cells[Cell(s, t, n) := Added(cells[Cell(s, t, n)], state, d)];
    assert next.Keys == cells.Keys;
    forall x | x in next && x != Cell(s, t, n)
      ensures Earlier(x, s, t, n + 1) <==> Earlier(x, s, t, n)
    {
    }
  }

  lemma NextType(sizes: seq<seq<nat>>, before: Cells, cells: Cells, state: int, d: int, s: nat, t: nat)
    requires Shaped(sizes, before) && s < |sizes| && t < TYPES && Progress(before, cells, state, d, s, t, sizes[s][t])
    ensures Progress(before, cells, state, d, s, t + 1, 0)
  {
    forall x | x in cells
      ensures Earlier(x, s, t + 1, 0) <==> Earlier(x, s, t, sizes[s][t])
    {
      assert Exists(sizes, x);
    }
  }

  lemma NextShard(sizes: seq<seq<nat>>, before: Cells, cells: Cells, state: int, d: int, s: nat)
    requires Shaped(sizes, before) && s < |sizes| && Progress(before, cells, state, d, s, TYPES, 0)
    ensures Progress(before, cells, state, d, s + 1, 0, 0)
  {
    forall x | x in cells
      ensures Earlier(x, s + 1, 0, 0) <==> Earlier(x, s, TYPES, 0)
    {
      assert Exists(sizes, x);
    }
  }

  lemma AllDone(sizes: seq<seq<nat>>, before: Cells, cells: Cells, state: int, d: int)
    requires Shaped(sizes, before) && Global(state) && Progress(before, cells, state, d, |sizes|, 0, 0)
    ensures cells == Bumped(before, FIRST, state, d)
  {
    forall x | x in cells
      ensures Earlier(x, |sizes|, 0, 0)
    {
      assert Exists(sizes, x);
    }
  }

  predicate Earlier(x: Cell, s: int, t: int, n: int)
  {
    x.shard < s || (x.shard == s && (x.wtype < t || (x.wtype == t && x.inst < n)))
  }
}
