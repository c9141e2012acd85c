/**
 The pool of worker processes of one kind. Every section that holds the pool lock is one
 step. `Pool` is the state such a section sees, with the queue of free workers as a plain
 sequence, and the functions on it are what the methods of `WorkerPool` are proved against.
 */
module PoolSpec {
  import opened Bytes
  import opened Codes
  import opened Seqs

  // Identity of a WorkerClient object.
  type Ref = nat

  predicate Usable(s: Status)
  {
    s != Unset && s != Init
  }

  // The fields of a WorkerClient that the pool looks at.
  datatype Client = Client(id: nat, status: Status, exitTime: int, reqCount: nat, maxReqCount: nat, sqlStart: nat)

  /**
   `born` is history: the workers that ever reported ready. Everything else is the pool's
   own data, with `client` in place of the memory behind the worker pointers.
   */
  datatype Pool = Pool(
    active: seq<Ref>,
    tickets: map<Ref, bytes>,
    dispatched: map<Ref, bytes>,
    desired: int,
    current: int,
    slots: seq<Option<Ref>>,
    client: map<Ref, Client>,
    born: set<Ref>)

  // What the clock and the configuration say while a worker is being returned.
  datatype ReturnEnv = ReturnEnv(now: int, maxReqs: nat, jitter: nat, lifo: bool)

  datatype Event =
    | Spawn(w: Ref, c: Client)
    | Ready(ready: Option<Ref>)
    | Get(rnd: nat)
    | Return(ret: Option<Ref>, ticket: bytes, env: ReturnEnv)
    | Restart(exited: Option<Ref>)
    | SpawnFailed
    | Resize(size: nat, started: bool)
    | Sweep(now: int, dangling: bool, cutoff: nat)
    | Elsewhere(touched: Ref, now': Client)

  datatype Outcome =
    | Nothing
    | NoWorker
    | Handed(w: Ref, ticket: bytes)
    | Lost(w: Ref)
    | Accepted(w: Ref, ticket: bytes, retired: bool)
    | Refused
    | Exited(w: Ref, held: Option<bytes>)
    | Swept(gone: seq<Ref>)

  /** Tickets are not empty and no two workers share one. */
  ghost predicate InOrder(tickets: map<Ref, bytes>)
  {
    && (forall w :: w in tickets ==> tickets[w] != [])
    && (forall v, w :: v in tickets && w in tickets && v != w ==> tickets[v] != tickets[w])
  }

  /** What the pool relies on and every step keeps. */
  ghost predicate Inv(p: Pool)
  {
    && p.tickets == p.dispatched
    && InOrder(p.tickets)
    && Distinct(p.active)
    && (forall w :: w in p.active ==> w !in p.tickets && w in p.born)
    && p.tickets.Keys <= p.born <= p.client.Keys
    && p.current <= |p.slots|
    && (forall i :: 0 <= i < |p.slots| && p.slots[i].Some? ==> p.slots[i].value in p.client)
  }

  /** The workers the pool can still account for: free, or checked out under a ticket. */
  ghost function Owned(p: Pool): set<Ref>
  {
    Elements(p.active) + p.tickets.Keys
  }

  ghost predicate InUse(p: Pool, ticket: bytes)
  {
    exists w :: w in p.dispatched && p.dispatched[w] == ticket
  }

  predicate CanServe(client: map<Ref, Client>, w: Ref)
  {
    w in client && Usable(client[w].status)
  }

  /** Position of the first free worker that can take a request; |active| when there is none. */
  ghost function FirstUsable(active: seq<Ref>, client: map<Ref, Client>): (k: nat)
    ensures k <= |active|
    ensures forall i :: 0 <= i < k ==> !CanServe(client, active[i])
    ensures k < |active| ==> CanServe(client, active[k])
  {
    if active == [] || CanServe(client, active[0]) then 0
    else 1 + FirstUsable(active[1..], client)
  }

  /** The queue after taking position k: the rest, then the skipped front. */
  ghost function Rotated(active: seq<Ref>, k: nat): seq<Ref>
    requires k < |active|
  {
    active[k + 1..] + active[..k]
  }

  /** The section of GetWorker that looks for a free worker and registers it under a ticket. */
  ghost function Dispatch(p: Pool, rnd: nat): (Pool, Outcome)
  {
    var k := FirstUsable(p.active, p.client);
    if k == |p.active| then (p, NoWorker)
    else
      var w := p.active[k];
      var ticket := Decimal(rnd);
      var q := p.(active := Rotated(p.active, k));
      if (w in p.dispatched && p.dispatched[w] != []) || InUse(p, ticket) then (q, Lost(w))
      else (q.(tickets := p.tickets[w := ticket], dispatched := p.dispatched[w := ticket]), Handed(w, ticket))
  }

  /** Sum of two uint32 values. */
  function Add32(a: nat, b: nat): nat
  {
    (a + b) % 0x1_0000_0000
  }

  /** The request limit after the check for a changed configuration. */
  function NewLimit(limit: nat, env: ReturnEnv): nat
  {
    if (env.maxReqs > Add32(limit, limit / 4) || env.maxReqs < limit - limit / 4) && env.maxReqs >= 4
    then env.maxReqs - env.jitter % (env.maxReqs / 4)
    else limit
  }

  /** Whether a worker whose return was accepted is terminated instead of being queued. */
  ghost predicate Retires(p: Pool, c: Client, env: ReturnEnv)
  {
    || (p.desired < p.current && c.id >= p.desired)
    || (c.exitTime != 0 && c.exitTime <= env.now)
    || (var limit := NewLimit(c.maxReqCount, env); limit != 0 && c.reqCount >= limit)
  }

  /** The fields of a worker after an accepted return. */
  ghost function AfterReturn(p: Pool, c: Client, env: ReturnEnv): Client
  {
    var c' := c.(status := Acpt);
    if p.desired < p.current && c.id >= p.desired then c'
    else if c.exitTime != 0 && c.exitTime <= env.now then c'.(exitTime := 0)
    else c'.(maxReqCount := NewLimit(c.maxReqCount, env))
  }

  ghost function TakeBack(p: Pool, ret: Option<Ref>, ticket: bytes, env: ReturnEnv): (Pool, Outcome)
    requires ret.Some? ==> ret.value in p.client
  {
    if ret.None? || p.client[ret.value].status == Quce then (p, Nothing)
    else if ticket == [] || ret.value !in p.tickets || p.tickets[ret.value] != ticket then (p, Refused)
    else
      var w := ret.value;
      var c := p.client[w];
      var q := p.(tickets := p.tickets - {w}, dispatched := p.dispatched - {w},
                  client := p.client[w := AfterReturn(p, c, env)]);
      if Retires(p, c, env) then (q, Accepted(w, ticket, true))
      else (q.(active := Queued(p.active, w, env.lifo)), Accepted(w, ticket, false))
  }

  ghost function Queued(active: seq<Ref>, w: Ref, front: bool): seq<Ref>
  {
    if w in active then active else if front then [w] + active else active + [w]
  }

  ghost function Exit(p: Pool, exited: Option<Ref>): (Pool, Outcome)
    requires exited.Some? ==> exited.value in p.client
  {
    if exited.None? then (p, Nothing)
    else
      var w := exited.value;
      (p.(tickets := p.tickets - {w}, dispatched := p.dispatched - {w}, active := Delete(p.active, w),
          current := if p.client[w].id >= p.desired then p.current - 1 else p.current),
       Exited(w, if w in p.tickets then Some(p.tickets[w]) else None))
  }

  ghost function Enter(p: Pool, ready: Option<Ref>): Pool
    requires ready.Some? ==> ready.value in p.client && p.client[ready.value].id < |p.slots|
  {
    if ready.None? then p
    else
      var w := ready.value;
      p.(active := Queued(p.active, w, false), slots := p.slots[p.client[w].id := Some(w)], born := p.born + {w})
  }

  /** Copying the old slots into a table of n slots. */
  function Refit(slots: seq<Option<Ref>>, n: nat): (r: seq<Option<Ref>>)
    ensures |r| == n
    ensures forall i :: 0 <= i < n ==> r[i] == if i < |slots| then slots[i] else None
  {
    if n <= |slots| then slots[..n] else slots + seq(n - |slots|, i => None)
  }

  /** The test Resize applies to the free workers. */
  function Beyond(client: map<Ref, Client>, size: int): Ref -> bool
  {
    w => w in client && client[w].id >= size
  }

  ghost function SetSize(p: Pool, size: nat, started: bool): (Pool, Outcome)
  {
    if size == p.desired then (p, Nothing)
    else if size > p.current then
      (p.(desired := size, slots := Refit(p.slots, size), current := if started then size else p.current), Nothing)
    else
      (p.(desired := size, active := Filter(p.active, Beyond(p.client, size), false)),
       Swept(Filter(p.active, Beyond(p.client, size), true)))
  }

  /** Slot i holds an expired worker that is free, or dangling and to be cut off. */
  ghost predicate Expires(p: Pool, i: nat, now: int, dangling: bool, cutoff: nat)
  {
    && i < |p.slots| && p.slots[i].Some? && p.slots[i].value in p.client
    && var w := p.slots[i].value;
       var c := p.client[w];
       && c.exitTime != 0 && c.exitTime <= now
       && (w in p.active || (dangling && c.sqlStart != 0 && c.sqlStart < cutoff))
  }

  ghost function SweepSlot(p: Pool, i: nat, now: int, dangling: bool, cutoff: nat): Pool
  {
    if Expires(p, i, now, dangling, cutoff) then
      var w := p.slots[i].value;
      p.(active := Delete(p.active, w), client := p.client[w := p.client[w].(exitTime := 0)])
    else p
  }

  /** The lifespan check over the first n slots, and the workers it terminates. */
  ghost function SweepSlots(p: Pool, n: nat, now: int, dangling: bool, cutoff: nat): (Pool, seq<Ref>)
  {
    if n == 0 then (p, [])
    else
      var (q, gone) := SweepSlots(p, n - 1, now, dangling, cutoff);
      (SweepSlot(q, n - 1, now, dangling, cutoff),
       if Expires(q, n - 1, now, dangling, cutoff) then gone + [q.slots[n - 1].value] else gone)
  }

  /** What the rest of the system guarantees about a step: pointers are live, and a worker reports ready once. */
  ghost predicate Enabled(p: Pool, e: Event)
  {
    match e
    case Spawn(w, c) => w !in p.client
    case Ready(r) => r.Some? ==> r.value in p.client && r.value !in p.born && p.client[r.value].id < |p.slots|
    case Return(r, _, _) => r.Some? ==> r.value in p.client
    case Restart(r) => r.Some? ==> r.value in p.client
    case Elsewhere(w, c) => w in p.client && c.id == p.client[w].id
    case _ => true
  }

  ghost function Apply(p: Pool, e: Event): (Pool, Outcome)
    requires Enabled(p, e)
  {
    match e
    case Spawn(w, c) => (p.(client := p.client[w := c]), Nothing)
    case Ready(r) => (Enter(p, r), Nothing)
    case Get(rnd) => Dispatch(p, rnd)
    case Return(r, ticket, env) => TakeBack(p, r, ticket, env)
    case Restart(r) => Exit(p, r)
    case SpawnFailed => (p.(current := p.current - 1), Nothing)
    case Resize(size, started) => SetSize(p, size, started)
    case Sweep(now, dangling, cutoff) =>
      var (q, gone) := SweepSlots(p, if p.current < 0 then 0 else p.current, now, dangling, cutoff);
      (q, Swept(gone))
    case Elsewhere(w, c) => (p.(client := p.client[w := c]), Nothing)
  }

  /** A run of the pool: its events, what each of them did, and the state it ends in. */
  ghost predicate Trace(p: Pool, es: seq<Event>, os: seq<Outcome>, q: Pool)
    decreases es
  {
    |os| == |es| &&
    if es == [] then q == p
    else Enabled(p, es[0]) && os[0] == Apply(p, es[0]).1 && Trace(Apply(p, es[0]).0, es[1..], os[1..], q)
  }

  /** The pool of n workers right after Init spawned them. */
  function Initial(n: nat): (p: Pool)
    ensures Inv(p) && p.born == {}
  {
    Pool([], map[], map[], n, n, seq(n, i => None), map[], {})
  }

  /** The workers an outcome lets go: told to terminate, exited, or dropped by a ticket clash. */
  ghost function Gone(o: Outcome): set<Ref>
  {
    match o
    case Lost(w) => {w}
    case Accepted(w, _, retired) => if retired then {w} else {}
    case Exited(w, _) => {w}
    case Swept(gone) => Elements(gone)
    case _ => {}
  }

  ghost function AllGone(os: seq<Outcome>): set<Ref>
  {
    if os == [] then {} else Gone(os[0]) + AllGone(os[1..])
  }
}

/** What every step and every run of the pool keeps. */
module PoolProofs {
  import opened Bytes
  import opened Codes
  import opened Seqs
  import opened PoolSpec

  /** Rotating past position k takes that worker out and nobody else. */
  lemma RotatedParts(active: seq<Ref>, k: nat)
    requires Distinct(active) && k < |active|
    ensures Distinct(Rotated(active, k)) && active[k] !in Rotated(active, k)
    ensures Elements(Rotated(active, k)) + {active[k]} == Elements(active)
  {
    var rest := Rotated(active, k);
    forall i | 0 <= i < |rest|
      ensures rest[i] == active[if i < |active| - k - 1 then i + k + 1 else i - (|active| - k - 1)]
    {
    }
    assert active == active[..k] + [active[k]] + active[k + 1..];
  }

  /** Taking w out of the queue, and perhaps registering it under a ticket nobody uses. */
  lemma HandedKeeps(p: Pool, w: Ref, rest: seq<Ref>, ticket: bytes)
    requires Inv(p) && w in p.active && ticket != []
    requires Distinct(rest) && w !in rest && Elements(rest) + {w} == Elements(p.active)
    ensures var q := p.(active := rest); Inv(q) && Owned(p) == Owned(q) + {w}
    ensures var q := p.(active := rest, tickets := p.tickets[w := ticket], dispatched := p.dispatched[w := ticket]);
            !InUse(p, ticket) ==> Inv(q) && Owned(p) == Owned(q)
  {
    assert forall v :: v in rest ==> v in Elements(rest);
    assert forall v :: v in p.active <==> v in Elements(p.active);
  }

  lemma DispatchKeeps(p: Pool, rnd: nat)
    requires Inv(p)
    ensures var (q, o) := Dispatch(p, rnd);
            && Inv(q) && q.born == p.born
            && Owned(p) == Owned(q) + Gone(o)
            && (o.Lost? <==> InUse(p, Decimal(rnd)) && exists w :: w in p.active && CanServe(p.client, w))
            && (o.NoWorker? ==> q == p && forall w :: w in p.active ==> !CanServe(p.client, w))
  {
    var k := FirstUsable(p.active, p.client);
    if k < |p.active| {
      assert p.active[k] in p.active;
      RotatedParts(p.active, k);
      HandedKeeps(p, p.active[k], Rotated(p.active, k), Decimal(rnd));
    }
  }

  lemma TakeBackKeeps(p: Pool, ret: Option<Ref>, ticket: bytes, env: ReturnEnv)
    requires Inv(p) && (ret.Some? ==> ret.value in p.client)
    ensures var (q, o) := TakeBack(p, ret, ticket, env);
            && Inv(q) && q.born == p.born
            && Owned(p) == Owned(q) + Gone(o)
            && (!o.Accepted? ==> q == p)
  {
    var (q, o) := TakeBack(p, ret, ticket, env);
    if o.Accepted? {
      var w := ret.value;
      assert w !in p.active && InOrder(q.tickets);
      if !o.retired {
        QueuedKeeps(p.active, w, env.lifo);
      }
      assert forall v :: v in q.active ==> v == w || v in p.active;
    }
  }

  lemma QueuedKeeps(active: seq<Ref>, w: Ref, front: bool)
    requires Distinct(active) && w !in active
    ensures Distinct(Queued(active, w, front))
    ensures Elements(Queued(active, w, front)) == Elements(active) + {w}
  {
    var q := Queued(active, w, front);
    assert forall v :: v in q <==> v in active || v == w;
  }

  lemma ExitKeeps(p: Pool, exited: Option<Ref>)
    requires Inv(p) && (exited.Some? ==> exited.value in p.client)
    ensures var (q, o) := Exit(p, exited);
            && Inv(q) && q.born == p.born
            && Owned(p) <= Owned(q) + Gone(o)
            && (exited.Some? ==> Owned(q) == Owned(p) - {exited.value})
  {
    if exited.Some? {
      DeleteMembers(p.active, exited.value);
      assert forall w :: w in Delete(p.active, exited.value) <==> w in Elements(Delete(p.active, exited.value));
    }
  }

  lemma EnterKeeps(p: Pool, ready: Option<Ref>)
    requires Inv(p) && Enabled(p, Ready(ready))
    ensures var q := Enter(p, ready);
            && Inv(q)
            && q.born - p.born <= Owned(q) && Owned(p) <= Owned(q)
            && (ready.Some? ==> Owned(q) == Owned(p) + {ready.value} && q.active == p.active + [ready.value])
  {
    if ready.Some? {
      assert Elements(Enter(p, ready).active) == Elements(p.active) + {ready.value};
    }
  }

  lemma {:induction false} FilterKeepsDistinct<T>(s: seq<T>, f: T -> bool, want: bool)
    requires Distinct(s)
    ensures Distinct(Filter(s, f, want))
  {
    if s != [] {
      FilterKeepsDistinct(s[1..], f, want);
      FilterMembers(s[1..], f, want);
    }
  }

  /** Filtering parts the elements. */
  lemma FilterParts<T>(s: seq<T>, f: T -> bool)
    requires Distinct(s)
    ensures Distinct(Filter(s, f, false))
    ensures Elements(s) == Elements(Filter(s, f, false)) + Elements(Filter(s, f, true))
    ensures forall x :: x in Filter(s, f, false) ==> x in s
    ensures forall x :: x in Filter(s, f, true) ==> x in s && f(x)
  {
    FilterKeepsDistinct(s, f, false);
    FilterMembers(s, f, false);
    FilterMembers(s, f, true);
  }

  lemma ShrinkKeeps(p: Pool, size: nat)
    requires Inv(p)
    ensures var q := p.(desired := size, active := Filter(p.active, Beyond(p.client, size), false));
            && Inv(q)
            && Owned(p) == Owned(q) + Elements(Filter(p.active, Beyond(p.client, size), true))
            && (forall w :: w in Filter(p.active, Beyond(p.client, size), true) ==> w in p.client && p.client[w].id >= size)
  {
    FilterParts(p.active, Beyond(p.client, size));
  }

  lemma GrowKeeps(p: Pool, size: nat, current: int)
    requires Inv(p) && size > p.current && current in {size, p.current}
    ensures Inv(p.(desired := size, slots := Refit(p.slots, size), current := current))
  {
  }

  lemma SetSizeKeeps(p: Pool, size: nat, started: bool)
    requires Inv(p)
    ensures var (q, o) := SetSize(p, size, started);
            && Inv(q) && q.born == p.born
            && Owned(p) == Owned(q) + Gone(o)
            && (forall w :: w in Gone(o) ==> w in p.client && p.client[w].id >= size)
  {
    if size != p.desired {
      if size > p.current {
        GrowKeeps(p, size, if started then size else p.current);
      } else {
        ShrinkKeeps(p, size);
      }
    }
  }

  lemma SweepSlotKeeps(p: Pool, i: nat, now: int, dangling: bool, cutoff: nat)
    requires Inv(p)
    ensures var q := SweepSlot(p, i, now, dangling, cutoff);
            && Inv(q)
            && (if Expires(p, i, now, dangling, cutoff) then Owned(p) - {p.slots[i].value} <= Owned(q) <= Owned(p) else q == p)
  {
    if Expires(p, i, now, dangling, cutoff) {
      var w := p.slots[i].value;
      DeleteMembers(p.active, w);
      assert forall v :: v in Delete(p.active, w) <==> v in Elements(Delete(p.active, w));
    }
  }

  /** After part of the lifespan check: nobody but the terminated workers is missing. */
  ghost predicate PartlySwept(p: Pool, q: Pool, gone: seq<Ref>)
  {
    && Inv(q) && q.born == p.born && q.tickets == p.tickets && q.slots == p.slots
    && Owned(p) - Elements(gone) <= Owned(q) <= Owned(p)
  }

  lemma SweptOn(p: Pool, q: Pool, gone: seq<Ref>, i: nat, now: int, dangling: bool, cutoff: nat)
    requires PartlySwept(p, q, gone)
    ensures PartlySwept(p, SweepSlot(q, i, now, dangling, cutoff),
                        if Expires(q, i, now, dangling, cutoff) then gone + [q.slots[i].value] else gone)
  {
    SweepSlotKeeps(q, i, now, dangling, cutoff);
    if Expires(q, i, now, dangling, cutoff) {
      assert Elements(gone + [q.slots[i].value]) == Elements(gone) + {q.slots[i].value};
    }
  }

  lemma {:induction false} SweepKeeps(p: Pool, n: nat, now: int, dangling: bool, cutoff: nat)
    requires Inv(p)
    ensures var (q, gone) := SweepSlots(p, n, now, dangling, cutoff); PartlySwept(p, q, gone)
  {
    if n > 0 {
      SweepKeeps(p, n - 1, now, dangling, cutoff);
      var (q, gone) := SweepSlots(p, n - 1, now, dangling, cutoff);
      SweptOn(p, q, gone, n - 1, now, dangling, cutoff);
    }
  }

  /** The lifespan check touches expired workers only, and takes away their expiry. */
  lemma {:induction false} SweepTakesExpired(p: Pool, n: nat, now: int, dangling: bool, cutoff: nat)
    ensures var (q, gone) := SweepSlots(p, n, now, dangling, cutoff);
            && q.client.Keys == p.client.Keys
            && (forall w :: w in gone ==> w in p.client && p.client[w].exitTime != 0 && p.client[w].exitTime <= now)
            && (forall w :: w in p.client ==>
                              q.client[w] == if w in gone then p.client[w].(exitTime := 0) else p.client[w])
  {
    if n > 0 {
      SweepTakesExpired(p, n - 1, now, dangling, cutoff);
    }
  }

  /**
   Every step keeps the tickets in order, keeps checked-out workers out of the free queue, and
   lets go of a worker only by terminating it, on its exit, or by drawing a ticket in use.
   */
  lemma StepKeeps(p: Pool, e: Event)
    requires Inv(p) && Enabled(p, e)
    ensures var (q, o) := Apply(p, e);
            && Inv(q)
            && p.born <= q.born
            && Owned(p) + (q.born - p.born) <= Owned(q) + Gone(o)
            && (o.Lost? ==> e.Get? && InUse(p, Decimal(e.rnd)))
  {
    match e
    case Get(rnd) => DispatchKeeps(p, rnd);
    case Return(r, ticket, env) => TakeBackKeeps(p, r, ticket, env);
    case Restart(r) => ExitKeeps(p, r);
    case Ready(r) => EnterKeeps(p, r);
    case Resize(size, started) => SetSizeKeeps(p, size, started);
    case Sweep(now, dangling, cutoff) => SweepKeeps(p, if p.current < 0 then 0 else p.current, now, dangling, cutoff);
    case _ =>
  }

  lemma {:induction false} RunKeeps(p: Pool, es: seq<Event>, os: seq<Outcome>, q: Pool)
    requires Inv(p) && Trace(p, es, os, q)
    ensures Inv(q)
    ensures p.born <= q.born
    ensures Owned(p) + (q.born - p.born) <= Owned(q) + AllGone(os)
    decreases es
  {
    if es != [] {
      StepKeeps(p, es[0]);
      RunKeeps(Apply(p, es[0]).0, es[1..], os[1..], q);
    }
  }

  /** No step of the run draws a ticket that is in use at that moment. */
  ghost predicate FreshDraws(p: Pool, es: seq<Event>)
    decreases es
  {
    es == [] ||
    (Enabled(p, es[0]) && (es[0].Get? ==> !InUse(p, Decimal(es[0].rnd))) && FreshDraws(Apply(p, es[0]).0, es[1..]))
  }

  lemma {:induction false} FreshDrawsDropNobody(p: Pool, es: seq<Event>, os: seq<Outcome>, q: Pool)
    requires Inv(p) && Trace(p, es, os, q) && FreshDraws(p, es)
    ensures forall i :: 0 <= i < |os| ==> !os[i].Lost?
    decreases es
  {
    if es != [] {
      StepKeeps(p, es[0]);
      FreshDrawsDropNobody(Apply(p, es[0]).0, es[1..], os[1..], q);
      assert forall i :: 0 < i < |os| ==> os[i] == os[1..][i - 1];
    }
  }

  /**
   In every run from start-up each worker that ever got ready is free, checked out, or was
   let go by an outcome of the run; with fresh tickets that means terminated or exited.
   */
  lemma NobodyIsLost(n: nat, es: seq<Event>, os: seq<Outcome>, q: Pool)
    requires Trace(Initial(n), es, os, q)
    ensures Inv(q)
    ensures q.born <= Owned(q) + AllGone(os)
    ensures FreshDraws(Initial(n), es) ==> forall i :: 0 <= i < |os| ==> !os[i].Lost?
  {
    RunKeeps(Initial(n), es, os, q);
    if FreshDraws(Initial(n), es) {
      FreshDrawsDropNobody(Initial(n), es, os, q);
    }
  }

  // Hand-outs of w, accepted returns of w, and tickets of w cancelled by its exit; under the
  // ticket t only, when one is given.
  predicate Under(ticket: bytes, t: Option<bytes>)
  {
    t.None? || ticket == t.value
  }

  predicate HandsOut(o: Outcome, w: Ref, t: Option<bytes>)
  {
    o.Handed? && o.w == w && Under(o.ticket, t)
  }

  predicate TakesBack(o: Outcome, w: Ref, t: Option<bytes>)
  {
    o.Accepted? && o.w == w && Under(o.ticket, t)
  }

  predicate Cancels(o: Outcome, w: Ref, t: Option<bytes>)
  {
    o.Exited? && o.w == w && o.held.Some? && Under(o.held.value, t)
  }

  ghost function HandedOut(os: seq<Outcome>, w: Ref, t: Option<bytes>): nat
  {
    if os == [] then 0 else HandedOut(os[1..], w, t) + if HandsOut(os[0], w, t) then 1 else 0
  }

  ghost function TakenBack(os: seq<Outcome>, w: Ref, t: Option<bytes>): nat
  {
    if os == [] then 0 else TakenBack(os[1..], w, t) + if TakesBack(os[0], w, t) then 1 else 0
  }

  ghost function Cancelled(os: seq<Outcome>, w: Ref, t: Option<bytes>): nat
  {
    if os == [] then 0 else Cancelled(os[1..], w, t) + if Cancels(os[0], w, t) then 1 else 0
  }

  ghost function Outstanding(p: Pool, w: Ref, t: Option<bytes>): nat
  {
    if w in p.tickets && Under(p.tickets[w], t) then 1 else 0
  }

  /** The books of one worker, before and after a step with outcome o. */
  ghost predicate Balances(p: Pool, o: Outcome, q: Pool, w: Ref, t: Option<bytes>)
  {
    Outstanding(p, w, t) + (if HandsOut(o, w, t) then 1 else 0)
    == Outstanding(q, w, t) + (if TakesBack(o, w, t) then 1 else 0) + (if Cancels(o, w, t) then 1 else 0)
  }

  lemma DispatchBalances(p: Pool, rnd: nat, w: Ref, t: Option<bytes>)
    requires Inv(p)
    ensures Balances(p, Dispatch(p, rnd).1, Dispatch(p, rnd).0, w, t)
  {
    var k := FirstUsable(p.active, p.client);
    if k < |p.active| {
      assert p.active[k] in p.active;
    }
  }

  lemma TakeBackBalances(p: Pool, ret: Option<Ref>, ticket: bytes, env: ReturnEnv, w: Ref, t: Option<bytes>)
    requires Inv(p) && (ret.Some? ==> ret.value in p.client)
    ensures Balances(p, TakeBack(p, ret, ticket, env).1, TakeBack(p, ret, ticket, env).0, w, t)
  {
  }

  lemma ExitBalances(p: Pool, exited: Option<Ref>, w: Ref, t: Option<bytes>)
    requires Inv(p) && (exited.Some? ==> exited.value in p.client)
    ensures Balances(p, Exit(p, exited).1, Exit(p, exited).0, w, t)
  {
  }

  lemma StepBalances(p: Pool, e: Event, w: Ref, t: Option<bytes>)
    requires Inv(p) && Enabled(p, e)
    ensures Balances(p, Apply(p, e).1, Apply(p, e).0, w, t)
  {
    match e
    case Get(rnd) => DispatchBalances(p, rnd, w, t);
    case Return(r, ticket, env) => TakeBackBalances(p, r, ticket, env, w, t);
    case Restart(r) => ExitBalances(p, r, w, t);
    case Sweep(now, dangling, cutoff) => SweepKeeps(p, if p.current < 0 then 0 else p.current, now, dangling, cutoff);
    case _ =>
  }

  /**
   Ticket accounting over any run: hand-outs are balanced by accepted returns, exits and
   tickets still out. With t given it speaks of one (worker, ticket) pair, without it of the worker.
   */
  lemma {:induction false} RunBalances(p: Pool, es: seq<Event>, os: seq<Outcome>, q: Pool, w: Ref, t: Option<bytes>)
    requires Inv(p) && Trace(p, es, os, q)
    ensures Outstanding(p, w, t) + HandedOut(os, w, t)
         == Outstanding(q, w, t) + TakenBack(os, w, t) + Cancelled(os, w, t)
    decreases es
  {
    if es != [] {
      var (r, o) := Apply(p, es[0]);
      StepKeeps(p, es[0]);
      StepBalances(p, es[0], w, t);
      RunBalances(r, es[1..], os[1..], q, w, t);
    }
  }

  /** No pair of worker and ticket is taken back more often than it was handed out, and no worker has two holders. */
  lemma ReturnedAtMostOnce(n: nat, es: seq<Event>, os: seq<Outcome>, q: Pool, w: Ref, ticket: bytes)
    requires Trace(Initial(n), es, os, q)
    ensures TakenBack(os, w, Some(ticket)) <= HandedOut(os, w, Some(ticket))
    ensures 0 <= HandedOut(os, w, None) - TakenBack(os, w, None) - Cancelled(os, w, None) <= 1
  {
    RunBalances(Initial(n), es, os, q, w, Some(ticket));
    RunBalances(Initial(n), es, os, q, w, None);
  }

  /** Whether a returned worker is beyond the size the pool is shrinking to, or past its lifespan. */
  predicate Surplus(p: Pool, c: Client)
  {
    c.id >= p.desired && p.current > p.desired
  }

  predicate Expired(c: Client, now: int)
  {
    c.exitTime != 0 && c.exitTime <= now
  }

  /**
   A return is accepted exactly under the worker's own ticket. Read off the state it leaves: the worker is free
   again exactly when it is not surplus, not expired and below its limit, first in the queue under the lifo
   scheduler and last otherwise; a refused or terminated worker leaves the queue as it was.
   */
  lemma ReturnTells(p: Pool, w: Ref, ticket: bytes, env: ReturnEnv)
    requires Inv(p) && w in p.client
    ensures var (q, o) := TakeBack(p, Some(w), ticket, env);
            var c := p.client[w];
            && (o.Accepted? <==> c.status != Quce && ticket != [] && w in p.tickets && p.tickets[w] == ticket)
            && (!o.Accepted? ==> q == p)
            && (o.Accepted? ==>
                  && w in q.client && w !in q.tickets && q.client[w].status == Acpt
                  && var d := q.client[w];
                     && (w in q.active <==>
                           !Surplus(p, c) && !Expired(c, env.now) && (d.maxReqCount == 0 || d.reqCount < d.maxReqCount))
                     && q.active == (if w !in q.active then p.active else if env.lifo then [w] + p.active else p.active + [w])
                     && o == Accepted(w, ticket, w !in q.active))
  {
  }

  /** The rest of an accepted return: only this worker changes, and its limit only when the configured one moved away. */
  lemma ReturnAdjusts(p: Pool, w: Ref, ticket: bytes, env: ReturnEnv)
    requires Inv(p) && w in p.client && TakeBack(p, Some(w), ticket, env).1.Accepted?
    ensures var q := TakeBack(p, Some(w), ticket, env).0;
            var c := p.client[w];
            && q.client.Keys == p.client.Keys && w in q.client
            && (forall v :: v in p.client && v != w ==> q.client[v] == p.client[v])
            && var d := q.client[w];
               && d.id == c.id && d.reqCount == c.reqCount && d.sqlStart == c.sqlStart
               && d.exitTime == (if !Surplus(p, c) && Expired(c, env.now) then 0 else c.exitTime)
               && (d.maxReqCount != c.maxReqCount ==> !Surplus(p, c) && !Expired(c, env.now) && Picked(d.maxReqCount, env.maxReqs))
               && (env.maxReqs < 4 ==> d.maxReqCount == c.maxReqCount)
  {
    LimitIsPicked(p.client[w].maxReqCount, env);
  }

  /** A limit drawn below the configured one, by less than a quarter. */
  predicate Picked(limit: nat, maxReqs: nat)
  {
    limit <= maxReqs && 4 * limit > 3 * maxReqs
  }

  /** The limit follows the configured one when that differs by more than a quarter, and else stays. */
  lemma LimitIsPicked(limit: nat, env: ReturnEnv)
    ensures NewLimit(limit, env) != limit ==> env.maxReqs >= 4 && Picked(NewLimit(limit, env), env.maxReqs)
    ensures limit + limit / 4 < 0x1_0000_0000 && limit - limit / 4 <= env.maxReqs <= limit + limit / 4 ==>
              NewLimit(limit, env) == limit
    ensures limit + limit / 4 < 0x1_0000_0000 && env.maxReqs >= 4
            && (env.maxReqs < limit - limit / 4 || env.maxReqs > limit + limit / 4) ==>
              Picked(NewLimit(limit, env), env.maxReqs)
  {
    if env.maxReqs >= 4 {
      assert 0 <= env.jitter % (env.maxReqs / 4) < env.maxReqs / 4;
    }
  }

  /** A hand-out takes the first usable worker, registers it under the drawn ticket, and turns the queue behind it. */
  lemma HandOutTells(p: Pool, rnd: nat)
    requires Inv(p)
    ensures var (q, o) := Dispatch(p, rnd);
            && (o.Handed? || o.Lost? ==>
                  exists k :: 0 <= k < |p.active| && p.active[k] == o.w && TurnedAt(p.active, k, q.active)
                              && CanServe(p.client, o.w) && forall i :: 0 <= i < k ==> !CanServe(p.client, p.active[i]))
            && (o.Handed? ==>
                  o.ticket == Decimal(rnd) && q == p.(active := q.active, tickets := p.tickets[o.w := o.ticket],
                                                      dispatched := p.dispatched[o.w := o.ticket]))
            && (o.Lost? ==> q == p.(active := q.active))
  {
    var k := FirstUsable(p.active, p.client);
    if k < |p.active| {
      assert p.active[k] in p.active;
      assert TurnedAt(p.active, k, Rotated(p.active, k));
    }
  }

  /** Position k is gone; what was behind it comes first, then what was before it. */
  ghost predicate TurnedAt(s: seq<Ref>, k: int, t: seq<Ref>)
  {
    && 0 <= k < |s| && |t| == |s| - 1
    && (forall i :: k < i < |s| ==> t[i - k - 1] == s[i])
    && (forall i :: 0 <= i < k ==> t[|s| - k - 1 + i] == s[i])
  }

  /** An exit and a report of readiness change the counted size and the table as they should, and nothing else. */
  lemma ExitTells(p: Pool, w: Ref)
    requires Inv(p) && w in p.client
    ensures var q := Exit(p, Some(w)).0;
            && q == p.(active := q.active, tickets := q.tickets, dispatched := q.dispatched, current := q.current)
            && q.current == p.current - (if p.client[w].id < p.desired then 0 else 1)
            && w !in q.active && w !in q.tickets && w !in q.dispatched
            && (forall v :: v != w ==> (v in q.tickets <==> v in p.tickets) && (v in q.active <==> v in p.active))
  {
    DeleteMembers(p.active, w);
    assert forall v :: v in Delete(p.active, w) <==> v in Elements(Delete(p.active, w));
    assert forall v :: v in p.active <==> v in Elements(p.active);
  }

  lemma ReadyTells(p: Pool, w: Ref)
    requires Inv(p) && Enabled(p, Ready(Some(w)))
    ensures var q := Enter(p, Some(w));
            && |q.slots| == |p.slots| && q == p.(active := p.active + [w], slots := q.slots, born := p.born + {w})
            && forall i :: 0 <= i < |p.slots| ==> q.slots[i] == if i == p.client[w].id then Some(w) else p.slots[i]
  {
  }

  /** Resizing: the size asked for, a table that long when growing, and the free workers within it when shrinking. */
  lemma ResizeTells(p: Pool, size: nat, started: bool)
    requires Inv(p)
    ensures var (q, o) := SetSize(p, size, started);
            && q.desired == size && q.tickets == p.tickets && q.client == p.client
            && (size == p.desired ==> q == p)
            && (size != p.desired && size > p.current ==>
                  && |q.slots| == size && q.active == p.active && q.current == (if started then size else p.current)
                  && forall i :: 0 <= i < size ==> q.slots[i] == if i < |p.slots| then p.slots[i] else None)
            && (size != p.desired && size <= p.current ==>
                  && q.slots == p.slots && q.current == p.current && o.Swept?
                  && (forall w :: w in q.active <==> w in p.active && p.client[w].id < size)
                  && (forall w :: w in o.gone <==> w in p.active && p.client[w].id >= size))
  {
    FilterMembers(p.active, Beyond(p.client, size), false);
    FilterMembers(p.active, Beyond(p.client, size), true);
  }

  /** Slot i is one the lifespan check acts on: its worker is expired, and free or dangling. */
  ghost predicate DueAt(p: Pool, i: int, w: Ref, now: int, dangling: bool, cutoff: nat)
  {
    && 0 <= i < |p.slots| && p.slots[i] == Some(w) && w in p.client && Expired(p.client[w], now)
    && (w in p.active || (dangling && p.client[w].sqlStart != 0 && p.client[w].sqlStart < cutoff))
  }

  ghost predicate DueBelow(p: Pool, n: nat, w: Ref, now: int, dangling: bool, cutoff: nat)
  {
    exists i :: 0 <= i < n && DueAt(p, i, w, now, dangling, cutoff)
  }

  lemma DueStep(p: Pool, n: nat, w: Ref, now: int, dangling: bool, cutoff: nat)
    ensures DueBelow(p, n + 1, w, now, dangling, cutoff)
       <==> DueBelow(p, n, w, now, dangling, cutoff) || DueAt(p, n, w, now, dangling, cutoff)
  {
  }

  /** The lifespan check terminates exactly those, and takes them out of the queue. */
  lemma {:induction false} SweepExactly(p: Pool, n: nat, now: int, dangling: bool, cutoff: nat, w: Ref)
    requires Inv(p)
    ensures var (q, gone) := SweepSlots(p, n, now, dangling, cutoff);
            && (w in gone <==> DueBelow(p, n, w, now, dangling, cutoff))
            && (w in q.active <==> w in p.active && w !in gone)
  {
    if n > 0 {
      SweepExactly(p, n - 1, now, dangling, cutoff, w);
      SweepKeeps(p, n - 1, now, dangling, cutoff);
      SweepTakesExpired(p, n - 1, now, dangling, cutoff);
      var (q, gone) := SweepSlots(p, n - 1, now, dangling, cutoff);
      SweepAt(p, q, gone, n - 1, now, dangling, cutoff, w);
      DueStep(p, n - 1, w, now, dangling, cutoff);
    }
  }

  lemma SweepAt(p: Pool, q: Pool, gone: seq<Ref>, i: nat, now: int, dangling: bool, cutoff: nat, w: Ref)
    requires Inv(q) && q.slots == p.slots && q.client.Keys == p.client.Keys
    requires w in p.client ==> q.client[w] == if w in gone then p.client[w].(exitTime := 0) else p.client[w]
    requires w in q.active <==> w in p.active && w !in gone
    ensures var g := if Expires(q, i, now, dangling, cutoff) then gone + [q.slots[i].value] else gone;
            && (w in g <==> w in gone || DueAt(p, i, w, now, dangling, cutoff))
            && (w in SweepSlot(q, i, now, dangling, cutoff).active <==> w in p.active && w !in g)
  {
    if Expires(q, i, now, dangling, cutoff) {
      var v := q.slots[i].value;
      DeleteMembers(q.active, v);
      assert w in Delete(q.active, v) <==> w in Elements(Delete(q.active, v));
      assert w in q.active <==> w in Elements(q.active);
    }
  }

  lemma TraceOn(p: Pool, e: Event, o: Outcome, r: Pool, es: seq<Event>, os: seq<Outcome>, q: Pool)
    returns (es': seq<Event>, os': seq<Outcome>)
    requires Enabled(p, e) && Apply(p, e) == (r, o) && Trace(r, es, os, q)
    ensures Trace(p, es', os', q) && o in os' && forall x :: x in os ==> x in os'
  {
    es', os' := [e] + es, [o] + os;
    assert es'[1..] == es && os'[1..] == os;
  }

  function Idler(id: nat): Client
  {
    Client(id, Acpt, 0, 0, 0, 0)
  }

  const TICKET := Decimal(7)
  const BOTH := map[1 := Idler(0), 2 := Idler(1)]

  // A pool of two from start-up until the same ticket was drawn twice.
  const ONE_SPAWNED := Pool([], map[], map[], 2, 2, [None, None], map[1 := Idler(0)], {})
  const BOTH_SPAWNED := ONE_SPAWNED.(client := BOTH)
  const ONE_READY := BOTH_SPAWNED.(active := [1], slots := [Some(1), None], born := {1})
  const BOTH_READY := ONE_READY.(active := [1, 2], slots := [Some(1), Some(2)], born := {1, 2})
  const ONE_OUT := BOTH_READY.(active := [2], tickets := map[1 := TICKET], dispatched := map[1 := TICKET])
  const ONE_LOST := ONE_OUT.(active := [])

  lemma BothSpawn()
    ensures Apply(Initial(2), Spawn(1, Idler(0))) == (ONE_SPAWNED, Nothing)
    ensures Apply(ONE_SPAWNED, Spawn(2, Idler(1))) == (BOTH_SPAWNED, Nothing)
  {
    assert Initial(2).slots == [None, None];
  }

  lemma BothGetReady()
    ensures Enabled(BOTH_SPAWNED, Ready(Some(1))) && Apply(BOTH_SPAWNED, Ready(Some(1))) == (ONE_READY, Nothing)
    ensures Enabled(ONE_READY, Ready(Some(2))) && Apply(ONE_READY, Ready(Some(2))) == (BOTH_READY, Nothing)
  {
    assert Enter(BOTH_SPAWNED, Some(1)) == ONE_READY;
    assert Enter(ONE_READY, Some(2)) == BOTH_READY;
  }

  /** The same ticket drawn twice: the first worker is handed out under it, the second is dropped. */
  lemma SecondDrawLoses()
    ensures Apply(BOTH_READY, Get(7)) == (ONE_OUT, Handed(1, TICKET))
    ensures Apply(ONE_OUT, Get(7)) == (ONE_LOST, Lost(2))
  {
    assert FirstUsable([1, 2], BOTH) == 0 && Rotated([1, 2], 0) == [2];
    assert FirstUsable([2], BOTH) == 0 && Rotated([2], 0) == [];
    assert ONE_OUT.dispatched[1] == TICKET;
  }

  lemma DrawTwice() returns (es: seq<Event>, os: seq<Outcome>)
    ensures Trace(BOTH_READY, es, os, ONE_LOST) && Lost(2) in os
  {
    SecondDrawLoses();
    assert Trace(ONE_LOST, [], [], ONE_LOST);
    es, os := TraceOn(ONE_OUT, Get(7), Lost(2), ONE_LOST, [], [], ONE_LOST);
    es, os := TraceOn(BOTH_READY, Get(7), Handed(1, TICKET), ONE_OUT, es, os, ONE_LOST);
  }

  lemma StartUp(es: seq<Event>, os: seq<Outcome>, q: Pool) returns (es': seq<Event>, os': seq<Outcome>)
    requires Trace(BOTH_READY, es, os, q)
    ensures Trace(Initial(2), es', os', q) && forall x :: x in os ==> x in os'
  {
    BothSpawn();
    BothGetReady();
    es', os' := TraceOn(ONE_READY, Ready(Some(2)), Nothing, BOTH_READY, es, os, q);
    es', os' := TraceOn(BOTH_SPAWNED, Ready(Some(1)), Nothing, ONE_READY, es', os', q);
    es', os' := TraceOn(ONE_SPAWNED, Spawn(2, Idler(1)), Nothing, BOTH_SPAWNED, es', os', q);
    es', os' := TraceOn(Initial(2), Spawn(1, Idler(0)), Nothing, ONE_SPAWNED, es', os', q);
  }

  /** So in this run from start-up a worker is neither free nor checked out nor told to stop. */
  lemma TicketClashLosesWorker()
    ensures exists es, os, q :: Trace(Initial(2), es, os, q) && Lost(2) in os && 2 in q.born && 2 !in Owned(q)
  {
    var es, os := DrawTwice();
    es, os := StartUp(es, os, ONE_LOST);
    assert 2 in ONE_LOST.born && 2 !in Owned(ONE_LOST);
  }
}
