/** The worker pool as the object that coordinators and the broker call, over the circular queue. */
module WorkerPools {
  import opened Codes
  import opened Bytes
  import opened Seqs
  import opened RingQueues
  import opened PoolSpec
  import opened PoolProofs

  class WorkerPool {
    var activeQ: RingQueue<Ref>
    var checkoutTickets: map<Ref, bytes>
    // The adaptive queue manager's map from dispatched workers to tickets.
    var dispatchedWorkers: map<Ref, bytes>
    var desiredSize: int
    var currentSize: int
    var workers: seq<Option<Ref>>
    // The memory behind the worker pointers.
    var client: map<Ref, Client>

    ghost var born: set<Ref>

    ghost function Abs(): Pool
      reads this, activeQ
    {
      Pool(activeQ.elems, checkoutTickets, dispatchedWorkers, desiredSize, currentSize, workers, client, born)
    }

    ghost predicate Valid()
      reads this, activeQ, activeQ.data
    {
      activeQ.Valid() && Inv(Abs())
    }

    constructor (size: nat)
      ensures Valid() && fresh(activeQ) && fresh(activeQ.data)
      ensures Abs() == Initial(size)
    {
      activeQ := new RingQueue<Ref>();
      checkoutTickets, dispatchedWorkers := map[], map[];
      desiredSize, currentSize := size, size;
      workers := seq(size, i => None);
      client := map[];
      born := {};
    }

    /** Takes the first free worker past its start-up out of the queue, sending the skipped ones to the back. */
    method GetActiveWorker() returns (worker: Option<Ref>)
      requires Valid()
      modifies activeQ, activeQ.data
      ensures activeQ.Valid() && (activeQ.data == old(activeQ.data) || fresh(activeQ.data))
      ensures var k := FirstUsable(old(activeQ.elems), client);
              if k == |old(activeQ.elems)| then worker == None && activeQ.elems == old(activeQ.elems)
              else worker == Some(old(activeQ.elems)[k]) && activeQ.elems == Rotated(old(activeQ.elems), k)
    {
      ghost var all, i := activeQ.elems, 0;
      var cnt := activeQ.Len();
      assert all == all[0..] + all[..0];
      while cnt > 0
        invariant activeQ.Valid() && (activeQ.data == old(activeQ.data) || fresh(activeQ.data))
        invariant i == |all| - cnt && 0 <= i <= |all|
        invariant Rotating(all, i, activeQ.elems, client)
      {
        RotateStep(all, i, activeQ.elems, client);
        var polled := activeQ.Poll();
        var w := polled.value;
        if Usable(client[w].status) {
          return Some(w);
        }
        cnt := cnt - 1;
        var _ := activeQ.Push(w);
        i := i + 1;
      }
      RotateEnd(all, activeQ.elems, client);
      return None;
    }

    /** Whether the worker or the ticket is already registered with the adaptive queue manager. */
    method AlreadyDispatched(ticket: bytes, worker: Ref) returns (b: bool)
      ensures b <==> (worker in dispatchedWorkers && dispatchedWorkers[worker] != [])
                     || exists w :: w in dispatchedWorkers && dispatchedWorkers[w] == ticket
    {
      if worker in dispatchedWorkers && dispatchedWorkers[worker] != [] {
        return true;
      }
      var rest := dispatchedWorkers.Keys;
      while rest != {}
        invariant rest <= dispatchedWorkers.Keys
        invariant forall w :: w in dispatchedWorkers && w !in rest ==> dispatchedWorkers[w] != ticket
      {
        var w :| w in rest;
        if ticket == dispatchedWorkers[w] {
          return true;
        }
        rest := rest - {w};
      }
      return false;
    }

    /** The locked section of GetWorker, with rnd the random number the ticket is printed from. */
    method GetWorker(rnd: nat) returns (o: Outcome)
      requires Valid()
      modifies this, activeQ, activeQ.data
      ensures Valid() && activeQ == old(activeQ) && (activeQ.data == old(activeQ.data) || fresh(activeQ.data))
      ensures (Abs(), o) == Dispatch(old(Abs()), rnd)
    {
      DispatchKeeps(Abs(), rnd);
      var worker := GetActiveWorker();
      if worker == None {
        return NoWorker;
      }
      var ticket := Decimal(rnd);
      var already := AlreadyDispatched(ticket, worker.value);
      if already {
        return Lost(worker.value);
      }
      checkoutTickets := checkoutTickets[worker.value := ticket];
      dispatchedWorkers := dispatchedWorkers[worker.value := ticket];
      return Handed(worker.value, ticket);
    }

    method ReturnWorker(worker: Option<Ref>, ticket: bytes, env: ReturnEnv) returns (o: Outcome)
      requires Valid() && (worker.Some? ==> worker.value in client)
      modifies this, activeQ, activeQ.data
      ensures Valid() && activeQ == old(activeQ) && (activeQ.data == old(activeQ.data) || fresh(activeQ.data))
      ensures (Abs(), o) == TakeBack(old(Abs()), worker, ticket, env)
    {
      TakeBackKeeps(Abs(), worker, ticket, env);
      if worker == None || client[worker.value].status == Quce {
        return Nothing;
      }
      var w := worker.value;
      if ticket == [] || w !in checkoutTickets || checkoutTickets[w] != ticket {
        return Refused;
      }
      checkoutTickets := checkoutTickets - {w};
      dispatchedWorkers := dispatchedWorkers - {w};
      var retired := Settle(w, env);
      if retired {
        return Accepted(w, ticket, true);
      }
      if env.lifo {
        var _ := activeQ.PushFront(w);
      } else {
        var _ := activeQ.Push(w);
      }
      return Accepted(w, ticket, false);
    }

    /** The part of ReturnWorker that updates the worker and decides whether to terminate it. */
    method Settle(w: Ref, env: ReturnEnv) returns (retired: bool)
      requires w in client
      modifies this`client
      ensures retired <==> old(Retires(Abs(), client[w], env))
      ensures client == old(client[w := AfterReturn(Abs(), client[w], env)])
    {
      var c := client[w].(status := Acpt);
      client := client[w := c];
      if desiredSize < currentSize && c.id >= desiredSize {
        return true;
      }
      if c.exitTime != 0 && c.exitTime <= env.now {
        client := client[w := c.(exitTime := 0)];
        return true;
      }
      if env.maxReqs > Add32(c.maxReqCount, c.maxReqCount / 4) || env.maxReqs < c.maxReqCount - c.maxReqCount / 4 {
        if env.maxReqs >= 4 {
          c := c.(maxReqCount := env.maxReqs - env.jitter % (env.maxReqs / 4));
          client := client[w := c];
        }
      }
      if c.maxReqCount != 0 && c.reqCount >= c.maxReqCount {
        return true;
      }
      return false;
    }

    method RestartWorker(worker: Option<Ref>) returns (o: Outcome)
      requires Valid() && (worker.Some? ==> worker.value in client)
      modifies this, activeQ, activeQ.data
      ensures Valid() && activeQ == old(activeQ) && activeQ.data == old(activeQ.data)
      ensures (Abs(), o) == Exit(old(Abs()), worker)
    {
      ExitKeeps(Abs(), worker);
      if worker == None {
        return Nothing;
      }
      var w := worker.value;
      o := Exited(w, if w in checkoutTickets then Some(checkoutTickets[w]) else None);
      checkoutTickets := checkoutTickets - {w};
      dispatchedWorkers := dispatchedWorkers - {w};
      if client[w].id >= desiredSize {
        currentSize := currentSize - 1;
        var _ := activeQ.Remove(w);
        return;
      }
      var _ := activeQ.Remove(w);
    }

    method WorkerReady(worker: Option<Ref>)
      requires Valid() && Enabled(Abs(), Ready(worker))
      modifies this, activeQ, activeQ.data
      ensures Valid() && activeQ == old(activeQ) && (activeQ.data == old(activeQ.data) || fresh(activeQ.data))
      ensures Abs() == Enter(old(Abs()), worker)
    {
      EnterKeeps(Abs(), worker);
      if worker == None {
        return;
      }
      var w := worker.value;
      var _ := activeQ.Push(w);
      workers := workers[client[w].id := Some(w)];
      born := born + {w};
    }

    method Resize(newSize: nat, started: bool) returns (o: Outcome)
      requires Valid()
      modifies this, activeQ, activeQ.data
      ensures Valid() && activeQ == old(activeQ) && activeQ.data == old(activeQ.data)
      ensures (Abs(), o) == SetSize(old(Abs()), newSize, started)
    {
      SetSizeKeeps(Abs(), newSize, started);
      if newSize == desiredSize {
        return Nothing;
      }
      desiredSize := newSize;
      if desiredSize > currentSize {
        workers := Refit(workers, newSize);
        if started {
          currentSize := desiredSize;
        }
        return Nothing;
      }
      var _, gone, _ := activeQ.ForEachRemove(Beyond(client, desiredSize));
      return Swept(gone);
    }

    /** The locked section of the periodic lifespan check. */
    method CheckWorkerLifespan(now: int, dangling: bool, cutoff: nat) returns (o: Outcome)
      requires Valid()
      modifies this, activeQ, activeQ.data
      ensures Valid() && activeQ == old(activeQ) && activeQ.data == old(activeQ.data)
      ensures (Abs(), o) == Apply(old(Abs()), Sweep(now, dangling, cutoff))
    {
      ghost var p := Abs();
      var gone: seq<Ref> := [];
      var i := 0;
      while i < currentSize
        invariant 0 <= i && (i <= currentSize || (i == 0 && currentSize < 0))
        invariant currentSize == p.current && Valid() && activeQ == old(activeQ) && activeQ.data == old(activeQ.data)
        invariant (Abs(), gone) == SweepSlots(p, i, now, dangling, cutoff)
      {
        var expired := CheckSlot(i, now, dangling, cutoff);
        if expired {
          gone := gone + [workers[i].value];
        }
        i := i + 1;
      }
      return Swept(gone);
    }

    method CheckSlot(i: nat, now: int, dangling: bool, cutoff: nat) returns (expired: bool)
      requires Valid() && i < currentSize
      modifies this`client, activeQ, activeQ.data
      ensures Valid() && activeQ.data == old(activeQ.data)
      ensures expired == old(Expires(Abs(), i, now, dangling, cutoff))
      ensures Abs() == SweepSlot(old(Abs()), i, now, dangling, cutoff)
    {
      SweepSlotKeeps(Abs(), i, now, dangling, cutoff);
      if workers[i] == None {
        return false;
      }
      var w := workers[i].value;
      if client[w].exitTime == 0 || client[w].exitTime > now {
        return false;
      }
      var removed := activeQ.Remove(w);
      if removed || (dangling && client[w].sqlStart != 0 && client[w].sqlStart < cutoff) {
        client := client[w := client[w].(exitTime := 0)];
        return true;
      }
      return false;
    }

    /** uint32 time a request has been running; the clock may have wrapped since it started. */
    function Runtime(start: nat, now: nat): (r: nat)
      requires start < 0x1_0000_0000 && now < 0x1_0000_0000
      ensures r < 0x1_0000_0000 && (start + r) % 0x1_0000_0000 == now
    {
      if now < start then 0xFFFF_FFFF - (start - now) + 1 else now - start
    }

    ghost predicate Overdue(w: Ref, now: nat, threshold: nat)
      requires now < 0x1_0000_0000
      reads this
    {
      && w in dispatchedWorkers && w in client && 0 < client[w].sqlStart < 0x1_0000_0000
      && Runtime(client[w].sqlStart, now) > threshold
    }

    /** The dispatched worker whose request has been running longest, if over the threshold. */
    method GetWorkerToRecover(now: nat, threshold: nat) returns (worker: Option<Ref>)
      requires Valid() && now < 0x1_0000_0000
      requires forall w :: w in dispatchedWorkers ==> client[w].sqlStart < 0x1_0000_0000
      modifies this`client
      ensures Valid()
      ensures worker.None? <==> !exists w :: old(Overdue(w, now, threshold))
      ensures worker.None? ==> client == old(client)
      ensures worker.Some? ==>
                && old(Overdue(worker.value, now, threshold))
                && client == old(client)[worker.value := old(client)[worker.value].(sqlStart := 0)]
                && forall w :: old(Overdue(w, now, threshold)) ==>
                                 Runtime(old(client)[w].sqlStart, now) <= Runtime(old(client)[worker.value].sqlStart, now)
    {
      worker := None;
      var sqltime := 0;
      var rest := dispatchedWorkers.Keys;
      while rest != {}
        invariant rest <= dispatchedWorkers.Keys && unchanged(this)
        invariant worker.None? ==> sqltime == 0
        invariant worker.Some? ==>
                    && worker.value !in rest && Overdue(worker.value, now, threshold)
                    && sqltime == Runtime(client[worker.value].sqlStart, now)
        invariant forall w :: w !in rest && Overdue(w, now, threshold) ==>
                    worker.Some? && Runtime(client[w].sqlStart, now) <= sqltime
      {
        var w :| w in rest;
        if client[w].sqlStart != 0 {
          var runtime := Runtime(client[w].sqlStart, now);
          if runtime > threshold && runtime > sqltime {
            sqltime := runtime;
            worker := Some(w);
          }
        }
        rest := rest - {w};
      }
      if worker.Some? {
        client := client[worker.value := client[worker.value].(sqlStart := 0)];
      }
    }
  }

  lemma FirstUsableIs(active: seq<Ref>, client: map<Ref, Client>, k: nat)
    requires k <= |active|
    requires forall i :: 0 <= i < k ==> !CanServe(client, active[i])
    requires k < |active| ==> CanServe(client, active[k])
    ensures FirstUsable(active, client) == k
  {
  }

  /** The queue while its first i workers, none of which can serve, have gone to the back. */
  ghost predicate Rotating(all: seq<Ref>, i: nat, elems: seq<Ref>, client: map<Ref, Client>)
  {
    && i <= |all| && Distinct(all) && (forall w :: w in all ==> w in client)
    && elems == all[i..] + all[..i]
    && forall j :: 0 <= j < i ==> !CanServe(client, all[j])
  }

  /** The next worker is either the first usable one, or goes to the back. */
  lemma RotateStep(all: seq<Ref>, i: nat, elems: seq<Ref>, client: map<Ref, Client>)
    requires i < |all| && Rotating(all, i, elems, client)
    ensures elems != [] && elems[0] == all[i] && elems[0] in client && elems[0] !in elems[1..]
    ensures if CanServe(client, all[i]) then FirstUsable(all, client) == i && elems[1..] == Rotated(all, i)
            else Rotating(all, i + 1, elems[1..] + [elems[0]], client)
  {
    assert all[..i + 1] == all[..i] + [all[i]];
    assert all[i..] == [all[i]] + all[i + 1..];
    assert elems[1..] == all[i + 1..] + all[..i];
    if CanServe(client, all[i]) {
      FirstUsableIs(all, client, i);
    }
  }

  lemma RotateEnd(all: seq<Ref>, elems: seq<Ref>, client: map<Ref, Client>)
    requires Rotating(all, |all|, elems, client)
    ensures elems == all && FirstUsable(all, client) == |all|
  {
    assert all[|all|..] == [] && all[..|all|] == all;
    FirstUsableIs(all, client, |all|);
  }
}
