/**
 The growable circular queue of distinct elements behind the pool of free workers.
 `elems` is the plain sequence the queue stands for; every method is specified on it.
 */
module RingQueues {
  import opened Seqs

  class RingQueue<T(==, 0, !new)> {
    var data: array<T>
    var head: nat
    var tail: nat
    var capacity: nat
    // The keys mapped to true in the membership map.
    var idmap: set<T>

    ghost var elems: seq<T>

    ghost predicate Shape()
      reads this
    {
      && 2 <= capacity == data.Length
      && head < capacity
      && tail < capacity
    }

    ghost predicate Valid()
      reads this, data
    {
      && Shape()
      && |elems| < capacity
      && tail == Slot(head, capacity, |elems|)
      && (forall i :: 0 <= i < |elems| ==> data[Slot(head, capacity, i)] == elems[i])
      && Distinct(elems)
      && idmap == Elements(elems)
    }

    constructor ()
      ensures Valid() && fresh(data) && elems == []
    {
      capacity := 128;
      data := new T[128];
      head, tail := 0, 0;
      idmap, elems := {}, [];
    }

    method Len() returns (n: nat)
      requires Valid()
      ensures n == |elems|
    {
      if tail >= head {
        return tail - head;
      }
      return tail - head + capacity;
    }

    function Incr(pos: nat): (r: nat)
      requires Shape() && pos < capacity
      reads this
      ensures r == if pos + 1 == capacity then 0 else pos + 1
    {
      (pos + 1) % capacity
    }

    function Decr(pos: nat): (r: nat)
      requires Shape() && pos < capacity
      reads this
      ensures r == if pos == 0 then capacity - 1 else pos - 1
    {
      ModWraps(pos + capacity - 1, capacity);
      (pos + capacity - 1) % capacity
    }

    method Double()
      requires Valid()
      modifies this
      ensures Valid() && fresh(data)
      ensures elems == old(elems) && idmap == old(idmap) && capacity == 2 * old(capacity)
    {
      var from := data;
      var to := new T[2 * capacity];
      var idxs, idxd := head, 0;
      while idxs != tail
        invariant 0 <= idxd <= |elems| && idxs == Slot(head, capacity, idxd)
        invariant Valid() && unchanged(this) && data == from && fresh(to) && to != from
        invariant forall i :: 0 <= i < idxd ==> to[i] == elems[i]
        decreases |elems| - idxd
      {
        to[idxd] := from[idxs];
        idxd := idxd + 1;
        idxs := Incr(idxs);
      }
      capacity, data := 2 * capacity, to;
      head, tail := 0, idxd;
    }

    /** Makes room for one more element. */
    method Reserve()
      requires Valid()
      modifies this
      ensures Valid() && |elems| + 1 < capacity && elems == old(elems) && idmap == old(idmap)
      ensures data == old(data) || fresh(data)
    {
      var n := Len();
      if n + 1 == capacity {
        Double();
      }
    }

    method Push(el: T) returns (added: bool)
      requires Valid()
      modifies this, data
      ensures Valid() && (data == old(data) || fresh(data))
      ensures added == (el !in old(elems))
      ensures elems == if added then old(elems) + [el] else old(elems)
    {
      if el in idmap {
        return false;
      }
      Reserve();
      idmap := idmap + {el};
      data[tail] := el;
      tail := Incr(tail);
      elems := elems + [el];
      return true;
    }

    method PushFront(el: T) returns (added: bool)
      requires Valid()
      modifies this, data
      ensures Valid() && (data == old(data) || fresh(data))
      ensures added == (el !in old(elems))
      ensures elems == if added then [el] + old(elems) else old(elems)
    {
      if el in idmap {
        return false;
      }
      Reserve();
      idmap := idmap + {el};
      ghost var h, before := head, elems;
      head := Decr(head);
      data[head] := el;
      elems := [el] + elems;
      forall i | 0 <= i < |elems|
        ensures data[Slot(head, capacity, i)] == elems[i]
      {
        if 0 < i {
          assert Slot(head, capacity, i) == Slot(h, capacity, i - 1);
          assert elems[i] == before[i - 1];
        }
      }
      return true;
    }

    /** Removes the front element; None stands for the nil of the empty queue. */
    method Poll() returns (el: Option<T>)
      requires Valid()
      modifies this
      ensures Valid() && data == old(data)
      ensures el == if old(elems) == [] then None else Some(old(elems)[0])
      ensures elems == if old(elems) == [] then [] else old(elems)[1..]
    {
      var n := Len();
      if n == 0 {
        return None;
      }
      var first := data[head];
      assert first == elems[0];
      ghost var h, before := head, elems;
      head := Incr(head);
      idmap := idmap - {first};
      elems := elems[1..];
      forall i | 0 <= i < |elems|
        ensures data[Slot(head, capacity, i)] == elems[i]
      {
        assert Slot(head, capacity, i) == Slot(h, capacity, i + 1);
        assert elems[i] == before[i + 1];
      }
      assert before == [first] + elems;
      return Some(first);
    }

    /** Moves every element behind logical position k one slot towards the head. */
    method Shift(start: nat, ghost k: nat)
      requires Shape() && |elems| < capacity && tail == Slot(head, capacity, |elems|)
      requires forall i :: 0 <= i < |elems| ==> data[Slot(head, capacity, i)] == elems[i]
      requires k < |elems| && start == Slot(head, capacity, k)
      modifies data
      ensures Shifted(data[..], head, elems, k, |elems| - 1)
    {
      var pos := start;
      var next := Incr(pos);
      ghost var j := k;
      while next != tail
        invariant k <= j < |elems| && pos == Slot(head, capacity, j) && next == Slot(head, capacity, j + 1)
        invariant Shifted(data[..], head, elems, k, j)
        decreases |elems| - j
      {
        ghost var before := data[..];
        ShiftStep(before, head, elems, k, j);
        data[pos] := data[next];
        assert data[..] == before[pos := before[next]];
        pos := next;
        next := Incr(next);
        j := j + 1;
      }
      SlotMeets(head, capacity, j + 1, |elems|);
    }

    /** Closes the gap at start, the slot of logical position k. */
    method RemoveAt(start: nat, ghost k: nat)
      requires Valid()
      requires k < |elems| && start == Slot(head, capacity, k)
      modifies this, data
      ensures Valid() && data == old(data) && head == old(head) && capacity == old(capacity)
      ensures elems == Without(old(elems), k)
    {
      WithoutDistinct(elems, k);
      WithoutElements(elems, k);
      idmap := idmap - {data[start]};
      Shift(start, k);
      GapIsClosed(data[..], head, elems, k);
      tail := Decr(tail);
      elems := Without(elems, k);
    }

    method Remove(el: T) returns (removed: bool)
      requires Valid()
      modifies this, data
      ensures Valid() && data == old(data)
      ensures removed == (el in old(elems))
      ensures elems == Delete(old(elems), el)
    {
      var pos := head;
      ghost var k := 0;
      while pos != tail
        invariant 0 <= k <= |elems| && pos == Slot(head, capacity, k)
        invariant el !in elems[..k]
        invariant Valid() && unchanged(this) && unchanged(data)
        decreases |elems| - k
      {
        if el == data[pos] {
          RemoveAt(pos, k);
          assert IndexOf(old(elems), el) == k;
          return true;
        }
        pos := Incr(pos);
        k := k + 1;
      }
      return false;
    }

    /**
     Tests the element at pos and removes it if it satisfies f; next is where the walk over s goes on.
     */
    method Visit(pos: nat, f: T -> bool, ghost s: seq<T>, ghost k: nat, ghost removed: seq<T>, ghost tested: seq<T>)
      returns (next: nat, gone: Option<T>, ghost k': nat)
      requires Valid() && k < |elems| && pos == Slot(head, capacity, k)
      requires Walked(s, f, k, elems, removed, tested)
      modifies this, data
      ensures Valid() && data == old(data) && |elems| - k' < |old(elems)| - k
      ensures k' <= |elems| && next == Slot(head, capacity, k')
      ensures gone == if f(old(elems)[k]) then Some(old(elems)[k]) else None
      ensures Walked(s, f, k', elems, removed + (if gone.Some? then [gone.value] else []), tested + [old(elems)[k]])
    {
      var el := data[pos];
      WalkStep(s, f, k, elems, removed, tested);
      if f(el) {
        RemoveAt(pos, k);
        return pos, Some(el), k;
      }
      assert removed + [] == removed;
      return Incr(pos), None, k + 1;
    }

    /**
     Walks the whole queue once, dropping the elements satisfying f. `removed` lists
     them in the order met, `tested` every element f was applied to.
     */
    method ForEachRemove(f: T -> bool) returns (cnt: nat, removed: seq<T>, ghost tested: seq<T>)
      requires Valid()
      modifies this, data
      ensures Valid() && data == old(data)
      ensures elems == Filter(old(elems), f, false)
      ensures removed == Filter(old(elems), f, true) && cnt == |removed|
      ensures tested == old(elems)
    {
      cnt, removed, tested := 0, [], [];
      var pos := head;
      ghost var before := elems;
      ghost var k: nat := 0;
      assert before[0..] == before;
      while pos != tail
        invariant Valid() && data == old(data)
        invariant Walked(before, f, k, elems, removed, tested)
        invariant k <= |elems| && pos == Slot(head, capacity, k) && cnt == |removed|
        decreases |elems| - k
      {
        SlotMeets(head, capacity, k, |elems|);
        ghost var el := elems[k];
        var gone;
        pos, gone, k := Visit(pos, f, before, k, removed, tested);
        tested := tested + [el];
        if gone.Some? {
          removed := removed + [gone.value];
          cnt := cnt + 1;
        } else {
          assert removed + [] == removed;
        }
      }
      SlotMeets(head, capacity, k, |elems|);
      WalkEnd(before, f, k, elems, removed, tested);
    }
  }

  /** A walk over s with the k kept elements in front and the rest of the queue still to be tested. */
  ghost predicate Walked<T>(s: seq<T>, f: T -> bool, k: nat, elems: seq<T>, removed: seq<T>, tested: seq<T>)
  {
    && k <= |elems| && tested + elems[k..] == s
    && elems[..k] + Filter(elems[k..], f, false) == Filter(s, f, false)
    && removed + Filter(elems[k..], f, true) == Filter(s, f, true)
  }

  lemma WalkStep<T>(s: seq<T>, f: T -> bool, k: nat, elems: seq<T>, removed: seq<T>, tested: seq<T>)
    requires Walked(s, f, k, elems, removed, tested) && k < |elems|
    ensures if f(elems[k]) then Walked(s, f, k, Without(elems, k), removed + [elems[k]], tested + [elems[k]])
            else Walked(s, f, k + 1, elems, removed, tested + [elems[k]])
  {
    var rest := elems[k + 1..];
    assert elems[k..] == [elems[k]] + rest && elems[k..][1..] == rest;
    assert elems[..k + 1] == elems[..k] + [elems[k]];
    assert Without(elems, k)[..k] == elems[..k] && Without(elems, k)[k..] == rest;
  }

  lemma WalkEnd<T>(s: seq<T>, f: T -> bool, k: nat, elems: seq<T>, removed: seq<T>, tested: seq<T>)
    requires Walked(s, f, k, elems, removed, tested) && k == |elems|
    ensures elems == Filter(s, f, false) && removed == Filter(s, f, true) && tested == s
  {
    assert elems[k..] == [] && elems[..k] == elems;
  }

  /** The elements behind position k are moved down by one, up to position j. */
  ghost predicate Shifted<T>(d: seq<T>, head: nat, elems: seq<T>, k: nat, j: nat)
  {
    && head < |d| && |elems| <= |d|
    && (forall i :: 0 <= i < |elems| && (i < k || j <= i) ==> d[Slot(head, |d|, i)] == elems[i])
    && (forall i :: k < i <= j && i < |elems| ==> d[Slot(head, |d|, i - 1)] == elems[i])
  }

  lemma GapIsClosed<T>(d: seq<T>, head: nat, elems: seq<T>, k: nat)
    requires k < |elems| && Shifted(d, head, elems, k, |elems| - 1)
    ensures forall i :: 0 <= i < |elems| - 1 ==> d[Slot(head, |d|, i)] == Without(elems, k)[i]
  {
    forall i | 0 <= i < |elems| - 1
      ensures d[Slot(head, |d|, i)] == Without(elems, k)[i]
    {
      if k <= i {
        assert d[Slot(head, |d|, (i + 1) - 1)] == elems[i + 1];
      }
    }
  }

  lemma ShiftStep<T>(d: seq<T>, head: nat, elems: seq<T>, k: nat, j: nat)
    requires Shifted(d, head, elems, k, j) && k <= j && j + 1 < |elems|
    ensures Shifted(d[Slot(head, |d|, j) := d[Slot(head, |d|, j + 1)]], head, elems, k, j + 1)
  {
  }
}
