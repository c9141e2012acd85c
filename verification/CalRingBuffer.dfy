/** The byte ring buffer in front of the CAL daemon's socket; `queue` is the FIFO it stands for. */
module CalRingBuffers {
  import opened Bytes
  import opened Seqs

  class RingBuffer {
    var ring: array<byte>
    var capacity: nat
    var used: nat
    var head: nat
    var tail: nat

    ghost var queue: bytes

    ghost predicate Valid()
      reads this, ring
    {
      && ring.Length == capacity
      && |queue| == used <= capacity
      && (if capacity == 0 then head == tail == 0 else head < capacity && tail < capacity)
      && tail == Slot(head, capacity, used)
      && forall i :: 0 <= i < used ==> ring[Slot(head, capacity, i)] == queue[i]
    }

    constructor (size: nat)
      ensures Valid() && fresh(ring) && capacity == size && queue == []
    {
      ring := new byte[size];
      capacity := size;
      head, tail, used, queue := 0, 0, 0, [];
    }

    /** The free position follows the bytes in use around the ring. */
    lemma TailFollowsHead()
      requires Valid() && capacity > 0
      ensures tail == (head + used) % capacity
    {
      SlotWraps(head, capacity, used);
    }

    function FreeCapacity(): (n: nat)
      requires Valid()
      reads this, ring
      ensures n == capacity - |queue|
    {
      capacity - used
    }

    method Clear()
      requires Valid()
      modifies this
      ensures Valid() && ring == old(ring) && capacity == old(capacity) && queue == []
    {
      head, tail, used := 0, 0, 0;
      queue := [];
    }

    /** Writes a chunk that ends before or at the end of the ring. */
    method PutChunk(chunk: bytes)
      requires Valid() && capacity > 0 && |chunk| <= capacity - tail && |chunk| <= capacity - used
      modifies this, ring
      ensures Valid() && ring == old(ring) && capacity == old(capacity)
      ensures queue == old(queue) + chunk
    {
      forall i | 0 <= i < |chunk| {
        ring[tail + i] := chunk[i];
      }
      ghost var before := queue;
      queue := before + chunk;
      forall i | 0 <= i < |queue|
        ensures ring[Slot(head, capacity, i)] == queue[i]
      {
        var k := Slot(head, capacity, i);
        if |before| <= i {
          assert k == tail + (i - |before|);
        } else {
          assert k < tail || tail + |chunk| <= k;
          assert ring[k] == before[i];
        }
      }
      tail := tail + |chunk|;
      used := used + |chunk|;
      if tail == capacity {
        tail := 0;
      }
    }

    /** Drops bytes up to the end of the ring at most. */
    method DropChunk(count: nat)
      requires Valid() && capacity > 0 && count <= capacity - head && count <= used
      modifies this
      ensures Valid() && ring == old(ring) && capacity == old(capacity)
      ensures queue == old(queue)[count..]
    {
      ghost var h, before := head, queue;
      head := head + count;
      used := used - count;
      queue := queue[count..];
      if head == capacity {
        head := 0;
      }
      forall i | 0 <= i < |queue|
        ensures ring[Slot(head, capacity, i)] == queue[i]
      {
        assert Slot(head, capacity, i) == Slot(h, capacity, i + count);
        assert queue[i] == before[i + count];
      }
    }

    /** Writes size bytes of src behind the queue, or none of them. */
    method WriteData(src: bytes, size: nat) returns (ok: bool)
      requires Valid() && size <= |src|
      modifies this, ring
      ensures Valid() && ring == old(ring) && capacity == old(capacity)
      ensures ok <==> |old(queue)| + size <= capacity
      ensures queue == if ok then old(queue) + src[..size] else old(queue)
      decreases size
    {
      if size == 0 {
        return true;
      }
      if FreeCapacity() < size {
        return false;
      }
      var writeCount := size;
      if capacity - tail <= size {
        writeCount := capacity - tail;
      }
      PutChunk(src[..writeCount]);
      if size - writeCount > 0 {
        ok := WriteData(src[writeCount..], size - writeCount);
        assert src[..size] == src[..writeCount] + src[writeCount..][..size - writeCount];
        return;
      }
      return true;
    }

    /** Copies the first size bytes of the queue without removing them. */
    method CopyData(dest: array<byte>, size: nat) returns (ok: bool)
      requires Valid() && size <= dest.Length && dest != ring
      modifies dest
      ensures ok <==> size <= |queue|
      ensures dest[..] == if ok then queue[..size] + old(dest[size..]) else old(dest[..])
    {
      if size == 0 {
        return true;
      }
      if used < size {
        return false;
      }
      var readCount := size;
      if capacity - head <= size {
        readCount := capacity - head;
      }
      forall i | 0 <= i < readCount {
        dest[i] := ring[head + i];
      }
      if size - readCount > 0 {
        forall i | 0 <= i < size - readCount {
          dest[readCount + i] := ring[i];
        }
      }
      forall i | 0 <= i < size
        ensures dest[i] == queue[i]
      {
        assert Slot(head, capacity, i) == if i < readCount then head + i else i - readCount;
      }
      return true;
    }

    /** Drops the first size bytes of the queue, or none if there are fewer. */
    method RemoveData(size: nat) returns (ok: bool)
      requires Valid()
      modifies this
      ensures Valid() && ring == old(ring) && capacity == old(capacity)
      ensures ok <==> size <= |old(queue)|
      ensures queue == if ok then old(queue)[size..] else old(queue)
      decreases size
    {
      if size == 0 {
        return true;
      }
      if used < size {
        return false;
      }
      var removeCount := size;
      if capacity - head <= size {
        removeCount := capacity - head;
      }
      ghost var before := queue;
      DropChunk(removeCount);
      if size - removeCount > 0 {
        ok := RemoveData(size - removeCount);
        assert before[size..] == before[removeCount..][size - removeCount..];
        return;
      }
      return true;
    }
  }
}
