/** The data of mr_queue_t (src/queue.c): a byte buffer used as a stack of fixed-size elements. Each method is one
    critical section, from the moment the mutex is held to the moment it is given up. */
module BoundedQueue {
  import opened Wire
  import M = Monitor

  /** What a pop's critical section ends with: cnd_wait on `empty`, return 1, or return 0 with an element. */
  datatype PopOutcome = MustWait | Drained | Popped

  /** The first n elements of a buffer of elements of the given size, bottom first. */
  ghost function Elements(bytes: seq<Byte>, size: nat, n: nat): (s: seq<seq<Byte>>)
    requires n * size <= |bytes|
    ensures |s| == n
  {
    if n == 0 then []
    else
      Below(size, n);
      Elements(bytes, size, n - 1) + [bytes[(n - 1) * size..n * size]]
  }

  lemma Below(size: nat, n: nat)
    requires n > 0
    ensures 0 <= (n - 1) * size && n * size == (n - 1) * size + size
  {
    assert (n - 1) * size + size == n * size;
  }

  lemma Fits(size: nat, n: nat, capacity: nat)
    requires n <= capacity
    ensures n * size <= capacity * size
  {
    assert (capacity - n) * size >= 0;
  }

  /** The elements depend only on the bytes below them. */
  lemma {:induction false} ElementsBelow(a: seq<Byte>, b: seq<Byte>, size: nat, n: nat)
    requires n * size <= |a| && n * size <= |b| && a[..n * size] == b[..n * size]
    ensures Elements(a, size, n) == Elements(b, size, n)
  {
    if n > 0 {
      Below(size, n);
      var m := (n - 1) * size;
      assert a[..m] == a[..n * size][..m] && b[..m] == b[..n * size][..m];
      assert a[m..n * size] == a[..n * size][m..] && b[m..n * size] == b[..n * size][m..];
      ElementsBelow(a, b, size, n - 1);
    }
  }

  class Queue {
    const capacity: nat
    const elementSize: nat
    const buffer: array<Byte>
    var count: nat
    var closed: bool

    ghost predicate Valid()
      reads this
    {
      0 < capacity && 0 < elementSize && buffer.Length == capacity * elementSize && count <= capacity
    }

    /** buffer[0..count) as elements, bottom first. */
    ghost function Contents(): (s: seq<seq<Byte>>)
      reads this, buffer
      requires Valid()
      ensures |s| == count
    {
      Fits(elementSize, count, capacity);
      Elements(buffer[..], elementSize, count)
    }

    /** This object holds the data of the monitor state `q`. */
    ghost predicate Holds(q: M.Queue<seq<Byte>>)
      reads this, buffer
      requires Valid()
    {
      q.cap == capacity && q.closed == closed && q.items == Contents()
    }

    /** mr_queue_init. */
    constructor (capacity: nat, elementSize: nat)
      requires 0 < capacity && 0 < elementSize
      ensures Valid() && fresh(buffer) && this.capacity == capacity && this.elementSize == elementSize
      ensures Contents() == [] && !closed
    {
      this.capacity := capacity;
      this.elementSize := elementSize;
      buffer := new Byte[capacity * elementSize];
      count := 0;
      closed := false;
    }

    /** mr_queue_push between two waits: stores on top unless full; the waiting is the monitor's. */
    method Push(data: seq<Byte>, ghost q: M.Queue<seq<Byte>>, ghost a: M.Act<seq<Byte>>) returns (stored: bool)
      requires Valid() && |data| == elementSize
      requires Holds(q) && M.Enabled(q, a) && a.Push? && q.hand[a.p] == data
      modifies this`count, buffer
      ensures Valid() && stored == (old(count) < capacity)
      ensures Contents() == if stored then old(Contents()) + [data] else old(Contents())
      ensures Holds(M.Apply(q, a))
    {
      if count == capacity {
        return false;
      }
      Below(elementSize, count + 1);
      Fits(elementSize, count + 1, capacity);
      ghost var was := buffer[..];
      forall k | 0 <= k < elementSize {
        buffer[count * elementSize + k] := data[k];
      }
      ElementsBelow(was, buffer[..], elementSize, count);
      assert buffer[..][count * elementSize..(count + 1) * elementSize] == data;
      count := count + 1;
      stored := true;
    }

    /** mr_queue_pop between two waits: takes the top element, the one pushed last. */
    method Pop(out: array<Byte>, ghost q: M.Queue<seq<Byte>>, ghost a: M.Act<seq<Byte>>) returns (r: PopOutcome)
      requires Valid() && out != buffer && out.Length == elementSize
      requires Holds(q) && M.Enabled(q, a) && a.Pop?
      modifies this`count, out
      ensures Valid()
      ensures r == if old(count) > 0 then Popped else if closed then Drained else MustWait
      ensures old(count) > 0 ==> out[..] == old(Contents())[old(count) - 1]
      ensures old(count) > 0 ==> Contents() == old(Contents())[..old(count) - 1]
      ensures old(count) == 0 ==> out[..] == old(out[..]) && Contents() == []
      ensures Holds(M.Apply(q, a))
    {
      if count == 0 && !closed {
        return MustWait;
      }
      if count == 0 && closed {
        return Drained;
      }
      Below(elementSize, count);
      Fits(elementSize, count, capacity);
      count := count - 1;
      forall k | 0 <= k < elementSize {
        out[k] := buffer[count * elementSize + k];
      }
      assert buffer[..] == old(buffer[..]);
      assert old(Contents()) == Elements(buffer[..], elementSize, count + 1);
      assert out[..] == buffer[..][count * elementSize..(count + 1) * elementSize];
      r := Popped;
    }

    /** mr_queue_close. */
    method Close(ghost q: M.Queue<seq<Byte>>)
      requires Valid() && Holds(q)
      modifies this`closed
      ensures Valid() && closed && Contents() == old(Contents())
      ensures Holds(M.Apply(q, M.Close))
    {
      closed := true;
    }
  }
}
