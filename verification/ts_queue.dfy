/**
 The bounded queue of NTHU-OS-Pthreads/ts_queue.hpp: a ring buffer in an array,
 verified against a plain sequence.

 Each method of the class is one stretch of code between taking and giving up the
 queue's mutex. `Enqueue` and `Dequeue` answer whether the calling thread got its work
 done or has to wait on its condition variable; the waiting itself, the mutex
 and the signals are steps of the state machine in module Pipeline, which uses the
 functions `EnqueueSection` and `DequeueSection` below.
 */
module TsQueues {
  import opened Options

  /** What one pass of `enqueue` through the mutex does to a queue: None if it has to wait. */
  function EnqueueSection<T>(items: seq<T>, capacity: nat, x: T): Option<seq<T>> {
    if capacity <= |items| then None else Some(items + [x])
  }

  /** What one pass of `dequeue` does: the item taken and what is left, None if it has to wait. */
  function DequeueSection<T>(items: seq<T>): Option<(T, seq<T>)> {
    if items == [] then None else Some((items[0], items[1..]))
  }

  /** The slot `i` places after slot `head` of a ring. */
  function Slot(head: nat, i: nat, length: nat): (k: nat)
    requires head < length && i <= length
    ensures k < length
  {
    if head + i < length then head + i else head + i - length
  }

  class TSQueue<T(0)> {
    const buffer: array<T>
    var size: nat
    var head: nat
    var tail: nat

    /** The `size` slots starting at `head`, wrapping round the end of the buffer, up to `tail`. */
    ghost predicate Valid()
      reads this
    {
      && size <= buffer.Length
      && (buffer.Length == 0 ==> head == tail == 0)
      && (buffer.Length != 0 ==> head < buffer.Length && tail == Slot(head, size, buffer.Length))
    }

    ghost function Contents(): (s: seq<T>)
      requires Valid()
      reads this, buffer
      ensures |s| == size
    {
      seq(size, i requires 0 <= i < size reads this, buffer requires Valid() => buffer[Slot(head, i, buffer.Length)])
    }

    constructor (buffer_size: nat)
      ensures Valid() && fresh(buffer) && buffer.Length == buffer_size && Contents() == []
    {
      size, head, tail := 0, 0, 0;
      buffer := new T[buffer_size];
    }

    method Enqueue(item: T) returns (done: bool)
      requires Valid()
      modifies this, buffer
      ensures Valid()
      ensures done <==> |old(Contents())| < buffer.Length
      ensures Contents() == if done then old(Contents()) + [item] else old(Contents())
      ensures EnqueueSection(old(Contents()), buffer.Length, item) == if done then Some(Contents()) else None
    {
      if size >= buffer.Length {
        return false;
      }
      NextSlot(tail, buffer.Length);
      buffer[tail] := item;
      tail := (tail + 1) % buffer.Length;
      size := size + 1;
      done := true;
      assert Contents() == old(Contents()) + [item];
    }

    method Dequeue() returns (item: Option<T>)
      requires Valid()
      modifies this
      ensures Valid()
      ensures item.Some? <==> old(Contents()) != []
      ensures old(Contents()) == if item.Some? then [item.value] + Contents() else Contents()
      ensures DequeueSection(old(Contents())) == if item.Some? then Some((item.value, Contents())) else None
    {
      if size == 0 {
        return None;
      }
      item := Some(buffer[head]);
      NextSlot(head, buffer.Length);
      head := (head + 1) % buffer.Length;
      size := size - 1;
      assert Contents() == old(Contents())[1..];
    }

    method GetSize() returns (n: nat)
      requires Valid()
      ensures n == |Contents()|
    {
      n := size;
    }
  }

  /** `(k + 1) % length`, the way both indices move on. */
  lemma NextSlot(k: nat, length: nat)
    requires k < length
    ensures (k + 1) % length == Slot(k, 1, length)
  {
    if k + 1 == length {
      assert (k + 1) % length == 0;
    }
  }
}
