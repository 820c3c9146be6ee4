/** The fixed-capacity ring that buffered channels store their values in.  Its
    indices wrap around the end of one array; its contents read as a sequence. */
module RingBuffer {

  // The slot `i` places after slot `front` in a ring of `n` slots.
  function Slot(n: nat, front: nat, i: nat): (k: nat)
    requires front < n && i <= n
    ensures k < n
  {
    if front + i < n then front + i else front + i - n
  }

  /** The source's `(idx + 1) % size` steps to the next slot of the ring. */
  lemma NextSlot(n: nat, idx: nat)
    requires idx < n
    ensures (idx + 1) % n == Slot(n, idx, 1)
  {
    if idx + 1 < n {
      assert (idx + 1) % n == idx + 1;
    } else {
      assert (idx + 1) % n == 0;
    }
  }

  class CircularBuffer<T(0)> {
    var buffer: array<T>
    var used: nat
    var backIdx: nat
    var frontIdx: nat

    ghost predicate Valid()
      reads this
    {
      && used <= buffer.Length
      && if buffer.Length == 0 then frontIdx == 0 && backIdx == 0
         else frontIdx < buffer.Length && backIdx == Slot(buffer.Length, frontIdx, used)
    }

    // The stored values, oldest first.
    ghost function Contents(): (s: seq<T>)
      requires Valid()
      reads this, buffer
      ensures |s| == used
    {
      seq(used, i requires 0 <= i < used reads this, buffer requires Valid() => buffer[Slot(buffer.Length, frontIdx, i)])
    }

    ghost predicate Full()
      reads this
    {
      used == buffer.Length
    }

    constructor (sz: nat)
      ensures Valid() && fresh(buffer) && buffer.Length == sz && Contents() == []
    {
      buffer := new T[sz];
      used, backIdx, frontIdx := 0, 0, 0;
    }

    method Front() returns (t: T)
      requires Valid() && used > 0
      ensures t == Contents()[0]
    {
      t := buffer[frontIdx];
    }

    method Emplace(t: T)
      requires Valid() && !Full()
      modifies this, buffer
      ensures Valid() && buffer == old(buffer)
      ensures Contents() == old(Contents()) + [t]
    {
      NextSlot(buffer.Length, backIdx);
      buffer[backIdx] := t;
      backIdx := (backIdx + 1) % buffer.Length;
      used := used + 1;
    }

    method Pop()
      requires Valid() && used > 0
      modifies this
      ensures Valid() && buffer == old(buffer)
      ensures Contents() == old(Contents())[1..]
    {
      NextSlot(buffer.Length, frontIdx);
      frontIdx := (frontIdx + 1) % buffer.Length;
      used := used - 1;
    }

    // Move construction and move assignment exchange the two rings.
    method Swap(rhs: CircularBuffer<T>)
      requires Valid() && rhs.Valid()
      modifies this, rhs
      ensures Valid() && rhs.Valid()
      ensures buffer == old(rhs.buffer) && rhs.buffer == old(buffer)
      ensures Contents() == old(rhs.Contents()) && rhs.Contents() == old(Contents())
    {
      used, rhs.used := rhs.used, used;
      frontIdx, rhs.frontIdx := rhs.frontIdx, frontIdx;
      backIdx, rhs.backIdx := rhs.backIdx, backIdx;
      buffer, rhs.buffer := rhs.buffer, buffer;
    }
  }
}
