/**
 * `kf::Deque`: a growable ring buffer. The logical element `i` lives in slot
 * `(front + i) % capacity`; a full deque grows from 0 to 4 slots or doubles.
 */
module Deque {
  import opened Growth

  /** Slot arithmetic of the ring: `(front + i) % capacity` without a division. */
  lemma RingSlot(front: nat, i: nat, capacity: nat)
    requires front < capacity && i < capacity
    ensures (front + i) % capacity == if front + i < capacity then front + i else front + i - capacity
  {
    if front + i >= capacity {
      assert front + i == capacity + (front + i - capacity);
    }
  }

  class Deque<T(0)> {
    /** The elements in logical order, front first. */
    ghost var Contents: seq<T>
    ghost var Repr: set<object>

    var buffer: array<T>
    var capacity: nat
    var size: nat
    var front: nat

    ghost predicate Valid()
      reads this, Repr
      ensures Valid() ==> this in Repr
    {
      this in Repr && buffer in Repr &&
      capacity == buffer.Length &&
      size <= capacity &&
      (capacity == 0 ==> front == 0) &&
      (capacity > 0 ==> front < capacity) &&
      |Contents| == size &&
      forall i :: 0 <= i < size ==> Contents[i] == buffer[(front + i) % capacity]
    }

    constructor ()
      ensures Valid() && fresh(Repr)
      ensures Contents == [] && capacity == 0
    {
      buffer := new T[0];
      capacity, size, front := 0, 0, 0;
      Contents := [];
      Repr := {this, buffer};
    }

    /** `operator[]`: the logical element `pos`. */
    method At(pos: nat) returns (x: T)
      requires Valid() && pos < size
      ensures x == Contents[pos]
    {
      x := buffer[(front + pos) % capacity];
    }

    method Front() returns (x: T)
      requires Valid() && size > 0
      ensures x == Contents[0]
    {
      assert (front + 0) % capacity == front;
      x := buffer[front];
    }

    method Back() returns (x: T)
      requires Valid() && size > 0
      ensures x == Contents[|Contents| - 1]
    {
      x := buffer[(front + size - 1) % capacity];
    }

    method IsEmpty() returns (b: bool)
      requires Valid()
      ensures b <==> Contents == []
    {
      b := size == 0;
    }

    method Size() returns (n: nat)
      requires Valid()
      ensures n == |Contents|
    {
      n := size;
    }

    /** The loop of `reserve`: the elements copied, in logical order, to the start of a new buffer. */
    method Unrolled(newCapacity: nat) returns (newBuffer: array<T>)
      requires Valid() && size <= newCapacity
      ensures fresh(newBuffer) && newBuffer.Length == newCapacity
      ensures newBuffer[..size] == Contents
    {
      newBuffer := new T[newCapacity];
      var i := 0;
      while i < size
        invariant 0 <= i <= size
        invariant newBuffer[..i] == Contents[..i]
      {
        newBuffer[i] := buffer[(front + i) % capacity];
        assert newBuffer[..i + 1] == newBuffer[..i] + [Contents[i]];
        i := i + 1;
      }
      assert Contents[..size] == Contents;
    }

    /** Grows the buffer to `newCapacity` slots, unrolling the ring to start at slot 0. */
    method Reserve(newCapacity: nat)
      requires Valid()
      modifies Repr
      ensures Valid() && fresh(Repr - old(Repr))
      ensures Contents == old(Contents)
      ensures newCapacity <= old(capacity) ==> capacity == old(capacity) && front == old(front)
      ensures newCapacity > old(capacity) ==> capacity == newCapacity && front == 0
    {
      if newCapacity <= capacity {
        return;
      }
      var newBuffer := Unrolled(newCapacity);
      buffer, capacity, front := newBuffer, newCapacity, 0;
      Repr := {this, buffer};
      forall j | 0 <= j < size
        ensures Contents[j] == buffer[(front + j) % capacity]
      {
        RingSlot(0, j, capacity);
        assert buffer[..size][j] == buffer[j];
      }
    }

    method PushBack(x: T)
      requires Valid()
      modifies Repr
      ensures Valid() && fresh(Repr - old(Repr))
      ensures Contents == old(Contents) + [x]
      ensures old(size) == old(capacity) ==> capacity == GrownCapacity(old(capacity))
      ensures old(size) < old(capacity) ==> capacity == old(capacity)
    {
      if size == capacity {
        Reserve(GrownCapacity(capacity));
      }
      PlaceBack(x);
    }

    /** The store of `push_back` once a free slot is known to exist. */
    method PlaceBack(x: T)
      requires Valid() && size < capacity
      modifies this, buffer
      ensures Valid() && Repr == old(Repr)
      ensures Contents == old(Contents) + [x] && capacity == old(capacity)
    {
      var pos := (front + size) % capacity;
      ghost var before := Contents;
      buffer[pos] := x;
      size := size + 1;
      Contents := Contents + [x];
      forall j | 0 <= j < size
        ensures Contents[j] == buffer[(front + j) % capacity]
      {
        RingSlot(front, j, capacity);
        RingSlot(front, size - 1, capacity);
        if j < size - 1 {
          assert Contents[j] == before[j];
        }
      }
    }

    method PushFront(x: T)
      requires Valid()
      modifies Repr
      ensures Valid() && fresh(Repr - old(Repr))
      ensures Contents == [x] + old(Contents)
      ensures old(size) == old(capacity) ==> capacity == GrownCapacity(old(capacity))
      ensures old(size) < old(capacity) ==> capacity == old(capacity)
    {
      if size == capacity {
        Reserve(GrownCapacity(capacity));
      }
      PlaceFront(x);
    }

    /** The store of `push_front` once a free slot is known to exist: the front steps back one slot, circularly. */
    method PlaceFront(x: T)
      requires Valid() && size < capacity
      modifies this, buffer
      ensures Valid() && Repr == old(Repr)
      ensures Contents == [x] + old(Contents) && capacity == old(capacity)
    {
      ghost var oldFront := front;
      ghost var before := Contents;
      front := if front == 0 then capacity - 1 else front - 1;
      buffer[front] := x;
      size := size + 1;
      Contents := [x] + Contents;
      forall j | 0 <= j < size
        ensures Contents[j] == buffer[(front + j) % capacity]
      {
        RingSlot(front, j, capacity);
        if j > 0 {
          RingSlot(oldFront, j - 1, capacity);
          assert Contents[j] == before[j - 1];
        }
      }
    }

    /** Removes the last element; a no-op on an empty deque. */
    method PopBack()
      requires Valid()
      modifies Repr
      ensures Valid() && fresh(Repr - old(Repr))
      ensures old(size) == 0 ==> Contents == old(Contents)
      ensures old(size) > 0 ==> Contents == old(Contents)[..old(size) - 1]
      ensures capacity == old(capacity)
    {
      if size > 0 {
        size := size - 1;
        Contents := Contents[..size];
      }
    }

    /** Removes the first element; a no-op on an empty deque. */
    method PopFront()
      requires Valid()
      modifies Repr
      ensures Valid() && fresh(Repr - old(Repr))
      ensures old(size) == 0 ==> Contents == old(Contents)
      ensures old(size) > 0 ==> Contents == old(Contents)[1..]
      ensures capacity == old(capacity)
    {
      if size > 0 {
        ghost var oldFront := front;
        front := (front + 1) % capacity;
        size := size - 1;
        ghost var before := old(Contents);
        Contents := Contents[1..];
        forall j | 0 <= j < size
          ensures Contents[j] == buffer[(front + j) % capacity]
        {
          assert Contents[j] == before[j + 1];
          RingSlot(oldFront, 1, capacity);
          RingSlot(front, j, capacity);
          RingSlot(oldFront, j + 1, capacity);
        }
      }
    }

    /** Empties the deque and rewinds the ring; the capacity is kept. */
    method Clear()
      requires Valid()
      modifies Repr
      ensures Valid() && fresh(Repr - old(Repr))
      ensures Contents == [] && size == 0 && front == 0
      ensures capacity == old(capacity)
    {
      size := 0;
      front := 0;
      Contents := [];
    }
  }
}
