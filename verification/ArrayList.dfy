/** `kf::ArrayList`: a growable vector, growing from 0 to 4 slots or doubling when full. */
module ArrayList {
  import opened Growth

  class ArrayList<T(0)> {
    ghost var Repr: set<object>

    var data: array<T>
    var size: nat
    var capacity: nat

    ghost predicate Valid()
      reads this, Repr
      ensures Valid() ==> this in Repr
    {
      this in Repr && data in Repr && capacity == data.Length && size <= capacity
    }

    /** The elements in order. */
    ghost function Elements(): seq<T>
      reads this, data
      requires size <= data.Length
    {
      data[..size]
    }

    constructor ()
      ensures Valid() && fresh(Repr)
      ensures Elements() == [] && capacity == 0
    {
      data := new T[0];
      size, capacity := 0, 0;
      Repr := {this, data};
    }

    /** `operator[]`: the element at `pos`. */
    method At(pos: nat) returns (x: T)
      requires Valid() && pos < size
      ensures x == Elements()[pos]
    {
      x := data[pos];
    }

    method Size() returns (n: nat)
      requires Valid()
      ensures n == |Elements()|
    {
      n := size;
    }

    method IsEmpty() returns (b: bool)
      requires Valid()
      ensures b <==> |Elements()| == 0
    {
      b := size == 0;
    }

    /** Grows the storage to `newCapacity`, copying the elements in order. */
    method Reserve(newCapacity: nat)
      requires Valid()
      modifies Repr
      ensures Valid() && fresh(Repr - old(Repr))
      ensures Elements() == old(Elements())
      ensures capacity == if newCapacity <= old(capacity) then old(capacity) else newCapacity
    {
      if newCapacity <= capacity {
        return;
      }
      var newData := new T[newCapacity];
      var i := 0;
      while i < size
        modifies newData
        invariant 0 <= i <= size
        invariant newData[..i] == data[..i]
      {
        newData[i] := data[i];
        i := i + 1;
      }
      data := newData;
      capacity := newCapacity;
      Repr := {this, data};
    }

    method PushBack(x: T)
      requires Valid()
      modifies Repr
      ensures Valid() && fresh(Repr - old(Repr))
      ensures Elements() == old(Elements()) + [x]
      ensures capacity == if old(size) == old(capacity) then GrownCapacity(old(capacity)) else old(capacity)
    {
      if size == capacity {
        Reserve(GrownCapacity(capacity));
      }
      data[size] := x;
      size := size + 1;
    }

    /** Removes the last element; a no-op on an empty list. */
    method PopBack()
      requires Valid()
      modifies Repr
      ensures Valid() && fresh(Repr - old(Repr))
      ensures Elements() == if old(size) == 0 then old(Elements()) else old(Elements())[..old(size) - 1]
      ensures capacity == old(capacity)
    {
      if size > 0 {
        size := size - 1;
      }
    }

    method Clear()
      requires Valid()
      modifies Repr
      ensures Valid() && fresh(Repr - old(Repr))
      ensures Elements() == [] && capacity == old(capacity)
    {
      size := 0;
    }
  }
}
