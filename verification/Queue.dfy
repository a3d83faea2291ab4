/** `kf::Queue`: a FIFO adapter over `kf::Deque`, pushing at the back and popping at the front. */
module Queue {
  import opened Deque

  class Queue<T(0)> {
    /** The queued elements, oldest first. */
    ghost var Contents: seq<T>
    ghost var Repr: set<object>

    var c: Deque<T>

    ghost predicate Valid()
      reads this, Repr
      ensures Valid() ==> this in Repr
    {
      this in Repr && c in Repr && c.Repr <= Repr && this !in c.Repr &&
      c.Valid() && Contents == c.Contents
    }

    constructor ()
      ensures Valid() && fresh(Repr)
      ensures Contents == []
    {
      c := new Deque<T>();
      Contents := [];
      new;
      Repr := {this} + c.Repr;
    }

    /** The oldest element not yet popped. */
    method Front() returns (x: T)
      requires Valid() && Contents != []
      ensures x == Contents[0]
    {
      x := c.Front();
    }

    /** The most recently pushed element. */
    method Back() returns (x: T)
      requires Valid() && Contents != []
      ensures x == Contents[|Contents| - 1]
    {
      x := c.Back();
    }

    method IsEmpty() returns (b: bool)
      requires Valid()
      ensures b <==> |Contents| == 0
    {
      b := c.IsEmpty();
    }

    method Size() returns (n: nat)
      requires Valid()
      ensures n == |Contents|
    {
      n := c.Size();
    }

    method Push(x: T)
      requires Valid()
      modifies Repr
      ensures Valid() && fresh(Repr - old(Repr))
      ensures Contents == old(Contents) + [x]
    {
      c.PushBack(x);
      Contents := c.Contents;
      Repr := Repr + c.Repr;
    }

    /** Removes the oldest element; a no-op on an empty queue. */
    method Pop()
      requires Valid()
      modifies Repr
      ensures Valid() && fresh(Repr - old(Repr))
      ensures old(Contents) == [] ==> Contents == []
      ensures old(Contents) != [] ==> Contents == old(Contents)[1..]
    {
      c.PopFront();
      Contents := c.Contents;
      Repr := Repr + c.Repr;
    }
  }

  /** A client: whatever was queued comes out in the order it went in. */
  method FifoOrder<T(0)>(x: T, y: T, z: T)
    returns (first: T, second: T, third: T, emptyAfter: bool)
    ensures first == x && second == y && third == z && emptyAfter
  {
    var q := new Queue<T>();
    q.Push(x);
    q.Push(y);
    first := q.Front();
    q.Pop();
    q.Push(z);
    second := q.Front();
    q.Pop();
    third := q.Front();
    q.Pop();
    emptyAfter := q.IsEmpty();
  }
}
