/**
 * The growth rule shared by `kf::ArrayList` and `kf::Deque`: a full
 * container reserves `capacity_ ? capacity_ * 2 : 4` slots.
 */
module Growth {

  /** The capacity a full container grows to. */
  function GrownCapacity(capacity: nat): (r: nat)
    ensures r > capacity
    ensures capacity == 0 ==> r == 4
    ensures capacity > 0 ==> r == 2 * capacity
  {
    if capacity != 0 then capacity * 2 else 4
  }
}
