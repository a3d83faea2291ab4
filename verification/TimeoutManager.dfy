/** `kf::TimeoutManager`: a `u32` millisecond deadline that `update` pushes forward. */
module TimeoutManager {
  import opened CInt

  class TimeoutManager {
    const timeout: U32
    var nextTimeout: U32

    constructor (timeoutDuration: U32)
      ensures timeout == timeoutDuration && nextTimeout == 0
    {
      timeout := timeoutDuration;
      nextTimeout := 0;
    }

    /** The next deadline is `now + timeout`, wrapping at 2^32. */
    method Update(now: U32)
      modifies this
      ensures nextTimeout == ToU32(now + timeout)
      ensures now + timeout < U32_MODULUS ==> nextTimeout == now + timeout
    {
      nextTimeout := ToU32(now + timeout);
    }

    predicate Expired(now: U32)
      reads this
    {
      now >= nextTimeout
    }
  }

  /** Before any update the deadline is 0, so every instant has expired. */
  method FreshManagerExpired(timeoutDuration: U32, now: U32) returns (expired: bool)
    ensures expired
  {
    var m := new TimeoutManager(timeoutDuration);
    expired := m.Expired(now);
  }

  /** After `update(t)` without wrap-around, exactly the instants from `t + timeout` on have expired. */
  method ExpiresAfterTimeout(timeoutDuration: U32, t: U32, later: U32) returns (expired: bool)
    requires t + timeoutDuration < U32_MODULUS
    ensures expired <==> later >= t + timeoutDuration
  {
    var m := new TimeoutManager(timeoutDuration);
    m.Update(t);
    expired := m.Expired(later);
  }

  /** `expired` is monotone in `now`: once expired, later instants stay expired. */
  lemma ExpiredMonotone(m: TimeoutManager, a: U32, b: U32)
    requires a <= b && m.Expired(a)
    ensures m.Expired(b)
  {
  }
}
