/**
 * `kf::Button`: a debounced push button. The pin level and the millisecond
 * clock are inputs of `poll`; the handler is recorded as a count of calls.
 */
module Button {
  import opened CInt

  datatype Mode = PullUp | PullDown
  datatype PullType = External | Internal
  /** The Arduino pin modes `matchMode` chooses from. */
  datatype PinMode = Input | InputPullUp | InputPullDown

  const DebounceMs: int := 50

  /** `read`: a pull-up button is pressed when its pin reads low. */
  function Read(mode: Mode, pinLevel: bool): (pressed: bool)
    ensures mode == PullUp ==> pressed == !pinLevel
    ensures mode == PullDown ==> pressed == pinLevel
  {
    if mode == PullUp then !pinLevel else pinLevel
  }

  /** `matchMode`: an external pull needs a plain input, an internal one the matching resistor. */
  function MatchMode(mode: Mode, pullType: PullType): (r: PinMode)
    ensures r.Input? <==> pullType.External?
    ensures r.InputPullUp? <==> pullType.Internal? && mode.PullUp?
    ensures r.InputPullDown? <==> pullType.Internal? && mode.PullDown?
  {
    if pullType == External then Input
    else if mode == PullUp then InputPullUp
    else InputPullDown
  }

  /** Whether a press at `now` is far enough from the last accepted one, in `u32` arithmetic. */
  predicate Debounced(now: U32, lastPressMs: U32)
  {
    ToU32(now - lastPressMs) > DebounceMs
  }

  class Button {
    const mode: Mode
    const hasHandler: bool
    var lastPressMs: U32
    var lastState: bool
    /** How many times the handler has run. */
    var handlerCalls: nat

    constructor (mode: Mode, hasHandler: bool)
      ensures this.mode == mode && this.hasHandler == hasHandler
      ensures lastPressMs == 0 && !lastState && handlerCalls == 0
    {
      this.mode := mode;
      this.hasHandler := hasHandler;
      lastPressMs := 0;
      lastState := false;
      handlerCalls := 0;
    }

    /**
     * `poll`: a rising edge outside the debounce window is accepted; an
     * accepted press runs the handler if there is one and restarts the window.
     */
    method Poll(pinLevel: bool, now: U32) returns (fired: bool)
      modifies this
      ensures var current := Read(mode, pinLevel);
        var accepted := current && !old(lastState) && Debounced(now, old(lastPressMs));
        && fired == (accepted && hasHandler)
        && handlerCalls == old(handlerCalls) + (if fired then 1 else 0)
        && lastPressMs == (if accepted then now else old(lastPressMs))
        && lastState == current
    {
      var currentState := Read(mode, pinLevel);
      fired := false;
      if currentState && !lastState {
        if ToU32(now - lastPressMs) > DebounceMs {
          if hasHandler {
            handlerCalls := handlerCalls + 1;
            fired := true;
          }
          lastPressMs := now;
        }
      }
      lastState := currentState;
    }
  }

  /** Holding the button down fires once: the second poll sees no rising edge. */
  method HeldFiresOnce(t1: U32, t2: U32) returns (first: bool, second: bool)
    requires t1 > DebounceMs
    ensures first && !second
  {
    var b := new Button(PullDown, true);
    first := b.Poll(true, t1);
    second := b.Poll(true, t2);
  }

  /** A second press within the debounce window of an accepted one is ignored. */
  method BounceIgnored(t: U32, dt: U32) returns (first: bool, second: bool)
    requires t > DebounceMs && dt <= DebounceMs && t + dt < U32_MODULUS
    ensures first && !second
  {
    var b := new Button(PullDown, true);
    first := b.Poll(true, t);
    var released := b.Poll(false, t);
    second := b.Poll(true, t + dt);
  }
}
