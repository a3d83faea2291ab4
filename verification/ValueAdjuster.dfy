/**
 * The value rules of a SpinBox, `int` specialisation, one per step mode.
 */
module ValueAdjuster {
  import opened CInt
  import opened StepModes

  /** A division by a zero step is the only case the source leaves undefined. */
  predicate Defined(mode: StepMode, step: int, direction: int)
  {
    mode == Geometric && direction <= 0 ==> step != 0
  }

  /** The value after one adjustment in the given mode. */
  function Adjusted(mode: StepMode, value: int, step: int, direction: int): int
    requires Defined(mode, step, direction)
  {
    match mode
    case Arithmetic => value + direction * step
    case ArithmeticPositiveOnly =>
      var sum := value + direction * step;
      if sum < 0 then 0 else sum
    case Geometric =>
      if direction > 0 then value * step else Div(value, step)
  }

  /** `ValueAdjuster<int, M>::adjust`, which rewrites the value in place. */
  method Adjust(mode: StepMode, value: int, step: int, direction: int) returns (newValue: int)
    requires Defined(mode, step, direction)
    ensures newValue == Adjusted(mode, value, step, direction)
    ensures mode == ArithmeticPositiveOnly ==> newValue >= 0
  {
    newValue := value;
    match mode
    case Arithmetic =>
      newValue := newValue + direction * step;
    case ArithmeticPositiveOnly =>
      newValue := newValue + direction * step;
      if newValue < 0 {
        newValue := 0;
      }
    case Geometric =>
      if direction > 0 {
        newValue := newValue * step;
      } else {
        newValue := Div(newValue, step);
      }
  }

  /** Arithmetic: the value moves by direction times step; direction 0 keeps it. */
  lemma ArithmeticMoves(value: int, step: int, direction: int)
    ensures Adjusted(Arithmetic, value, step, direction) - value == direction * step
    ensures Adjusted(Arithmetic, value, step, 0) == value
  {
  }

  /** Arithmetic: +d then -d restores the value. */
  lemma ArithmeticUndo(value: int, step: int, d: int)
    ensures Adjusted(Arithmetic, Adjusted(Arithmetic, value, step, d), step, -d) == value
  {
  }

  /** ArithmeticPositiveOnly: never negative, and equal to Arithmetic whenever that is not. */
  lemma PositiveOnlyClamps(value: int, step: int, direction: int)
    ensures Adjusted(ArithmeticPositiveOnly, value, step, direction) >= 0
    ensures value + direction * step >= 0 ==>
      Adjusted(ArithmeticPositiveOnly, value, step, direction) == Adjusted(Arithmetic, value, step, direction)
    ensures value + direction * step < 0 ==> Adjusted(ArithmeticPositiveOnly, value, step, direction) == 0
  {
  }

  /** Geometric: multiply for a positive direction, truncating divide otherwise. */
  lemma GeometricScales(value: int, step: int, direction: int)
    requires step != 0
    ensures direction > 0 ==> Adjusted(Geometric, value, step, direction) == value * step
    ensures direction <= 0 && value >= 0 && step > 0 ==>
      Adjusted(Geometric, value, step, direction) == value / step
    ensures direction <= 0 ==> Abs(Adjusted(Geometric, value, step, direction)) <= Abs(value)
  {
    if direction <= 0 {
      DivShrinks(Abs(value), Abs(step));
    }
  }
}
