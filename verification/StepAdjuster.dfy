/**
 * The step rule of a SpinBox in step-setting mode, `int` specialisation:
 * a positive direction multiplies the step by ten, any other direction
 * (zero included) divides it by ten and raises it back to the minimum step.
 */
module StepAdjuster {
  import opened CInt

  const StepMultiplier: int := 10
  /** `step_adjuster_traits<int>::min_step`. */
  const MinStep: int := 1
  /** `step_adjuster_traits<int>::default_step`. */
  const DefaultStep: int := 1

  /** The step after one adjustment. */
  function Adjusted(step: int, direction: int): int
  {
    if direction > 0 then step * StepMultiplier
    else
      var divided := Div(step, StepMultiplier);
      if divided < MinStep then MinStep else divided
  }

  /** `StepAdjuster<int>::adjust`, which rewrites the step in place. */
  method Adjust(step: int, direction: int) returns (newStep: int)
    ensures newStep == Adjusted(step, direction)
    ensures direction > 0 ==> newStep == 10 * step
    ensures direction <= 0 ==> newStep >= MinStep
  {
    newStep := step;
    if direction > 0 {
      newStep := newStep * StepMultiplier;
    } else {
      newStep := Div(newStep, StepMultiplier);
      if newStep < MinStep {
        newStep := MinStep;
      }
    }
  }

  /** An increase multiplies by ten, with no upper clamp. */
  lemma IncreaseScales(step: int, direction: int)
    requires direction > 0
    ensures Adjusted(step, direction) == 10 * step
    ensures step > 0 ==> Adjusted(step, direction) > step
  {
  }

  /** A decrease (direction zero included) never yields less than the minimum step. */
  lemma DecreaseFloor(step: int, direction: int)
    requires direction <= 0
    ensures Adjusted(step, direction) >= MinStep
    ensures step >= 10 ==> Adjusted(step, direction) == step / 10
    ensures step < 10 ==> Adjusted(step, direction) == MinStep
  {
  }

  /** Any step from 1 to 9 decreases to exactly 1. */
  lemma SmallStepDecreasesToOne(step: int)
    requires 1 <= step <= 9
    ensures Adjusted(step, 0) == 1 && Adjusted(step, -1) == 1
  {
  }

  /**
   * From a step of at least the minimum, any mix of increases and decreases
   * keeps the step at least the minimum: the SpinBox's step never reaches 0.
   */
  lemma {:induction false} AdjustmentsKeepMinStep(step: int, directions: seq<int>)
    requires step >= MinStep
    ensures AdjustedAll(step, directions) >= MinStep
  {
    if directions != [] {
      AdjustmentsKeepMinStep(step, directions[..|directions| - 1]);
    }
  }

  /** The step after applying the directions in order. */
  function AdjustedAll(step: int, directions: seq<int>): int
  {
    if directions == [] then step
    else Adjusted(AdjustedAll(step, directions[..|directions| - 1]), directions[|directions| - 1])
  }

  /** An increase followed by a decrease restores every positive step. */
  lemma IncreaseThenDecrease(step: int, up: int, down: int)
    requires step >= MinStep && up > 0 && down <= 0
    ensures Adjusted(Adjusted(step, up), down) == step
  {
  }

  /** Both `int` traits constants are 1. */
  lemma Traits()
    ensures MinStep == 1 && DefaultStep == 1 && StepMultiplier == 10
  {
  }
}
