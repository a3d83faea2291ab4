/** How a SpinBox applies its step to its value. */
module StepModes {
  datatype StepMode =
    | Arithmetic              // add or subtract the step
    | ArithmeticPositiveOnly  // add or subtract the step, clamp at zero
    | Geometric               // multiply or divide by the step
}
