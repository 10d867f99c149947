/** Outcome of one slicing pass: either a value or the reason the pass stopped. */
module Outcomes {

  /** The only way the slicing pass of SliceSpriteSheets.cs can fail on its own:
      the integer division of the grid planner receives a zero divisor (the C#
      runtime raises DivideByZeroException). */
  datatype SliceError = DivideByZero

  datatype Result<+T> = Success(value: T) | Failure(error: SliceError)
}
