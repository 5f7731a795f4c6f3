/** Failures of the insulation calculation and the result type that carries them. */
module Errors {

  /** The ValueError raised by the calculation, one constructor per message. */
  datatype ValueError =
    | NonPositiveThickness      // a layer thickness is not greater than zero
    | NonPositiveConductivity   // a layer conductivity is not greater than zero
    | NoLayers                  // the layer stack is empty
    | NonPositiveHeatTransfer   // the convective coefficient h is not greater than zero
    | LengthMismatch            // the thickness and conductivity lists differ in length

  /** Either a value or the ValueError that was raised instead; usable with `:-`. */
  datatype Result<+T> = Ok(value: T) | Err(error: ValueError) {

    predicate IsFailure() {
      Err?
    }

    function PropagateFailure<U>(): Result<U>
      requires Err?
    {
      Err(error)
    }

    function Extract(): T
      requires Ok?
    {
      value
    }
  }
}
