/** Failure-compatible results shared by the integrator and the simulation driver. */
module Wrappers {

  datatype Option<+T> = None | Some(value: T)

  /** The two ways the integration pipeline stops with an exception instead of a result. */
  datatype Error =
    | ShapeMismatch  // RK4 cannot reshape a state that does not hold exactly three numbers
    | ZeroStep       // the time grid cannot be built with a step of zero

  datatype Result<+T> = Ok(value: T) | Err(error: Error)
}
