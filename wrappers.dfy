/** Failure-compatible wrappers shared by every module of the model. */
module Wrappers {

  /** A value that may be absent: the model of a C# reference that may be null. */
  datatype Option<+T> = None | Some(value: T)

  /** The outcome of a call that may throw: its value, or an exception that a caller catches. */
  datatype Attempt<+T> = Done(value: T) | Raised

  /** How a call that may recurse, throw or be cut short by the model's fuel ended. */
  datatype Completion =
    | Returned(value: bool)   // the method returned this value
    | Threw                   // an exception escaped the method
    | NoResult                // the method ended on a path that returns no value
    | OutOfFuel               // the model's recursion bound was reached
}
