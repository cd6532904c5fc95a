/** Values that stand for JavaScript's `undefined` and for the two errors the
    session engine throws. */
module Outcomes {

  /** A field or result that may be `undefined`. */
  datatype Option<T> = None | Some(value: T)

  /** The two `Error`s thrown by `GameSession`. */
  datatype Error =
    | LengthMustBePositive    // "length must be larger than 0"
    | UnrecognizedUserAnswer  // "failed to get user answer"

  /** A value, or the error that was thrown instead. */
  datatype Result<T> = Ok(value: T) | Err(error: Error)
}
