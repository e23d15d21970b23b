/** Option and Result values shared by the modules of the questionnaire model. */
module Wrappers {

  /** A value that may be absent: TypeScript's `T | null`. */
  datatype Option<+T> = None | Some(value: T)

  /** An outcome that either succeeds with a value or fails with an error. */
  datatype Result<+R, +E> = Ok(value: R) | Err(error: E)
}
