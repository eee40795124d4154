/** The two result shapes the other modules share. */
module Outcomes {

  datatype Option<+T> = None | Some(value: T)

  /** A Go (value, error) pair or a TypeScript throw. */
  datatype Result<+T, +E> = Ok(value: T) | Err(error: E)
}
