/** The two result shapes the other modules share. */
module Wrappers {

  /** A reference that may be nil, or the comma-ok form of a lookup. */
  datatype Option<+T> = None | Some(value: T)

  /** A value, or the error returned in its place. */
  datatype Result<+T> = Ok(value: T) | Err(message: string)
}
