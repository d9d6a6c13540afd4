/** Optional values and error-carrying results used throughout the model. */
module Wrappers {

  /** A value that may be absent. A NaN or empty spreadsheet cell is `None`. */
  datatype Option<+T> = None | Some(value: T)

  /** The outcome of a step that the plotting scripts can abort with an exception. */
  datatype Result<+T> = Ok(value: T) | Err(message: string)
}
