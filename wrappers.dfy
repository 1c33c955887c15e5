/** Failure-compatible wrappers shared by the model. */
module Wrappers {

  /** A value that may be missing. In a row of the `todos` table `None` is SQL
      NULL; in a filter it is a property left out (`undefined`). */
  datatype Option<+T> = None | Some(value: T)

  /** The outcome of an operation that may throw: `Err` carries what it throws. */
  datatype Result<+T, +E> = Ok(value: T) | Err(error: E)
}
