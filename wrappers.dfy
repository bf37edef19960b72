/** Failure-compatible wrappers shared by the whole model. */
module Wrappers {

  /** A Java reference that may be null: `None` stands for `null`. */
  datatype Option<+T> = None | Some(value: T)

  /** The value a Java call returns, or the exception it throws. */
  datatype Result<+T> = Ok(value: T) | Thrown(exception: string)
}
