/** Option and Result, used for Java's nullable references and for thrown exceptions. */
module Wrappers {

  /** `None` stands for a Java `null` (or a JavaScript `undefined`). */
  datatype Option<+T> = None | Some(value: T)

  /** `Failure` stands for an exception leaving the modelled code. */
  datatype Result<+R, +E> = Success(value: R) | Failure(error: E)
}
