/** Failure-carrying datatypes shared by the whole model. */
module Wrappers {

  /** A Java reference that may be null, or a computation that may yield nothing. */
  datatype Option<+T> = None | Some(value: T)

  /** The value of a Java call, or the exception it threw. */
  datatype Result<+T, +E> = Success(value: T) | Failure(error: E)

  /**
   * The unchecked exceptions that escape a call, as far as a caller tells
   * them apart: `IllegalArgumentException` (and its subclasses) or any other.
   */
  datatype Exception = IllegalArgumentException | OtherRuntimeException
}
