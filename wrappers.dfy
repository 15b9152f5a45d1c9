/** Failure-carrying results shared by the BraillePlot model. */
module Wrappers {

  /** A value that may be absent: the model's stand-in for a Java `null` result. */
  datatype Option<+T> = None | Some(value: T)

  /** Either a value or the error the Java code throws instead of returning one. */
  datatype Result<+T, +E> = Ok(value: T) | Err(error: E) {
    predicate IsFailure() { Err? }
    function PropagateFailure<U>(): Result<U, E>
      requires Err?
    {
      Err(error)
    }
    function Extract(): T
      requires Ok?
    {
      value
    }
  }
}
