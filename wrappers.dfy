/** Option and Result, the failure-carrying values used across the model. */
module Wrappers {

  /** A value that may be missing (Python's `Optional[T]`, `None` being `None`). */
  datatype Option<+T> = None | Some(value: T)

  /** Either a value or an error (a raised `HTTPException` is an `Err`). */
  datatype Result<+T, +E> = Ok(value: T) | Err(error: E)

  /** Python truthiness of an optional string: `None` and `""` are both false. */
  predicate Truthy(s: Option<string>)
  {
    s.Some? && |s.value| > 0
  }
}
