/** Option and Result datatypes shared by the model. */
module Wrappers {

  /** A value that may be absent: Python's `Optional[str]` and `None`. */
  datatype Option<+T> = None | Some(value: T)

  /** The outcome of a step that can raise: a value or an error text. */
  datatype Result<+T, +E> = Success(value: T) | Failure(error: E)

  /** Python truthiness of an `Optional[str]`: neither `None` nor the empty string. */
  predicate Truthy(o: Option<string>) {
    o.Some? && o.value != ""
  }
}
