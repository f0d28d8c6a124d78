/** Option and Result values, and the JavaScript truthiness test the components apply to them. */
module Wrappers {

  /** A value that may be absent: TypeScript's `T | null` or an optional property. */
  datatype Option<+T> = None | Some(value: T)

  /** The outcome of an operation that may throw: a value, or the error it was rejected with. */
  datatype Result<+T, +E> = Success(value: T) | Failure(error: E)

  /** JavaScript truthiness of a `string | null | undefined`: absent and "" are both falsy. */
  predicate Truthy(s: Option<string>) {
    s.Some? && s.value != ""
  }
}
