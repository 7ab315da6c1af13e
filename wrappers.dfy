/** Option and Result, for JavaScript's `undefined` and for thrown errors. */
module Wrappers {

  /** `None` stands for a value that is `null` or `undefined`: what `??` and `?.` skip. */
  datatype Option<+T> = None | Some(value: T) {

    /** The `??` operator: this value when defined, `fallback` otherwise. */
    function OrElse(fallback: T): T {
      match this
      case Some(v) => v
      case None => fallback
    }
  }

  /** `Failure` stands for an `Error` thrown at the call site. */
  datatype Result<+R, +E> = Success(value: R) | Failure(error: E)
}
