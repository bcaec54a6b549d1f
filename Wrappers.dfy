/** Failure-carrying values at the boundaries of the port killer. */
module Wrappers {

  /** A value that may be missing; `None` plays the part of JavaScript's `NaN`
      for a number that did not parse. */
  datatype Option<+T> = None | Some(value: T)

  /** The outcome of an operation that either completes or throws `error`. */
  datatype Outcome<+E> = Pass | Fail(error: E)
}
