/** Small failure-carrying datatypes shared by the other modules. */
module Wrappers {

  /** A value that may be absent (Ruby's `nil`). */
  datatype Option<+T> = None | Some(value: T)

  /** How a Ruby expression ends: with a value, or by raising an exception. */
  datatype Outcome<+T> = Returned(value: T) | Raised
}
