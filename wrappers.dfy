/** Stand-ins for Java's null references and thrown exceptions. */
module Wrappers {

  /** A value that may be absent: `None` plays the part of a null reference. */
  datatype Option<+T> = None | Some(value: T)

  /** The outcome of a `void` operation that may throw: `Fail` carries the exception. */
  datatype Outcome<+E> = Pass | Fail(error: E)
}
