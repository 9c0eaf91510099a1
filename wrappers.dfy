/** Option, used wherever the Java code passes or stores a value that may be null. */
module Wrappers {

  datatype Option<+T> = None | Some(value: T) {

    /** The held value, or `default` for None. */
    function GetOr(default: T): T {
      match this
      case Some(v) => v
      case None => default
    }
  }

  /** How a Java operation that may throw ended: normally, or with an exception of kind `E`. */
  datatype Outcome<+E> = Pass | Fail(error: E)
}
