/** Small failure-compatible wrapper shared by the other modules. */
module Wrappers {

  /** Some value, or nothing (a Java `null`, a Python `None`, a search that found nothing). */
  datatype Option<+T> = None | Some(value: T) {

    /** Returns the wrapped value, or `default` when there is none. */
    function GetOr(default: T): T {
      match this
      case Some(v) => v
      case None => default
    }
  }
}
