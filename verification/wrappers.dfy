/** A value that may be absent.  The model uses it for Go's `nil` error and
    for the `null` fields of the frontend's state. */
module Wrappers {

  datatype Option<+T> = None | Some(value: T) {

    /** Go's fallback on a missing value: the status a `ResponseWriter` sends
        when none was set, or the `b` a request without one decodes to. */
    function GetOr(default: T): T {
      match this
      case Some(v) => v
      case None => default
    }
  }
}
