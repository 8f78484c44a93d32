/** Small value wrappers shared by every module of the model. */
module Wrappers {

  /** A value that may be absent: a missing dictionary key, or a `None`. */
  datatype Option<+T> = None | Some(value: T) {

    /** The wrapped value, or `default` when absent (Python's `d.get(k, default)`). */
    function GetOr(default: T): T {
      match this
      case Some(v) => v
      case None => default
    }
  }

  /** The result of a call into code outside the model (a network client, psutil, the
      OS): it either returns a value or raises an exception whose `str(e)` is `message`. */
  datatype Outcome<+T> = Returned(value: T) | Raised(message: string)

  /** Python truthiness of an optional string: present and non-empty. */
  predicate Truthy(o: Option<string>) {
    o.Some? && o.value != ""
  }
}
