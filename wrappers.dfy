/** Optional values: a query parameter or request field that may be missing. */
module Wrappers {

  datatype Option<+T> = None | Some(value: T) {

    /** The value, or `default` when there is none (a model field default). */
    function GetOr(default: T): T {
      match this
      case Some(v) => v
      case None => default
    }
  }

  /** Python truthiness of an optional string: `if s:` is false for a missing value and for "". */
  predicate Supplied(s: Option<string>) {
    s.Some? && s.value != ""
  }
}
