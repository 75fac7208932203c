/** Optional values: the model of a JavaScript argument or field that may be `undefined`. */
module Wrappers {

  datatype Option<+T> = Nothing | Some(value: T) {

    /** The value when present, otherwise `default` (JavaScript's `value ?? default`). */
    function GetOr(default: T): T {
      match this
      case Some(v) => v
      case Nothing => default
    }
  }
}
