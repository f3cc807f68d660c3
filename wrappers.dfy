/** The optional value used wherever the JavaScript pages read a possibly missing value
    (a `find` that matched nothing, an absent storage key, an unset date). */
module Wrappers {

  datatype Option<+T> = None | Some(value: T) {

    /** The value, or a default when there is none (the `x || fallback` idiom). */
    function GetOr(default: T): T {
      match this
      case Some(v) => v
      case None => default
    }
  }
}
