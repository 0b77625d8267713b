/** Optional values, used where the original program uses `null` or `undefined`. */
module Wrappers {

  datatype Option<+T> = None | Some(value: T) {

    /** The value inside Some, or `default` for None. */
    function GetOr(default: T): T {
      match this
      case Some(v) => v
      case None => default
    }
  }
}

/** Instants as `new Date(s).getTime()` produces them. */
module Dates {

  /** Milliseconds since the epoch, or NaN when the text is not a date. */
  datatype Millis = NaN | Ms(ms: int)

  /**
   * The browser's date parser, `s => new Date(s).getTime()`. It is a
   * library routine, so the model takes it as a parameter and assumes
   * nothing about it.
   */
  type DateParser = string -> Millis
}
