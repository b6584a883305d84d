/** Small value wrappers shared by every module of the model. */
module Wrappers {

  /** A value that may be missing: SQL NULL, a JavaScript `null`/`undefined`
      or an absent query parameter. */
  datatype Option<+T> = None | Some(value: T) {

    /** The wrapped value, or `default` when there is none (JavaScript `x ?? d`). */
    function GetOr(default: T): T {
      match this
      case Some(v) => v
      case None => default
    }
  }

  /** A field of a JSON request body, where destructuring defaults apply to
      `undefined` only and keep an explicit `null`. */
  datatype Field<+T> = Undefined | Null | Given(value: T)

  /** The first present value of `a` and `b` (JavaScript `a ?? b`). */
  function Coalesce<T>(a: Option<T>, b: Option<T>): Option<T> {
    if a.Some? then a else b
  }
}
