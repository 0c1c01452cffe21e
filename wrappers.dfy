/** Optional values and success-or-error results, as the front end's
    `undefined`/`null` and thrown errors are modelled. */
module Wrappers {

  /** A value that may be absent (`undefined` or `null`). */
  datatype Option<+T> = None | Some(value: T) {

    /** `this ?? default` */
    function GetOr(default: T): T {
      match this
      case Some(v) => v
      case None => default
    }
  }

  /** The outcome of an asynchronous call: it resolves to a value or
      rejects with an error. */
  datatype Result<+T, +E> = Ok(value: T) | Err(error: E)
}
