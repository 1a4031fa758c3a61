/** Option, Result and Outcome: nullable values and exceptions of the modelled Kotlin code. */
module Wrappers {

  /** A Kotlin nullable value: `null` is None. */
  datatype Option<+T> = None | Some(value: T) {

    /** Kotlin's elvis operator `this ?: default`. */
    function OrElse(default: T): (r: T)
      ensures Some? ==> r == value
      ensures None? ==> r == default
    {
      match this
      case Some(v) => v
      case None => default
    }
  }

  /** A value, or the exception that was thrown instead. */
  datatype Result<+R, +E> = Success(value: R) | Failure(error: E)

  /** Normal completion, or the exception that was thrown. */
  datatype Outcome<+E> = Pass | Fail(error: E)
}
