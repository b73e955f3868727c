/** Optional values and success/failure outcomes, standing in for Kotlin's
    nullable types and for `kotlin.Result<Unit>`. */
module Wrappers {

  /** A Kotlin `T?`: `None` is `null`. */
  datatype Option<+T> = None | Some(value: T) {

    /** Kotlin's elvis operator `x ?: default`. */
    function GetOr(default: T): T {
      match this
      case Some(v) => v
      case None => default
    }
  }

  /** `Result<Unit>`: success, or failure carrying the exception's message. */
  datatype Outcome = Success | Failure(message: string)
}
