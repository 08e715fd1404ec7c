/** Kotlin's nullable values, as a datatype. */
module Wrappers {

  /** `T?`: `None` stands for Kotlin's `null`. */
  datatype Option<+T> = None | Some(value: T)
  {
    /** Kotlin's elvis operator `this ?: d`. */
    function GetOr(d: T): T
    {
      match this
      case Some(v) => v
      case None => d
    }
  }
}
