/** The absent-or-present and success-or-failure values the other modules use for optional fields and thrown errors. */
module Wrappers {
  datatype Option<+T> = None | Some(value: T) {
    /** The `??` operator. */
    function GetOr(default: T): T {
      if Some? then value else default
    }

    /** `a ?? b` where `b` may be absent too. */
    function OrElse(other: Option<T>): Option<T> {
      if Some? then this else other
    }
  }

  /** The outcome of something that throws in the source. */
  datatype Result<+T, +E> = Ok(value: T) | Err(error: E)
}
