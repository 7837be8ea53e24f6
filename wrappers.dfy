// Optional values and error results shared by every module.
module Wrappers {
  datatype Option<T> = None | Some(value: T)
  {
    predicate IsSome() { this.Some? }

    /** JavaScript's `value || fallback` when the value is present. */
    function GetOr(fallback: T): T { if this.Some? then value else fallback }
  }

  /** A call that either succeeds with a value or fails with a message. */
  datatype Result<T> = Ok(value: T) | Err(message: string)
}
