/** Optional values and results with an error, used for the nullable fields
    and the thrown errors of the modelled code. */
module Wrappers {

  /** A value that may be missing (`null` / `undefined` in the source). */
  datatype Option<T> = None | Some(value: T) {

    /** The value, or `default` when missing (the `??` operator). */
    function GetOr(default: T): T
    {
      match this
      case Some(v) => v
      case None => default
    }
  }

  /** A result or the message of the error that was thrown. */
  datatype Result<T, E> = Ok(value: T) | Err(error: E)
}
