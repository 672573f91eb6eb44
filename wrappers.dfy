/** Result and Option values that stand in for the Java exceptions and null returns of the game. */
module Wrappers {

  /** The only exception the rules engine throws on purpose: IllegalArgumentException. */
  datatype Failure = IllegalArgument

  datatype Result<T> = Ok(value: T) | Err(error: Failure)

  datatype Option<T> = None | Some(value: T)
}
