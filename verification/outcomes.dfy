/** Optional values and results whose failure carries a human-readable message,
    the way every error of the app ends up as a banner string. */
module Outcomes {

  datatype Option<+T> = None | Some(value: T)

  /** Either a value or the message of the Error that was thrown. */
  datatype Result<+T> = Ok(value: T) | Err(message: string)
}
