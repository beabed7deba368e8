/** Results that may be absent or may be an error raised to the caller. */
module Wrappers {
  datatype Option<+T> = None | Some(value: T)

  datatype Result<+T> = Success(value: T) | Raised(message: string)
}
