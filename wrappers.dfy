/** Optional values and results for the parts of the client that may be
    absent (`null`/`undefined` in the source) or may throw. */
module Wrappers {

  /** `None` stands for JavaScript's `null` and `undefined` alike. */
  datatype Option<+T> = None | Some(value: T)

  /** `Err` carries the message of the exception the source throws. */
  datatype Result<+T> = Ok(value: T) | Err(message: string)
}
