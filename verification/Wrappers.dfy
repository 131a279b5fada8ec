/** Results that may be missing, and string operations that may throw. */
module Wrappers {

  datatype Option<+T> = None | Some(value: T)

  /** `std::out_of_range` is the one exception the string edits throw. */
  datatype Result<+T> = Ok(value: T) | OutOfRange
}
