/** Result types for the soft and hard failures of the futures-math engine. */
module Wrappers {

  /** `None` stands where the engine returns a not-a-number sentinel. */
  datatype Option<+T> = None | Some(value: T)

  /** `Err` stands where the engine raises an exception to its caller. */
  datatype Result<+T, +E> = Ok(value: T) | Err(error: E)
}
