/** Option and Result values for operations that can fail. */
module Wrappers {

  datatype Option<T> = None | Some(value: T)

  /** Python's exceptions, as far as the model distinguishes them, become
      `Failure` values carrying a description. */
  datatype Result<T> = Success(value: T) | Failure(error: string)
}
