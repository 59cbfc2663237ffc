/** Option and Result values used for the error paths of the model. */
module Wrappers {

  /** `None` stands for a value the source would compute as a non-finite double
      (a division by zero), or for a missing item. */
  datatype Option<+T> = None | Some(value: T)

  /** Outcome of an operation whose source version can throw. */
  datatype Result<+T, +E> = Ok(value: T) | Err(error: E)
}
