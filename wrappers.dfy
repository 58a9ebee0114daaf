/** Optional values and results with an error, shared by every module of the model. */
module Wrappers {

  /** A nullable value: SQL NULL or Python None is `None`. */
  datatype Option<T> = None | Some(value: T)

  /** The outcome of an operation that can raise: `Err` carries what was raised. */
  datatype Result<T, E> = Ok(value: T) | Err(error: E)
}
