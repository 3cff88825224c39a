/** Failure-carrying datatypes shared by the other modules. */
module Wrappers {

  /** A value that may be absent; stands for Python's `None`. */
  datatype Option<T> = None | Some(value: T)

  /** The outcome of an operation that raises an exception in the scraper:
      either its value or the reason it failed. */
  datatype Result<T, E> = Ok(value: T) | Err(error: E)
}
