/** Datatypes shared by the models. */
module Prelude {

  /** A value that may be absent: the `null`, `undefined` and not-found results of the source. */
  datatype Option<+T> = None | Some(value: T)

  /** A value or the error the source throws or returns instead. */
  datatype Result<+T, +E> = Ok(value: T) | Err(error: E)
}
