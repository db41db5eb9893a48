/** Option and Result values shared by the modules of this model. Python's
    `None` and raised exceptions are written with these. */
module Wrappers {

  datatype Option<+T> = None | Some(value: T)

  datatype Result<+T, +E> = Ok(value: T) | Err(error: E)
}
