/** Success/failure values shared by every module of the model.  A Python
    exception raised by the modelled code becomes a `Fail`/`Err` carrying the
    name of the exception class; `None` becomes `Option.None`. */
module Wrappers {

  datatype Option<+T> = None | Some(value: T)

  datatype Result<+T, +E> = Ok(value: T) | Err(error: E)

  datatype Outcome<+E> = Pass | Fail(error: E)
}
