/** Option and Result, used for Python's `None` returns and raised exceptions. */
module Wrappers {

  datatype Option<+T> = None | Some(value: T)

  /** The exceptions the modelled code can raise. */
  datatype Error = TypeError | ValueError | KeyError

  datatype Result<+T> = Ok(value: T) | Err(error: Error)
}
