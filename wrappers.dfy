/** Failure-carrying results shared by every module of the model.
    A thrown JavaScript `Error(message)` is modelled as `Err(message)`. */
module Wrappers {

  datatype Option<+T> = None | Some(value: T)

  datatype Result<+T> = Ok(value: T) | Err(error: string)
}
