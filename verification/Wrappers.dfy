/** Result types shared by the modules of the model. */
module Wrappers {
  datatype Option<+T> = None | Some(value: T)

  datatype Result<+T, +E> = Ok(value: T) | Err(error: E)

  /** What can go wrong with one command: not carried out, or carried out with the reply lost. */
  datatype Fault = NoFault | Refused | ReplyLost
}
