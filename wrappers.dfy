/** Option and Result, used for values that may be missing and for the
    Python exceptions the pipeline lets escape. */
module Wrappers {

  datatype Option<+T> = None | Some(value: T)

  /** `Err(message)` stands for an exception whose `str(e)` is `message`. */
  datatype Result<+T> = Ok(value: T) | Err(error: string)
}
