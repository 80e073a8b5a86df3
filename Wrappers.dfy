/** Option and Result, the two shapes the bot uses for "maybe absent" (Python's
    None) and "failed with a reason" (an early return with an error message). */
module Wrappers {

  datatype Option<+T> = None | Some(value: T)

  datatype Result<+T, +E> = Ok(value: T) | Err(error: E)
}
