/** Option and Result, used for the source's "no match" values and for the
    exceptions it raises (failed assertions, empty random ranges). */
module Wrappers {

  datatype Option<+T> = None | Some(value: T)

  datatype Result<+T, +E> = Ok(value: T) | Err(error: E)
}
