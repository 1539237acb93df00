/** Result types and small functions shared by the models. */
module Wrappers {

  datatype Option<+T> = None | Some(value: T)

  datatype Result<+T, +E> = Ok(value: T) | Err(error: E)

  function Max(a: nat, b: nat): nat { if a < b then b else a }
}
