/** Option, Result and Outcome: the Python `None`, a value-or-exception return, and a
    procedure that either completes or raises. */
module Wrappers {

  datatype Option<+T> = None | Some(value: T)

  datatype Result<+T, +E> = Ok(value: T) | Err(error: E)

  datatype Outcome<+E> = Pass | Fail(error: E)
}
