/** The result shapes shared by the models: a value that may be absent, and a
    call that may throw. */
module Common {

  datatype Option<+T> = None | Some(value: T)

  datatype Result<+T, +E> = Ok(value: T) | Err(error: E)
}
