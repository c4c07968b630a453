/** Option and Result values shared by the modules of this model: a Python
    `None` becomes `None`, a raised exception becomes `Err`. */
module Wrappers {

  datatype Option<T> = None | Some(value: T)

  datatype Result<T, E> = Ok(value: T) | Err(error: E)
}
