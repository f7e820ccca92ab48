/** Optional values and results with an error, as the parser library uses them:
    an unset class attribute is `None`, and a failed lookup raises one of a
    few exception kinds, which the model returns as an `Err`. */
module Wrappers {

  datatype Option<+T> = None | Some(value: T)

  datatype Result<+T, +E> = Ok(value: T) | Err(error: E)
}
