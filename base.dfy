/** Option and Result, the two wrappers the model uses for absent values
    (pandas nulls) and for operations that raise. */
module Base {

  datatype Option<T> = None | Some(value: T)

  datatype Result<T, E> = Ok(value: T) | Err(error: E)
}
