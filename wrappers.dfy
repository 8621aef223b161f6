/** Optional values and the exceptions the modelled Python code can raise. */
module Wrappers {

  datatype Option<+T> = None | Some(value: T)

  /** The Python exception an operation ends with. */
  datatype PyError =
    | ZeroDivisionError                   // `x % 0`, `1.0 / 0`
    | IndexError                          // an index or boolean mask that does not fit
    | AttributeError                      // an attribute looked up on None
    | ValueError(message: string)         // raised explicitly with this message
    | PlainException(message: string)     // `raise Exception(message)`

  /** Either the value an operation returns or the exception it raises. */
  datatype Result<+T> = Ok(value: T) | Err(error: PyError)
}
