/** Option and Result values standing in for Python's `None` and its exceptions. */
module Wrappers {

  datatype Option<+T> = None | Some(value: T)

  /** The Python exceptions the modelled code can raise, plus the end of a
      scripted oracle or random stream (the model's stand-in for a loop that
      would otherwise wait forever for a usable answer). */
  datatype Error =
    | ValueError(message: string)
    | IndexError
    | KeyError(key: string)
    | AttributeError(name: string)
    | ScriptExhausted

  datatype Result<+T> = Ok(value: T) | Err(error: Error)
}
