/** Values that stand for the Python runtime behaviour the bot relies on:
    `None`, the exceptions its code can raise, and a result that is either a
    value or a raised exception. */
module Python {

  datatype Option<+T> = None | Some(value: T)

  /** The built-in exceptions the modelled code can raise on malformed data. */
  datatype Exception = TypeError | AttributeError | KeyError | IndexError

  /** The outcome of a Python call: a returned value or a raised exception. */
  datatype Result<+T> = Ok(value: T) | Raise(exception: Exception)
}
