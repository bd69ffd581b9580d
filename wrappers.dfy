/** Option, Result and the exceptions the wrapper can raise to its callers. */
module Wrappers {

  datatype Option<+T> = None | Some(value: T)

  /** The Python exceptions that leave a wrapper call, kept as values. */
  datatype Error =
    | RetryLimitHit                // Exception("Retry limit hit.")
    | ValueError(msg: string)      // unknown API name in the facade
    | NameError(msg: string)       // `verb` read before the loop ever bound it
    | TypeError(msg: string)       // str + dict, None not iterable, ...
    | AttributeError(msg: string)  // None.encode(...) when no secret is configured
    | AttemptRaised(msg: string)  // anything one attempt raises before its response is handled: preparing, signing or send()

  datatype Result<+T> = Ok(value: T) | Err(error: Error)
}
