/** Failure-carrying values shared by every module of the model. */
module Wrappers {

  datatype Option<T> = None | Some(value: T)

  /** The exceptions the modelled Python code can raise. */
  datatype Error =
    | ValueError(text: string)     // int() or float() of a text that is not a number
    | IndexError                   // a list index past the end: too few split parts, a missing row
    | KeyError(key: string)        // a dictionary key that is absent
    | MalformedTime(text: string)  // the RuntimeError raised for an unparsable free-time cell

  datatype Result<T> = Ok(value: T) | Err(error: Error)

  /** The result of a step that only succeeds or fails. */
  datatype Outcome = Pass | Fail(error: Error)
}
