/** Option and Result, plus the ways the modelled Python code can fail. */
module Wrappers {

  datatype Option<+T> = None | Some(value: T)

  /** The Python exceptions the modelled code can raise. */
  datatype Failure =
    | IndexOutOfRange   // IndexError: a list index or `obts[-1]` on a too-short list
    | MissingKey        // KeyError: a relation type absent from a dictionary
    | UnableToExtract   // the plain `Exception` raised by the legacy expectation extractor

  datatype Result<+T> = Ok(value: T) | Err(failure: Failure)
}
