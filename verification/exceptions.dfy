/**
 * The exceptions the client can throw, as values.  A call either returns
 * normally (`Ok`) or raises one of these (`Err`).
 */
module Exceptions {
  import opened Wrappers

  datatype Failure =
      /** `ArgumentNullException(paramName)`; the parameter name is itself
          `null` (`None`) when the source passes a null string for it. */
    | ArgumentNull(paramName: Option<string>)
      /** `BadResponseFromWebServiceException(msg, AttemptedUrl, AttemptedParams)`:
          the raw gateway response, the URL that was called and the body that was posted. */
    | BadResponseFromWebService(msg: string, attemptedUrl: string, attemptedParams: string)
      /** `IndexOutOfRangeException`: an array access past the end. */
    | IndexOutOfRange

  datatype Result<+T> = Ok(value: T) | Err(failure: Failure)
}
