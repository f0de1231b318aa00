/** Errors as the controller tells them apart: by identity with a sentinel, by the API
    error in their chain, and by a wrapped `TerminalError`. */
module Errors {
  import opened Wrappers

  datatype ApiError = ApiError(code: string, text: string)

  datatype Sentinel = NoSentinel | NotFound | Terminal | SecretTypeNotSupported | SecretNotFound

  datatype Error = Error(sentinel: Sentinel, api: Option<ApiError>, wrapsTerminal: bool, text: string)

  const NOT_FOUND := Error(NotFound, None, false, "resource not found")
  const TERMINAL := Error(Terminal, None, false, "resource is in terminal condition")

  datatype Result<+T> = Ok(value: T) | Err(error: Error)
}
