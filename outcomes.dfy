/** Values shared by every part of the model: an optional value, the Python
    exceptions that can leave one of the scripts' functions, and the HTTP
    status codes the web variants attach to them. */
module Outcomes {

  datatype Option<+T> = None | Some(value: T)

  /** An exception raised by a script function and not caught inside it. */
  datatype Exception =
    | AttributeError      // `urls.split` on a missing (None) URL string
    | IndexError          // `url.split()[0]` on a piece with no token
    | MalformedPlaylist   // ipytv could not parse a playlist source
    | ParseError          // ElementTree could not parse a fetched guide
    | SystemExit          // the guide fetch failed in the stand-alone EPG script
    | HttpStatus(code: int)  // `MyException(status_code=code, ...)`

  /** What a script function gives back: a value, or the exception it raised. */
  datatype Outcome<+T> = Done(value: T) | Raised(exc: Exception)

  const BAD_REQUEST: int := 400
  const INTERNAL_SERVER_ERROR: int := 500
  const SERVICE_UNAVAILABLE: int := 503
}
