/** Failure-compatible values shared by every module of the model. */
module Wrappers {

  /** A value that may be absent (a Go map lookup's `ok`, a nil reference). */
  datatype Option<+T> = None | Some(value: T)

  /** Either a value or the error a Go function returned beside it. */
  datatype Result<+T, +E> = Ok(value: T) | Err(error: E)
}

/** The part of net/http the handlers use: a status code and a plain-text body. */
module Http {

  datatype Response = Response(status: int, body: string)

  const StatusOK := 200
  const StatusUnauthorized := 401
  const StatusInternalServerError := 500

  /** `http.Error(w, message, code)`: the body is the message followed by a newline. */
  function Error(message: string, code: int): (r: Response)
    ensures r.status == code
    ensures |r.body| == |message| + 1 && r.body[..|message|] == message && r.body[|message|] == '\n'
  {
    Response(code, message + "\n")
  }
}
