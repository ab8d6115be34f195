/** Route replies and the errors a handler turns into them. */
module Http {
  /** The errors a handler catches. Their messages come from the libraries
      that raise them and are not modelled; only their cause is. */
  datatype Failure =
    | MalformedBody                    // `req.json()` on a body that is not JSON
    | TypeError                        // a property read on undefined or null, or a call of a non-function
    | HashError                        // the password hash given a non-string
    | ValidationError(paths: set<string>)  // a document failing its schema, naming the failing paths

  /** The outcome of a step that can throw. */
  datatype Result<T> = Failed(failure: Failure) | Success(value: T)

  /** A reply body: an error message written by the handler, the message of
      a caught error, or a payload. */
  datatype Body<T> = Message(error: string) | Caught(failure: Failure) | Payload(value: T)

  datatype Response<T> = Response(status: int, body: Body<T>)

  /** `NextResponse.json({ error }, { status })`. */
  function Refuse<T>(status: int, error: string): (r: Response<T>)
    ensures r.status == status && r.body == Message(error)
  {
    Response(status, Message(error))
  }

  /** The `catch` clause every handler ends with: status 500 carrying the
      caught error. */
  function ServerError<T>(f: Failure): (r: Response<T>)
    ensures r.status == 500 && r.body == Caught(f)
  {
    Response(500, Caught(f))
  }
}
