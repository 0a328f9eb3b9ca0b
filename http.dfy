/** What the two web services answer. */
module Http {
  import opened Wrappers

  /** A handler's answer: its JSON body, or an `HTTPException` with its status code and,
      where the service words the detail itself, that detail (an exception's own text,
      `str(e)`, is not modelled and reads as None). */
  datatype Reply<T> = Ok(body: T) | Error(code: int, detail: Option<string>)

  /** The answer to a request whose handler raised something it did not expect. */
  function ServerError<T>(): Reply<T> {
    Error(500, None)
  }
}
