/** Values shared by every part of the model: an optional value (Python's None),
    the failures a request handler can end in, and the HTTP status codes the
    handlers use. */
module Common {

  /** Python's `Optional[T]`: `None` or a value. */
  datatype Option<T> = None | Some(value: T)

  /** How a request ends when it does not succeed.
      - HttpError: an `HTTPException(status_code, detail)` raised by the code;
      - InvalidCredentials, UserNotFound: the application's own exception classes,
        raised by the auth handlers; no handler is registered for them, so the
        framework answers them with 500 like any uncaught exception;
      - NotAuthenticated: the framework's own refusal of a request whose
        Authorization header is missing or is not a bearer credential, raised
        before the guard's code runs; its status and detail are the framework's;
      - Unhandled: an exception nobody catches (a missing dictionary key, a
        primary-key clash on insert, a query that finds several rows), which the
        framework answers with status 500. */
  datatype Failure =
    | HttpError(status: int, detail: string)
    | InvalidCredentials
    | UserNotFound
    | NotAuthenticated
    | Unhandled(cause: string)

  /** The outcome of an operation that may raise. */
  datatype Result<T> = Ok(value: T) | Err(failure: Failure)

  const HTTP_200_OK: int := 200
  const HTTP_201_CREATED: int := 201
  const HTTP_204_NO_CONTENT: int := 204
  const HTTP_400_BAD_REQUEST: int := 400
  const HTTP_403_FORBIDDEN: int := 403
  const HTTP_404_NOT_FOUND: int := 404
  const HTTP_500_INTERNAL_SERVER_ERROR: int := 500

  /** Python truthiness of an optional string: neither None nor empty. */
  predicate Truthy(s: Option<string>) {
    s.Some? && s.value != ""
  }
}
