/** The client-visible error an endpoint raises (`HTTPException(status_code, detail)`). */
module Http {
  import opened Wrappers

  datatype HttpError = HttpError(status: nat, detail: string)

  /** What the server answers when a handler raises an exception it does not catch. */
  const ServerError: HttpError := HttpError(500, "Internal Server Error")

  /** The response of an endpoint: its body, or the exception it raises. */
  type Response<T> = Result<T, HttpError>
}
