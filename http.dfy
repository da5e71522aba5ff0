// The three ways a controller handler ends: it answers itself with a success
// body, it answers itself with an error body (`res.status(code).json({ error,
// details })`), or it throws and leaves the answer to the error middleware.

module Http {

  import opened Validation
  import ErrorHandling

  datatype Reply<+T> =
    | Success(status: int, message: string, payload: T)
    | Refused(status: int, error: string, details: seq<Issue>)
    | Raised(failure: ErrorHandling.Failure)

  /** The status code the client finally sees. */
  function StatusSeen<T>(r: Reply<T>, development: bool): int
  {
    match r
    case Success(status, _, _) => status
    case Refused(status, _, _) => status
    case Raised(failure) => ErrorHandling.HandleError(failure, development).status
  }

  const ValidationFailed := "Validation failed"
  const NotAuthenticated := "User not authenticated"
}
