/** The server's error type and the database-error helpers (model/mod.rs). */
module Errors {
  import opened Wrappers

  /** The `diesel::result::Error` cases the model tells apart. */
  datatype DieselError = NotFound | UniqueViolation(constraint: string) | QueryFailed(description: string)

  /** `WartIDError`; `InvalidForm` is raised by the OAuth2 routes. */
  datatype WartIDError =
    | OAuth2Error(message: string)
    | DatabaseConnection
    | Database(cause: DieselError)
    | InvalidCredentials(message: string)
    | Any(description: string)
    | Todo
    | InvalidForm(message: string)

  type WartIDResult<T> = Result<T, WartIDError>

  /** `From<diesel::result::Error>`: every database error is wrapped, unchanged, as `Database`. */
  function FromDiesel(e: DieselError): (r: WartIDError)
    ensures r.Database? && r.cause == e
  {
    Database(e)
  }

  /** `extract_not_found`: a missing row becomes `Ok(None)`, every other error stays an error. */
  function ExtractNotFound<T>(q: Result<T, DieselError>): (r: WartIDResult<Option<T>>)
    ensures q.Ok? ==> r == Ok(Some(q.value))
    ensures r == Ok(None) <==> q == Err(NotFound)
    ensures q.Err? && q.error != NotFound ==> r == Err(Database(q.error))
  {
    match q
    case Ok(ok) => Ok(Some(ok))
    case Err(NotFound) => Ok(None)
    case Err(err) => Err(FromDiesel(err))
  }

  /** Nothing is lost: the query result can be read back from what `extract_not_found` returns. */
  lemma ExtractNotFoundInjective<T>(q1: Result<T, DieselError>, q2: Result<T, DieselError>)
    requires ExtractNotFound(q1) == ExtractNotFound(q2)
    ensures q1 == q2
  {
    match q1
    case Ok(_) =>
    case Err(e) =>
      if e != NotFound { assert ExtractNotFound(q2) == Err(Database(e)); }
  }
}
