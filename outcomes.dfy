/** Option and result values shared by the whole model, and the FastAPI
    query-parameter validation the routes rely on. */
module Outcomes {

  datatype Option<T> = None | Some(value: T)

  /** An error as FastAPI reports it: a status code and a detail message. */
  datatype HttpError = HttpError(status: nat, detail: string)

  /** The outcome of a route handler: a response value, or an HTTP error. */
  datatype Result<T> = Ok(value: T) | Err(error: HttpError)

  function GetOr<T>(o: Option<T>, default: T): T
  {
    match o
    case Some(v) => v
    case None => default
  }

  /** Python truthiness of an optional string parameter: given and not empty. */
  predicate GivenText(o: Option<string>)
  {
    o.Some? && o.value != ""
  }

  /** `limit: int = Query(default=10, le=50)`: absent means 10, more than 50 is
      refused with 422 before the handler runs; there is no lower bound. */
  function ValidateLimit(limit: Option<int>): (r: Result<int>)
    ensures limit.None? ==> r == Ok(10)
    ensures limit.Some? && limit.value <= 50 ==> r == Ok(limit.value)
    ensures limit.Some? && limit.value > 50 ==> r.Err? && r.error.status == 422
    ensures r.Ok? ==> r.value <= 50
  {
    match limit
    case None => Ok(10)
    case Some(l) =>
      if l <= 50 then Ok(l)
      else Err(HttpError(422, "ensure this value is less than or equal to 50"))
  }
}
