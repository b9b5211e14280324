/** Values shared by every part of the service-centre model: identities,
    roles of the authenticated caller, and the outcome of a request handler. */
module Common {

  /** A document identity (a Mongo ObjectId), compared only for equality. */
  type Id = nat

  /** Milliseconds since 1970-01-01T00:00:00Z, the value a JavaScript Date holds. */
  type Timestamp = int

  datatype Option<+T> = None | Some(value: T)

  /** The three roles the authentication layer attaches to a request. */
  datatype Role = Customer | Mechanic | Manager

  /** The authenticated user of a request (`req.user`): identity and role. */
  datatype Caller = Caller(id: Id, role: Role)

  /** Every client-visible failure a handler answers with. */
  datatype Error =
    | BadRequest    // 400: missing or invalid field, duplicate name or number, wrong status
    | Forbidden     // 403: the caller does not own the document
    | NotFound      // 404: unknown identity
    | Conflict      // 409: the time slot is already booked
    | ServerError   // 500: a failed save (schema validation, unique index), a failed e-mail or SMS, a missing finishedAt

  function HttpStatus(e: Error): int
  {
    match e
    case BadRequest => 400
    case Forbidden => 403
    case NotFound => 404
    case Conflict => 409
    case ServerError => 500
  }

  datatype Result<+T> = Ok(value: T) | Err(error: Error)

  /** A request-body string counts as present when it is truthy in JavaScript:
      supplied and not the empty string. */
  predicate Given(s: Option<string>)
  {
    s.Some? && s.value != ""
  }

  /** A request-body number counts as present when it is truthy: supplied and not 0. */
  predicate GivenNumber(n: Option<int>)
  {
    n.Some? && n.value != 0
  }

  /** `a || b` on an optional string: the value when truthy, else the fallback. */
  function OrElse(s: Option<string>, fallback: string): string
  {
    if Given(s) then s.value else fallback
  }
}
