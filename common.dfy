/** Values shared by every service of the backend: the kinds of failure an
    operation reports, a result wrapper, and the JavaScript truthiness and
    comparison rules the services rely on when they inspect request bodies. */
module Common {

  /** The exceptions the services throw. `InternalError` stands for every
      failure that is not one of the framework's HTTP exceptions: a plain
      `Error`, a TypeError from dereferencing a missing record, and a
      database error (update of a missing row, a violated foreign key or
      unique constraint). */
  datatype ErrorKind =
    | NotFound
    | BadRequest
    | Unauthorized
    | Forbidden
    | Conflict
    | InternalError

  datatype Option<+T> = None | Some(value: T)

  datatype Result<+T> = Ok(value: T) | Err(error: ErrorKind)

  /** A number field of a request body as JavaScript sees it: absent,
      explicitly null, or a number. */
  datatype JsNum = Undefined | Null | Num(v: real)

  /** `if (x)` on a number field: undefined, null and 0 are falsy. */
  predicate Truthy(x: JsNum)
  {
    x.Num? && x.v != 0.0
  }

  /** `x >= 0` on a number field: undefined compares false, null is
      converted to 0 and so compares true. */
  predicate AtLeastZero(x: JsNum)
  {
    match x
    case Undefined => false
    case Null => true
    case Num(v) => v >= 0.0
  }

  /** An optional string field is truthy when present and non-empty. */
  predicate TruthyString(s: Option<string>)
  {
    s.Some? && |s.value| > 0
  }
}
