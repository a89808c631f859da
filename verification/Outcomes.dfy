/** Optional values, and the two ways a request can end. */
module Outcomes {

  datatype Option<+T> = None | Some(value: T) {
    function GetOr(default: T): T {
      match this
      case Some(v) => v
      case None => default
    }
  }

  /** A request either answers with a value or is refused with an HTTP status. */
  datatype Result<+T> = Ok(value: T) | Refused(status: nat) {
    predicate IsFailure() { Refused? }
    function PropagateFailure<U>(): Result<U>
      requires Refused?
    {
      Refused(status)
    }
    function Extract(): T
      requires Ok?
    {
      value
    }
  }

  /** A field of an update request: left out, or given (possibly as null for a nullable column). */
  datatype Change<T> = Unset | Set(value: T) {
    function Over(current: T): T {
      match this
      case Unset => current
      case Set(v) => v
    }
  }

  /** The request gives this value or leaves the old one. */
  ghost predicate Patches<T(!new)>(change: Change<T>, was: T, now: T) {
    if change.Set? then now == change.value else now == was
  }

  ghost predicate Sets<T(!new)>(o: Option<T>, was: T, now: T) {
    if o.Some? then now == o.value else now == was
  }

  const BAD_REQUEST: nat := 400
  const NOT_FOUND: nat := 404
  const CONFLICT: nat := 409
  const GONE: nat := 410
  const UNPROCESSABLE: nat := 422
  /** A database constraint aborted the statement and the unit of work was rolled back. */
  const ABORTED: nat := 500
}
