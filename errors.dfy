/** The outcomes of the booking service: the errors it throws and the
    wrappers its operations return. */
module Errors {

  /** Conventional optional value: a lookup that found nothing is `None`. */
  datatype Option<T> = None | Some(value: T)

  /** The error kinds the booking service throws. `Fault` is not one of the
      application's own errors: it is the runtime `TypeError` raised when the
      update path reads `userId` of a booking lookup that returned null. */
  datatype ServiceError =
    | NotFoundError
    | UnauthorizedError
    | CannotListHotelsError
    | MaximumCapacityRoom
    | Fault

  /** A service operation either returns a value or throws one error. */
  datatype Result<T> = Ok(value: T) | Err(error: ServiceError)

  /** The `name` field carried by each thrown error; the controller
      dispatches on this string, not on the kind. */
  function Name(e: ServiceError): (n: string)
    ensures n == "TypeError" <==> e == Fault
    ensures |n| > 0
  {
    match e
    case NotFoundError => "NotFoundError"
    case UnauthorizedError => "UnauthorizedError"
    case CannotListHotelsError => "CannotListHotelsError"
    case MaximumCapacityRoom => "maximumCapacityRoom"
    case Fault => "TypeError"
  }

  /** Distinct kinds carry distinct names, so a dispatch on the name
      tells every kind apart. */
  lemma NameInjective(e1: ServiceError, e2: ServiceError)
    ensures Name(e1) == Name(e2) ==> e1 == e2
  {
  }
}
