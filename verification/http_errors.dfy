/**
 * The `HttpError` hierarchy (src/utils/httpErrors.ts): an error carries a
 * class, an HTTP status and a message.  Each subclass fixes the status and
 * defaults the message to the status's reason phrase.
 * `UnprocessableEntityError` is thrown by the scheduler but is not defined
 * alongside the others; it is kept here as a kind with no known status.
 */
module HttpErrors {
  import opened Wrappers

  datatype ErrorKind =
    | Base
    | BadRequest
    | Unauthorized
    | Forbidden
    | NotFound
    | Conflict
    | UnprocessableEntity

  datatype HttpError = HttpError(kind: ErrorKind, status: Option<int>, message: string)

  /** The kinds whose class fixes a status code. */
  predicate IsStatusSubclass(k: ErrorKind) {
    k.BadRequest? || k.Unauthorized? || k.Forbidden? || k.NotFound? || k.Conflict?
  }

  /** The status a subclass passes to the base constructor. */
  function SubclassStatus(k: ErrorKind): (r: Option<int>)
    ensures r.Some? <==> IsStatusSubclass(k)
    ensures r.Some? ==> 400 <= r.value < 500
  {
    match k
    case BadRequest => Some(400)
    case Unauthorized => Some(401)
    case Forbidden => Some(403)
    case NotFound => Some(404)
    case Conflict => Some(409)
    case _ => None
  }

  /** The reverse table: the subclass whose status is `status`, if any; the five statuses are pairwise distinct. */
  function KindOfStatus(status: int): (r: Option<ErrorKind>)
    ensures r.Some? ==> IsStatusSubclass(r.value)
    ensures r.Some? ==> SubclassStatus(r.value) == Some(status)
    ensures r.None? ==> forall k :: IsStatusSubclass(k) ==> SubclassStatus(k) != Some(status)
  {
    if status == 400 then Some(BadRequest)
    else if status == 401 then Some(Unauthorized)
    else if status == 403 then Some(Forbidden)
    else if status == 404 then Some(NotFound)
    else if status == 409 then Some(Conflict)
    else None
  }

  /** A subclass's default message: the reason phrase of its status. */
  function ReasonPhrase(k: ErrorKind): string
    requires IsStatusSubclass(k)
  {
    match k
    case BadRequest => "Bad Request"
    case Unauthorized => "Unauthorized"
    case Forbidden => "Forbidden"
    case NotFound => "Not Found"
    case Conflict => "Conflict"
  }

  /** `this.name = new.target.name`: the name of the constructed class. */
  function ClassName(k: ErrorKind): string {
    match k
    case Base => "HttpError"
    case BadRequest => "BadRequestError"
    case Unauthorized => "UnauthorizedError"
    case Forbidden => "ForbiddenError"
    case NotFound => "NotFoundError"
    case Conflict => "ConflictError"
    case UnprocessableEntity => "UnprocessableEntityError"
  }

  /** `new HttpError(status, message)`: both are kept as given. */
  function NewHttpError(status: int, message: string): (e: HttpError)
    ensures e.kind == Base && e.status == Some(status) && e.message == message
  {
    HttpError(Base, Some(status), message)
  }

  /**
   * `new XError(message?)` for a status subclass: the class's status, and
   * the given message or else the reason phrase.
   */
  function NewSubclassError(k: ErrorKind, message: Option<string>): (e: HttpError)
    requires IsStatusSubclass(k)
    ensures e.kind == k
    ensures e.status.Some? && KindOfStatus(e.status.value) == Some(k)
    ensures message.Some? ==> e.message == message.value
    ensures message.None? ==> e.message == ReasonPhrase(k)
  {
    HttpError(k, SubclassStatus(k), message.GetOr(ReasonPhrase(k)))
  }

  /** `new UnprocessableEntityError(message)`: a kind without a known status. */
  function NewUnprocessable(message: string): (e: HttpError)
    ensures e.kind == UnprocessableEntity && e.status.None? && e.message == message
  {
    HttpError(UnprocessableEntity, None, message)
  }

  function BadRequestError(message: string): HttpError {
    NewSubclassError(BadRequest, Some(message))
  }

  function ForbiddenError(message: string): HttpError {
    NewSubclassError(Forbidden, Some(message))
  }

  function NotFoundError(message: string): HttpError {
    NewSubclassError(NotFound, Some(message))
  }

  function ConflictError(message: string): HttpError {
    NewSubclassError(Conflict, Some(message))
  }
}
