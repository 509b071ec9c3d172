/** The exception taxonomy of the DB-API driver (PEP 249) and the backend
    error kinds that the cursor's `execute` translates into it. */
module DbapiErrors {

  /** The exception classes of the database client library that the cursor
      catches by name; every other backend failure is `OtherBackend`. */
  datatype BackendKind =
    | AlreadyExists
    | FailedPrecondition
    | InvalidArgument
    | InternalServerError
    | OtherBackend(code: int)

  /** A failure reported by the backend, with its `details` text. */
  datatype BackendError = BackendError(kind: BackendKind, details: string)

  /** An exception raised out of a driver operation. */
  datatype Exc =
    | InterfaceError(msg: string)
    | ProgrammingError(msg: string)
    | IntegrityError(msg: string)
    | OperationalError(msg: string)
    | Warning(msg: string)
    /** The base `Error` of the older autocommit connection. */
    | Error(msg: string)
    /** Python's own `TypeError` (wrong arity, iterating a non-iterable). */
    | TypeError(msg: string)
    /** A backend exception that nothing translated and that propagates as is. */
    | Backend(cause: BackendError)

  /** How an operation ended: normally, or by raising an exception. */
  datatype Status = Ok | Raised(exc: Exc)

  const CursorClosedMsg: string := "cursor is already closed"
  const ConnectionClosedMsg: string := "connection is already closed"
  const NotConnectedMsg: string := "Cursor is not connected to the database"
  const NoResultsMsg: string := "no results to return"
  const AutocommitOnlyMsg: string :=
    "Cloud Spanner DB API always works in `autocommit` mode."
    + "See https://github.com/googleapis/python-spanner-django#transaction-management-isnt-supported"
  const AlreadyClosedConnectionMsg: string := "attempting to use an already closed connection"

  /** A backend status as an operation outcome, before any translation. */
  function FromBackend(err: Option<BackendError>): (st: Status)
    ensures st == Ok <==> err == None
    ensures err.Some? ==> st == Raised(Backend(err.value))
  {
    match err
    case None => Ok
    case Some(e) => Raised(Backend(e))
  }

  /** The `except` clauses of `Cursor.execute`: the four named backend
      exceptions become DB-API errors carrying the backend's details; any
      other exception passes through unchanged. */
  function Translate(x: Exc): (y: Exc)
    ensures y.IntegrityError? <==>
      x.IntegrityError? || (x.Backend? && x.cause.kind in {AlreadyExists, FailedPrecondition})
    ensures y.ProgrammingError? <==>
      x.ProgrammingError? || (x.Backend? && x.cause.kind == InvalidArgument)
    ensures y.OperationalError? <==>
      x.OperationalError? || (x.Backend? && x.cause.kind == InternalServerError)
    ensures x.Backend? && !x.cause.kind.OtherBackend? ==> y.msg == x.cause.details
    ensures !x.Backend? || x.cause.kind.OtherBackend? ==> y == x
  {
    match x
    case Backend(BackendError(kind, details)) =>
      (match kind
       case AlreadyExists => IntegrityError(details)
       case FailedPrecondition => IntegrityError(details)
       case InvalidArgument => ProgrammingError(details)
       case InternalServerError => OperationalError(details)
       case OtherBackend(_) => x)
    case _ => x
  }

  /** `Translate` applied to the exception an operation raised, if any. */
  function TranslateStatus(st: Status): (r: Status)
    ensures r.Ok? <==> st.Ok?
    ensures st.Raised? ==> r == Raised(Translate(st.exc))
  {
    match st
    case Ok => Ok
    case Raised(x) => Raised(Translate(x))
  }

  /** Translation is idempotent: an exception already in the DB-API
      taxonomy is left alone, so translating twice is translating once. */
  lemma TranslateIdempotent(x: Exc)
    ensures Translate(Translate(x)) == Translate(x)
  {
  }

  datatype Option<+T> = None | Some(value: T)

  datatype Result<+T> = Success(value: T) | Failure(error: Exc)
}
