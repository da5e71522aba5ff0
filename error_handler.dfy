// The Express error middleware: every error that a controller throws is
// classified once, by the first matching branch of a fixed chain (Zod
// validation error, known Prisma request error, operational error built by
// `createError`, then a handful of error names), into a status code, a message
// and optional details, and is sent back as `{ error, details?, stack? }`.

module ErrorHandling {

  import opened Wrappers
  import opened Validation
  import Text

  /** What distinguishes the thrown values the chain tests for. */
  datatype Kind =
    | ZodFailure(issues: seq<Issue>)                          // `instanceof ZodError`
    | PrismaKnown(code: string, target: Option<seq<string>>)  // `instanceof PrismaClientKnownRequestError`
    | Plain(statusCode: Option<int>, isOperational: bool)     // any other `Error`, maybe an `AppError`

  /** A thrown error: its kind, `name` and `message`. */
  datatype Failure = Failure(kind: Kind, name: string, message: string)

  /** One entry of the details of a validation error response. */
  datatype FieldError = FieldError(field: string, message: string)

  /** The `details` variable of the handler: unset, a list, or a string. */
  datatype Details = NoDetails | Fields(items: seq<FieldError>) | Note(text: string)

  /** The JSON body sent back; an absent `details` key is `None`, and `hasStack` says
      whether the error's stack trace is attached. */
  datatype ErrorBody = ErrorBody(error: string, details: Option<Details>, hasStack: bool)

  datatype ErrorResponse = ErrorResponse(status: int, body: ErrorBody)

  /** The status, message and details that the classification chain settles on. */
  datatype Classified = Classified(status: int, message: string, details: Details)

  const GenericStatus := 500
  const GenericMessage := "Internal server error"

  /** `createError(message, statusCode = 500)`: an operational error that keeps its own
      message and status code. */
  function CreateError(message: string, statusCode: Option<int>): (e: Failure)
    ensures e.kind.Plain? && e.kind.isOperational
    ensures e.kind.statusCode == Some(if statusCode.Some? then statusCode.value else 500)
    ensures e.message == message
  {
    Failure(Plain(Some(match statusCode case Some(c) => c case None => 500), true), "Error", message)
  }

  /** One path element as `Array.prototype.join` renders it. */
  function PathKeyText(k: PathKey): string
  {
    match k
    case Key(name) => name
    case Index(pos) => Text.NatToString(pos)
  }

  function PathTexts(path: seq<PathKey>): (r: seq<string>)
    ensures |r| == |path|
    ensures forall i :: 0 <= i < |path| ==> r[i] == PathKeyText(path[i])
  {
    if path == [] then [] else [PathKeyText(path[0])] + PathTexts(path[1..])
  }

  /** `{ field: err.path.join('.'), message: err.message }`. */
  function ToFieldError(issue: Issue): FieldError
  {
    FieldError(Text.Join(PathTexts(issue.path), "."), issue.message)
  }

  /** `error.errors.map(...)`: one entry per issue, in the same order. */
  function FieldErrors(issues: seq<Issue>): (r: seq<FieldError>)
    ensures |r| == |issues|
    ensures forall i :: 0 <= i < |issues| ==> r[i] == ToFieldError(issues[i])
  {
    if issues == [] then [] else [ToFieldError(issues[0])] + FieldErrors(issues[1..])
  }

  /** The constraint fields of a P2002 error, falling back to `field` when
      `meta.target` is missing or joins to the empty string. */
  function UniqueField(target: Option<seq<string>>): string
  {
    match target
    case None => "field"
    case Some(fields) => var joined := Text.Join(fields, ", "); if joined == "" then "field" else joined
  }

  /** The branch chain of the handler: the first matching branch sets status,
      message and details. */
  function Classify(e: Failure, development: bool): Classified
  {
    match e.kind
    case ZodFailure(issues) =>
      Classified(400, "Validation error", Fields(FieldErrors(issues)))
    case PrismaKnown(code, target) =>
      if code == "P2002" then Classified(409, "Unique constraint violation", Note(UniqueField(target) + " already exists"))
      else if code == "P2025" then Classified(404, "Record not found", NoDetails)
      else if code == "P2003" then Classified(400, "Foreign key constraint violation", NoDetails)
      else Classified(500, "Database error", if development then Note(e.message) else NoDetails)
    case Plain(statusCode, isOperational) =>
      if isOperational then
        Classified(if statusCode.None? || statusCode.value == 0 then 500 else statusCode.value, e.message, NoDetails)
      else if e.name == "ValidationError" then Classified(400, "Validation error", Note(e.message))
      else if e.name == "JsonWebTokenError" then Classified(401, "Invalid token", NoDetails)
      else if e.name == "TokenExpiredError" then Classified(401, "Token expired", NoDetails)
      else if e.name == "MulterError" then Classified(400, "File upload error", Note(e.message))
      else Classified(GenericStatus, GenericMessage, NoDetails)
  }

  /** JavaScript truthiness of the `details` variable: an array is always truthy,
      a string only when it is not empty. */
  predicate Truthy(d: Details)
  {
    match d
    case NoDetails => false
    case Fields(_) => true
    case Note(text) => text != ""
  }

  /** The response the middleware sends for a thrown error. */
  function HandleError(e: Failure, development: bool): (r: ErrorResponse)
    ensures r.body.hasStack == development
    ensures r.body.details.Some? ==> Truthy(r.body.details.value)
    ensures r.status in {400, 401, 404, 409, 500} || (e.kind.Plain? && e.kind.isOperational)
  {
    var c := Classify(e, development);
    ErrorResponse(c.status, ErrorBody(c.message, if Truthy(c.details) then Some(c.details) else None,
                                      development))
  }

  /** A Zod error becomes 400 "Validation error" with one `{ field, message }` detail per
      issue, in order, the field being the issue's path joined by dots. */
  lemma ZodErrorResponse(e: Failure, development: bool)
    requires e.kind.ZodFailure?
    ensures var r := HandleError(e, development);
            && r.status == 400 && r.body.error == "Validation error"
            && r.body.details.Some? && r.body.details.value.Fields?
            && |r.body.details.value.items| == |e.kind.issues|
            && forall i :: 0 <= i < |e.kind.issues| ==>
                 r.body.details.value.items[i]
                 == FieldError(Text.Join(PathTexts(e.kind.issues[i].path), "."), e.kind.issues[i].message)
  {
  }

  /** P2002 becomes 409 with "<targets> already exists", and the fallback name "field"
      is used exactly when there is no target or the targets join to nothing. */
  lemma UniqueViolationResponse(e: Failure, development: bool)
    requires e.kind.PrismaKnown? && e.kind.code == "P2002"
    ensures var r := HandleError(e, development);
            && r.status == 409 && r.body.error == "Unique constraint violation"
            && r.body.details == Some(Note(UniqueField(e.kind.target) + " already exists"))
    ensures UniqueField(e.kind.target)
            == if e.kind.target.None? || e.kind.target.value in {[], [""]} then "field"
               else Text.Join(e.kind.target.value, ", ")
  {
    if e.kind.target.Some? {
      var t := e.kind.target.value;
      Text.JoinEmpty(t, ", ");
      if |t| == 1 && t[0] == "" {
        assert t == [""];
      }
    }
  }

  /** The other Prisma codes: P2025 is 404, P2003 is 400, and any other code is a
      500 "Database error" whose message is disclosed only in development. */
  lemma PrismaErrorResponse(e: Failure, development: bool)
    requires e.kind.PrismaKnown? && e.kind.code != "P2002"
    ensures var r := HandleError(e, development);
            && (e.kind.code == "P2025" ==> r.status == 404 && r.body.error == "Record not found" && r.body.details.None?)
            && (e.kind.code == "P2003" ==> r.status == 400 && r.body.error == "Foreign key constraint violation"
                                           && r.body.details.None?)
            && (e.kind.code !in {"P2025", "P2003"} ==>
                  r.status == 500 && r.body.error == "Database error"
                  && (r.body.details.Some? <==> development && e.message != ""))
  {
  }

  /** An error built by `createError` keeps its own message and status code
      (500 when none, or a falsy 0, is given) and carries no details. */
  lemma OperationalErrorResponse(message: string, statusCode: Option<int>, development: bool)
    ensures var r := HandleError(CreateError(message, statusCode), development);
            && r.body.error == message && r.body.details.None?
            && r.status == (if statusCode.None? || statusCode.value == 0 then 500 else statusCode.value)
  {
  }

  /** The name checks apply only to non-operational errors: token errors are 401,
      validation and upload errors 400, anything unrecognised a generic 500. */
  lemma NamedErrorResponse(e: Failure, development: bool)
    requires e.kind.Plain? && !e.kind.isOperational
    ensures var r := HandleError(e, development);
            && (e.name == "JsonWebTokenError" ==> r.status == 401 && r.body.error == "Invalid token")
            && (e.name == "TokenExpiredError" ==> r.status == 401 && r.body.error == "Token expired")
            && (e.name == "ValidationError" ==> r.status == 400 && r.body.error == "Validation error")
            && (e.name == "MulterError" ==> r.status == 400 && r.body.error == "File upload error")
            && (e.name !in {"JsonWebTokenError", "TokenExpiredError", "ValidationError", "MulterError"} ==>
                  r.status == 500 && r.body.error == "Internal server error" && r.body.details.None?)
  {
  }

  /** The chain is ordered: an operational error is classified by its own status code
      even when its name is one the later branches test for. */
  lemma OperationalBeforeNames(e: Failure, development: bool)
    requires e.kind.Plain? && e.kind.isOperational
    ensures var r := HandleError(e, development);
            r.body.error == e.message && r.status == (if e.kind.statusCode.None? || e.kind.statusCode.value == 0
                                                      then 500 else e.kind.statusCode.value)
  {
  }

  /** The errors whose message the response may repeat: operational errors, and the
      `ValidationError` and `MulterError` names, whose message is the detail. */
  predicate MessageShown(e: Failure)
  {
    (e.kind.Plain? && (e.kind.isOperational || e.name in {"ValidationError", "MulterError"}))
  }

  /** Outside development no other error discloses its message: two errors that differ
      only in their message get the same response, whatever branch they take. */
  lemma ProductionHidesMessages(e: Failure, message: string)
    requires !MessageShown(e)
    ensures HandleError(e, false) == HandleError(Failure(e.kind, e.name, message), false)
  {
  }
}
