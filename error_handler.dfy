/** The global error handler (`errorHandler`) and the not-found handler
    (`notFound`). The error handler is an ordered table of tests over the
    error's fields; the first test that holds answers. Two of its tests call
    `err.code.startsWith(...)`, which throws when `code` is truthy but not a
    string: the handler itself then fails, and the response is left to
    Express's fallback handler. */
module ErrorHandler {
  import opened JsValues
  import opened JsStrings

  /** One value of a validation error's `errors` object; only its
      `message` is read. */
  datatype FieldError = FieldError(message: Value)

  /** The fields of an error object the handler reads. `errors` lists
      `Object.values(err.errors)` in property order, and `keyValue` lists
      `Object.keys(err.keyValue)`; None stands for `undefined` or `null`,
      on which `Object.values` and `Object.keys` throw. */
  datatype ErrorRecord = ErrorRecord(
    name: Value,
    code: Value,
    message: Value,
    statusCode: Value,
    errors: Option<seq<FieldError>>,
    keyValue: Option<seq<string>>)

  /** What the handler does: answer with a status and the JSON body
      `{success: false, error, details?}`, or throw (HandlerFault). */
  datatype Response =
    | Respond(status: Value, error: Value, details: Option<seq<Value>>)
    | HandlerFault

  /** The rows of the table, in source order; Fault when a test throws. */
  datatype Row =
    | ValidationRow
    | AuthRow
    | FirestoreRow
    | CastRow
    | DuplicateKeyRow
    | JwtRow
    | ExpiredJwtRow
    | DefaultRow
    | Fault

  /** The messages for the Firebase Auth codes the handler knows. */
  const AuthErrors: map<string, string> := map[
    "auth/user-not-found" := "User not found",
    "auth/wrong-password" := "Invalid credentials",
    "auth/email-already-in-use" := "Email already registered",
    "auth/weak-password" := "Password is too weak",
    "auth/invalid-email" := "Invalid email format",
    "auth/id-token-expired" := "Session expired, please login again",
    "auth/id-token-revoked" := "Session revoked, please login again"]

  /** `new Error(message)`. */
  function NewError(message: string): ErrorRecord
  {
    ErrorRecord(Str("Error"), Undefined, Str(message), Undefined, None, None)
  }

  /** The result of `code && code.startsWith(prefix)` used as a test. */
  datatype Probe = Holds | Fails | Throws

  function CodeStartsWith(code: Value, prefix: string): (p: Probe)
    ensures p == Throws <==> Truthy(code) && !code.Str?
    ensures p == Holds <==> code.Str? && code.s != "" && StartsWith(code.s, prefix)
  {
    if !Truthy(code) then Fails
    else if code.Str? then (if StartsWith(code.s, prefix) then Holds else Fails)
    else Throws
  }

  /** Which row answers: the tests in source order. */
  function RowOf(err: ErrorRecord): (row: Row)
    ensures row == ValidationRow <==> err.name == Str("ValidationError")
    ensures row == Fault <==> err.name != Str("ValidationError") && Truthy(err.code) && !err.code.Str?
    ensures row != DuplicateKeyRow
  {
    if StrictEq(err.name, Str("ValidationError")) then ValidationRow
    else
      match CodeStartsWith(err.code, "auth/")
      case Throws => Fault
      case Holds => AuthRow
      case Fails =>
        match CodeStartsWith(err.code, "firestore/")
        case Throws => Fault
        case Holds => FirestoreRow
        case Fails =>
          if StrictEq(err.name, Str("CastError")) then CastRow
          else if StrictEq(err.code, Num(11000)) then DuplicateKeyRow
          else if StrictEq(err.name, Str("JsonWebTokenError")) then JwtRow
          else if StrictEq(err.name, Str("TokenExpiredError")) then ExpiredJwtRow
          else DefaultRow
  }

  /** `Object.values(err.errors).map(error => error.message)`. */
  function Messages(errs: seq<FieldError>): (details: seq<Value>)
    ensures |details| == |errs|
    ensures forall k :: 0 <= k < |errs| ==> details[k] == errs[k].message
  {
    if errs == [] then [] else [errs[0].message] + Messages(errs[1..])
  }

  /** `authErrors[err.code] || 'Authentication error'`. */
  function AuthMessage(code: string): (message: string)
    ensures message != ""
    ensures message in AuthErrors.Values || message == "Authentication error"
    ensures message == "Authentication error" <==> code !in AuthErrors
  {
    if code in AuthErrors then AuthErrors[code] else "Authentication error"
  }

  /** `` `${Object.keys(err.keyValue)[0]} already exists` ``. */
  function DuplicateMessage(keys: seq<string>): (message: string)
    ensures |message| >= |" already exists"|
    ensures message[|message| - |" already exists"|..] == " already exists"
    ensures |keys| > 0 ==> |message| == |keys[0]| + |" already exists"| && message[..|keys[0]|] == keys[0]
    ensures |keys| == 0 ==> message == "undefined already exists"
  {
    (if |keys| > 0 then keys[0] else "undefined") + " already exists"
  }

  /** `errorHandler(err, req, res, next)`. */
  function Classify(err: ErrorRecord): (r: Response)
    ensures r.Respond? ==> Truthy(r.status) && Truthy(r.error)
    ensures r.Respond? ==> (r.details.Some? <==> err.name == Str("ValidationError"))
    ensures r.Respond? && !Truthy(err.statusCode) ==> r.status in {Num(400), Num(401), Num(500)}
  {
    match RowOf(err)
    case ValidationRow =>
      (match err.errors
       case None => HandlerFault
       case Some(errs) => Respond(Num(400), Str("Validation Error"), Some(Messages(errs))))
    case AuthRow => Respond(Num(400), Str(AuthMessage(err.code.s)), None)
    case FirestoreRow => Respond(Num(500), Str("Database error"), None)
    case CastRow => Respond(Num(400), Str("Invalid resource ID"), None)
    case DuplicateKeyRow =>
      (match err.keyValue
       case None => HandlerFault
       case Some(keys) => Respond(Num(400), Str(DuplicateMessage(keys)), None))
    case JwtRow => Respond(Num(401), Str("Invalid token"), None)
    case ExpiredJwtRow => Respond(Num(401), Str("Token expired"), None)
    case DefaultRow => Respond(Or(err.statusCode, Num(500)), Or(err.message, Str("Server Error")), None)
    case Fault => HandlerFault
  }

  /** The two steps of `notFound`: the status it sets on the response, and
      the error it passes to `next`. */
  datatype NotFoundStep = NotFoundStep(status: int, err: ErrorRecord)

  function NotFound(originalUrl: string): (step: NotFoundStep)
    ensures step.status == 404
    ensures step.err.message == Str("Not found - " + originalUrl)
    ensures !Truthy(step.err.statusCode) && !Truthy(step.err.code)
  {
    NotFoundStep(404, NewError("Not found - " + originalUrl))
  }

  /** The response to a request no route matched: `notFound` followed by
      `errorHandler`, whose answer replaces the status `notFound` set. */
  function UnmatchedRoute(originalUrl: string): (r: Response)
    ensures r.Respond? && r.status == Num(500) && r.status != Num(NotFound(originalUrl).status)
    ensures r.error == NotFound(originalUrl).err.message
  {
    Classify(NotFound(originalUrl).err)
  }

  // ---------------------------------------------------------------------
  // The rows

  /** "ValidationError" wins over every other field: 400 "Validation
      Error", with the sub-errors' messages as details, in order. */
  lemma ValidationErrorWins(err: ErrorRecord)
    requires err.name == Str("ValidationError")
    ensures err.errors.Some? ==>
      && Classify(err).Respond?
      && Classify(err).status == Num(400)
      && Classify(err).error == Str("Validation Error")
      && Classify(err).details.Some?
      && |Classify(err).details.value| == |err.errors.value|
      && forall k :: 0 <= k < |err.errors.value| ==>
           Classify(err).details.value[k] == err.errors.value[k].message
    ensures err.errors.None? ==> Classify(err) == HandlerFault
  {
  }

  /** Any string code starting with "auth/" answers 400 (never 401), with
      the table's message or "Authentication error" for codes it does not
      list. */
  lemma AuthCodeIs400(err: ErrorRecord, code: string)
    requires err.name != Str("ValidationError")
    requires err.code == Str(code) && StartsWith(code, "auth/")
    ensures Classify(err) == Respond(Num(400), Str(AuthMessage(code)), None)
    ensures code in AuthErrors ==> AuthMessage(code) == AuthErrors[code]
    ensures code !in AuthErrors ==> AuthMessage(code) == "Authentication error"
  {
  }

  /** A string code starting with "firestore/" answers 500 "Database
      error". */
  lemma FirestoreCodeIs500(err: ErrorRecord, code: string)
    requires err.name != Str("ValidationError")
    requires err.code == Str(code) && StartsWith(code, "firestore/")
    ensures Classify(err) == Respond(Num(500), Str("Database error"), None)
  {
    assert code[0] == 'f';
  }

  /** A code that the two prefix tests pass over without throwing: falsy,
      or a string with neither prefix. */
  predicate PlainCode(code: Value)
  {
    !Truthy(code) || (code.Str? && !StartsWith(code.s, "auth/") && !StartsWith(code.s, "firestore/"))
  }

  /** With such a code, the named errors answer as their rows say. */
  lemma NamedErrors(err: ErrorRecord)
    requires PlainCode(err.code)
    ensures err.name == Str("CastError") ==>
      Classify(err) == Respond(Num(400), Str("Invalid resource ID"), None)
    ensures err.name == Str("JsonWebTokenError") ==>
      Classify(err) == Respond(Num(401), Str("Invalid token"), None)
    ensures err.name == Str("TokenExpiredError") ==>
      Classify(err) == Respond(Num(401), Str("Token expired"), None)
  {
  }

  /** Every other error answers with its own `statusCode` when truthy (else
      500) and its own `message` when truthy (else "Server Error"). */
  lemma DefaultRowAnswer(err: ErrorRecord)
    requires PlainCode(err.code)
    requires err.name !in {Str("ValidationError"), Str("CastError"), Str("JsonWebTokenError"), Str("TokenExpiredError")}
    ensures Classify(err) == Respond(
      if Truthy(err.statusCode) then err.statusCode else Num(500),
      if Truthy(err.message) then err.message else Str("Server Error"),
      None)
  {
  }

  /** A truthy code that is not a string (a number, `true`, an object)
      makes the first `startsWith` call throw, unless the error is a
      validation error. */
  lemma NonStringCodeFaults(err: ErrorRecord)
    requires err.name != Str("ValidationError")
    requires Truthy(err.code) && !err.code.Str?
    ensures Classify(err) == HandlerFault
  {
  }

  /** The duplicate-key row can never answer: `code === 11000` is a truthy
      number, which the earlier `startsWith` call has already thrown on. */
  lemma DuplicateKeyRowUnreachable(err: ErrorRecord)
    ensures RowOf(err) != DuplicateKeyRow
    ensures err.code == Num(11000) && err.name != Str("ValidationError") ==> Classify(err) == HandlerFault
  {
  }

  /** The handler throws exactly for a validation error without `errors`,
      and for a non-validation error whose code is truthy but not a string. */
  lemma FaultIff(err: ErrorRecord)
    ensures Classify(err) == HandlerFault <==>
      if err.name == Str("ValidationError") then err.errors.None?
      else Truthy(err.code) && !err.code.Str?
  {
  }

  /** An unmatched route answers 500, not 404: the error `notFound` builds
      has no `statusCode`, so the default row sets 500 over the 404. */
  lemma UnmatchedRouteIs500(originalUrl: string)
    ensures NotFound(originalUrl).status == 404
    ensures UnmatchedRoute(originalUrl) == Respond(Num(500), Str("Not found - " + originalUrl), None)
  {
  }
}
