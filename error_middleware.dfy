/**
 * The application error type and the global error handler
 * (apps/server/src/middlewares/error.middleware.ts): an ordered chain that
 * turns any thrown error into one HTTP status and one error envelope.
 */
module ErrorMiddleware {
  import opened Wrappers
  import opened Envelope

  /** What distinguishes an `AppError` from any other thrown `Error`. */
  datatype Kind = Plain | App(statusCode: int, isOperational: bool)

  /** A thrown JavaScript `Error`: its `name`, its `message`, and whether it is an `AppError`. */
  datatype Failure = Failure(name: string, message: string, kind: Kind)

  const DefaultStatus: int := 500

  /**
   * `new AppError(message, statusCode?, isOperational?)`: an omitted status is
   * 500 and an omitted flag is true; the class keeps the inherited name "Error".
   */
  function NewAppError(message: string, statusCode: Option<int>, isOperational: Option<bool>): (e: Failure)
    ensures e.kind.App? && e.message == message && e.name == "Error"
    ensures statusCode.None? ==> e.kind.statusCode == 500
    ensures statusCode.Some? ==> e.kind.statusCode == statusCode.value
    ensures isOperational.None? ==> e.kind.isOperational
  {
    Failure("Error", message, App(statusCode.GetOr(DefaultStatus), isOperational.GetOr(true)))
  }

  /**
   * `new AppError(message, status)`, as the middlewares and controllers throw
   * it: named "Error", with that status, and operational.
   */
  function AppError(message: string, status: int): (e: Failure)
    ensures e.name == "Error" && e.message == message
    ensures e.kind == App(status, true)
  {
    NewAppError(message, Some(status), None)
  }

  /** The response of the default branch: the message is hidden in production. */
  function DefaultMessage(err: Failure, production: bool): string {
    if production then "Internal server error" else err.message
  }

  /**
   * `errorHandler(err)`: `AppError` first, then the error names
   * "ValidationError", "JsonWebTokenError", "TokenExpiredError", then 500.
   * `production` stands for `process.env.NODE_ENV === 'production'`.
   */
  function ErrorHandler<T>(err: Failure, production: bool): (r: HttpResponse<T>)
    ensures !r.body.success && r.body.data.None?
    ensures err.kind.App? ==>
      r.status == err.kind.statusCode && r.body.message == err.message
      && r.body.errors == Some([FieldError("general", err.message)])
    ensures err.kind.Plain? && err.name == "ValidationError" ==>
      r.status == 400 && r.body.message == "Validation error"
      && r.body.errors == Some([FieldError("validation", err.message)])
    ensures err.kind.Plain? && err.name == "JsonWebTokenError" ==>
      r.status == 401 && r.body.message == "Invalid token" && r.body.errors.None?
    ensures err.kind.Plain? && err.name == "TokenExpiredError" ==>
      r.status == 401 && r.body.message == "Token expired" && r.body.errors.None?
    ensures err.kind.Plain? && err.name !in {"ValidationError", "JsonWebTokenError", "TokenExpiredError"} ==>
      r.status == 500 && r.body.message == DefaultMessage(err, production) && r.body.errors.None?
  {
    if err.kind.App? then
      HttpResponse(err.kind.statusCode, Error(err.message, Some([FieldError("general", err.message)])))
    else if err.name == "ValidationError" then
      HttpResponse(400, Error("Validation error", Some([FieldError("validation", err.message)])))
    else if err.name == "JsonWebTokenError" then
      HttpResponse(401, Error("Invalid token", None))
    else if err.name == "TokenExpiredError" then
      HttpResponse(401, Error("Token expired", None))
    else
      HttpResponse(500, Error(DefaultMessage(err, production), None))
  }

  /**
   * The `AppError` test comes first: an `AppError`'s response depends on its
   * message and status only, never on its name or on the environment.
   */
  lemma AppErrorIgnoresName<T>(m: string, k: Kind, n1: string, n2: string, p1: bool, p2: bool)
    requires k.App?
    ensures ErrorHandler<T>(Failure(n1, m, k), p1) == ErrorHandler<T>(Failure(n2, m, k), p2)
  {
  }

  /**
   * A non-`AppError` is answered with 401 exactly when it is one of the two
   * token errors, and with 400 exactly when it is a validation error.
   */
  lemma PlainStatusClasses<T>(err: Failure, production: bool)
    requires err.kind.Plain?
    ensures ErrorHandler<T>(err, production).status in {400, 401, 500}
    ensures ErrorHandler<T>(err, production).status == 401 <==> err.name in {"JsonWebTokenError", "TokenExpiredError"}
    ensures ErrorHandler<T>(err, production).status == 400 <==> err.name == "ValidationError"
  {
  }

  /**
   * Whatever the environment, an `AppError(message, status)` reaches the
   * client with exactly that status and message, repeated as a "general" field error.
   */
  lemma AppErrorAnswered<T>(message: string, status: int, production: bool)
    ensures ErrorHandler<T>(AppError(message, status), production)
      == HttpResponse(status, Error(message, Some([FieldError("general", message)])))
  {
  }

  /** An `AppError` created without a status is answered with 500. */
  lemma DefaultAppErrorIs500<T>(message: string, production: bool)
    ensures ErrorHandler<T>(NewAppError(message, None, None), production).status == 500
    ensures ErrorHandler<T>(NewAppError(message, None, None), production).body.message == message
  {
  }

  /** `notFoundHandler(req)`: 404 naming the requested URL. */
  function NotFoundHandler<T>(originalUrl: string): (r: HttpResponse<T>)
    ensures r.status == 404 && !r.body.success && r.body.errors.None? && r.body.data.None?
    ensures r.body.message == "Route " + originalUrl + " not found"
  {
    HttpResponse(404, Error("Route " + originalUrl + " not found", None))
  }
}
