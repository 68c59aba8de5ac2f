/**
 * The error classification at the end of the middleware chain and the
 * `AppError` class the routes throw.
 */
module ErrorHandler {
  import opened Wrappers

  /**
   * A thrown value, as far as the handler looks at it: `name`, the
   * validation library's `errors` list (only its messages), `message`,
   * `statusCode` and `code`. An absent or falsy `statusCode` is 0, an absent
   * or empty `code` is "".
   */
  datatype Thrown = Thrown(name: string, issues: seq<string>, message: string, statusCode: int, code: string)

  /** The JSON error response: HTTP status, `error.code` and `error.message`. */
  datatype Response = Response(status: int, code: string, message: string)

  /** `new AppError(message, statusCode = 400, code = 'ERROR')`; it keeps the name "Error" of its base class. */
  function NewAppError(message: string, statusCode: Option<int>, code: Option<string>): (e: Thrown)
    ensures e.name == "Error" && e.message == message && e.issues == []
    ensures e.statusCode == (if statusCode.Some? then statusCode.value else 400)
    ensures e.code == (if code.Some? then code.value else "ERROR")
  {
    Thrown("Error", [], message, statusCode.GetOr(400), code.GetOr("ERROR"))
  }

  /**
   * `new AppError(message, statusCode, code)` with both given, as every route
   * does: the handler answers with that status, code and message.
   */
  function AppError(message: string, statusCode: int, code: string): (e: Thrown)
    ensures statusCode != 0 ==> Classify(e) == Response(statusCode, if code != "" then code else "ERROR", message)
  {
    NewAppError(message, Some(statusCode), Some(code))
  }

  /** What the validation library throws: name "ZodError" and its list of issues. */
  function ValidationError(issues: seq<string>): Thrown {
    Thrown("ZodError", issues, "", 0, "")
  }

  /** What the database driver throws (a constraint failure, say): no status code. */
  function StoreError(message: string): Thrown {
    Thrown("SqliteError", [], message, 0, "")
  }

  /** `errorHandler`: validation errors first, then anything with a status code, then the generic server error. */
  function Classify(err: Thrown): (r: Response)
    ensures err.name == "ZodError" ==> r.status == 400 && r.code == "VALIDATION_ERROR"
    ensures err.name == "ZodError" ==>
      r.message == if |err.issues| > 0 && err.issues[0] != "" then err.issues[0] else "Validation failed"
    ensures err.name != "ZodError" && err.statusCode != 0 ==>
      r == Response(err.statusCode, if err.code != "" then err.code else "ERROR", err.message)
    ensures err.name != "ZodError" && err.statusCode == 0 ==>
      r == Response(500, "SERVER_ERROR", "Internal server error")
  {
    if err.name == "ZodError" then
      Response(400, "VALIDATION_ERROR", if |err.issues| > 0 && err.issues[0] != "" then err.issues[0] else "Validation failed")
    else if err.statusCode != 0 then
      Response(err.statusCode, if err.code != "" then err.code else "ERROR", err.message)
    else
      Response(500, "SERVER_ERROR", "Internal server error")
  }

  /** An `AppError` built with defaults answers 400 with code ERROR and its own message. */
  lemma AppErrorDefaults(message: string)
    ensures Classify(NewAppError(message, None, None)) == Response(400, "ERROR", message)
  {
  }

  /** An error without a status code never shows its message: two such errors answer alike. */
  lemma ServerErrorHidesMessage(a: Thrown, b: Thrown)
    requires a.name != "ZodError" && b.name != "ZodError" && a.statusCode == 0 && b.statusCode == 0
    ensures Classify(a) == Classify(b)
    ensures Classify(a).message == "Internal server error"
  {
  }

  /** The name test wins over a status code. */
  lemma ValidationBeforeStatus(issues: seq<string>, message: string, statusCode: int, code: string)
    ensures Classify(Thrown("ZodError", issues, message, statusCode, code)).status == 400
  {
  }
}
