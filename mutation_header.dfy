/**
 * The anti-forgery gate: a state-changing request must carry the
 * `X-Requested-With: XMLHttpRequest` header, which a plain cross-site HTML
 * form cannot set. It runs before authentication.
 */
module MutationHeader {
  import opened ErrorHandler

  /** A request as the gate sees it. Header names are lower-case, as the HTTP server delivers them. */
  datatype Request = Request(httpMethod: string, headers: map<string, string>, cookies: map<string, string>)

  /** `next()` or a thrown error. */
  datatype Decision = Next | Throw(error: Thrown)

  const MutationMethods: seq<string> := ["POST", "PUT", "DELETE"]

  const HeaderName := "x-requested-with"

  const HeaderValue := "XMLHttpRequest"

  predicate HasRequiredHeader(req: Request) {
    HeaderName in req.headers && req.headers[HeaderName] == HeaderValue
  }

  /** `mutationHeaderMiddleware`. */
  function Gate(req: Request): (d: Decision)
    ensures d.Next? <==> req.httpMethod !in MutationMethods || HasRequiredHeader(req)
    ensures d.Throw? ==> Classify(d.error) == Response(400, "INVALID_REQUEST", "Missing required header")
  {
    if req.httpMethod in MutationMethods && !HasRequiredHeader(req) then
      Throw(AppError("Missing required header", 400, "INVALID_REQUEST"))
    else Next
  }

  /** The decision depends on the method and that one header alone: not on cookies, not on other headers. */
  lemma GateIgnoresEverythingElse(a: Request, b: Request)
    requires a.httpMethod == b.httpMethod
    requires (HeaderName in a.headers) == (HeaderName in b.headers)
    requires HeaderName in a.headers ==> a.headers[HeaderName] == b.headers[HeaderName]
    ensures Gate(a) == Gate(b)
  {
  }

  /** Every method other than POST, PUT and DELETE passes, PATCH included. */
  lemma OtherMethodsPass(req: Request)
    requires req.httpMethod in {"GET", "PATCH", "HEAD", "OPTIONS"}
    ensures Gate(req) == Next
  {
  }

  /** The comparison is exact: a lower-case value is refused. */
  lemma ValueIsCaseSensitive(cookies: map<string, string>)
    ensures Gate(Request("POST", map[HeaderName := "xmlhttprequest"], cookies)).Throw?
  {
    assert "xmlhttprequest" != HeaderValue by { assert "xmlhttprequest"[0] != HeaderValue[0]; }
  }
}
