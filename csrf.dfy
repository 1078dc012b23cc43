/**
 * The CSRF gate: safe methods and the login callback pass; every other request
 * needs a token in the x-csrf-token header or in the body's _csrf field. The
 * token's content is not checked. `downstream` is the error the next handler
 * throws synchronously, if it throws.
 */
module Csrf {
  import opened Wrappers
  import opened JsValues

  /** How a request leaves the gate: handed on, refused, or with the next handler's own error. */
  datatype CsrfResult = Passed | Forbidden(message: string) | Propagated(error: string)

  const ValidationFailed: string := "CSRF validation failed"

  /** HTTP methods (verbs) that change nothing and need no token. */
  predicate SafeMethod(verb: string) {
    verb in ["GET", "HEAD", "OPTIONS"]
  }

  /** The token: the header when it is a non-empty text, else body._csrf (undefined without an object body). */
  function Token(header: Option<string>, body: JsValue): (t: JsValue)
    ensures header.Some? && header.value != "" ==> t == Str(header.value)
    ensures header.None? || header.value == "" ==> t == Member(body, "_csrf")
  {
    if header.Some? && header.value != "" then Str(header.value) else Member(body, "_csrf")
  }

  /** The next handler's outcome outside the try block: its error escapes as it is. */
  function Next(downstream: Option<string>): (r: CsrfResult)
    ensures r.Passed? <==> downstream.None?
  {
    if downstream.Some? then Propagated(downstream.value) else Passed
  }

  /** CsrfProtectionMiddleware.use. */
  function Use(verb: string, path: string, header: Option<string>, body: JsValue, downstream: Option<string>): (r: CsrfResult)
    ensures r.Passed? <==> downstream.None? && (SafeMethod(verb) || path == "/auth/callback" || Truthy(Token(header, body)))
    ensures r.Forbidden? <==> !SafeMethod(verb) && path != "/auth/callback" && (!Truthy(Token(header, body)) || downstream.Some?)
    ensures r.Forbidden? ==> r.message == ValidationFailed
  {
    if SafeMethod(verb) then Next(downstream)
    else if path == "/auth/callback" then Next(downstream)
    else
      var token := Token(header, body);
      if !Truthy(token) then Forbidden(ValidationFailed)
      else if downstream.Some? then Forbidden(ValidationFailed)
      else Passed
  }

  /** A missing token surfaces as 'CSRF validation failed', not as the 'CSRF token required' raised inside the try. */
  lemma MissingTokenIsReportedAsValidationFailure(verb: string, path: string)
    requires !SafeMethod(verb) && path != "/auth/callback"
    ensures Use(verb, path, None, Undefined, None) == Forbidden(ValidationFailed)
  {
  }

  /** On a guarded request an error of the next handler is turned into the CSRF refusal too. */
  lemma DownstreamErrorsAreMasked(verb: string, path: string, token: string, error: string)
    requires !SafeMethod(verb) && path != "/auth/callback" && token != ""
    ensures Use(verb, path, Some(token), Undefined, Some(error)) == Forbidden(ValidationFailed)
    ensures Use("GET", path, Some(token), Undefined, Some(error)) == Propagated(error)
  {
  }

  /** generateCsrfToken: always the same placeholder text. */
  function GenerateCsrfToken(): (t: string)
    ensures t == "stub-token"
  {
    "stub-token"
  }

  /** The generated token, or any other non-empty text, opens the gate for every method and path. */
  lemma AnyTokenPasses(verb: string, path: string, token: string, body: JsValue)
    requires token != ""
    ensures Use(verb, path, Some(token), body, None) == Passed
    ensures Use(verb, path, Some(GenerateCsrfToken()), body, None) == Passed
  {
  }

  /** With no usable header the body's _csrf field decides: a truthy value of any type passes. */
  lemma BodyTokenIsTheFallback(verb: string, path: string, fields: map<string, JsValue>)
    requires !SafeMethod(verb) && path != "/auth/callback"
    requires "_csrf" in fields
    ensures Use(verb, path, Some(""), Obj(fields), None) == (if Truthy(fields["_csrf"]) then Passed else Forbidden(ValidationFailed))
  {
  }
}
