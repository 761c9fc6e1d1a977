/** The authentication middleware (Go `middleware.authMiddleware`). It checks
    two bearer headers, has each token validated, makes sure the ID token's
    subject has a user record and only then hands the request on. Token
    validation and the user lookup are collaborators given as functions. */
module Middleware {
  import opened Wrappers
  import opened Http

  const AuthorizationHeader := "Authorization"
  const IdTokenHeader := "X-Id-Token"
  const BearerPrefix := "Bearer "

  /** A validated JWT, reduced to its `sub` claim. */
  datatype Token = Token(sub: string)

  /** The auth use case, with the two calls the middleware makes. */
  datatype AuthUsecase = AuthUsecase(
    validateJWT: string -> Result<Token>,
    findOrCreateUserByID: string -> Outcome)

  /** The response, the tokens passed to the validator in order, the subject
      passed to `FindOrCreateUserByID` (if any), and the request passed to the
      wrapped handler (if it was reached). */
  datatype AuthTrace = AuthTrace(
    response: Response,
    validated: seq<string>,
    resolvedSubject: Option<string>,
    forwarded: Option<Request>)

  /** The token of a `Bearer ` header: `None` when the header is missing or
      lacks the prefix, otherwise the header with the prefix trimmed. */
  function BearerToken(headers: map<string, string>, name: string): (t: Option<string>)
    ensures t.Some? <==> name in headers && BearerPrefix <= headers[name]
    ensures t.Some? ==> headers[name] == BearerPrefix + t.value
  {
    if name in headers && BearerPrefix <= headers[name]
    then Some(headers[name][|BearerPrefix|..])
    else None
  }

  /** Prefixing a token with `Bearer ` and trimming it again gives the token back. */
  lemma BearerTokenRoundTrip(headers: map<string, string>, name: string, token: string)
    ensures BearerToken(headers[name := BearerPrefix + token], name) == Some(token)
  {
  }

  function UnauthorizedResponse(message: string): (r: Response)
    ensures r.status == 401 && r.body == message && r.headers == map[]
  {
    Plain(401, message)
  }

  /** The handler that `AuthMiddleware(next)` returns, applied to `req`. */
  function AuthMiddleware(auth: AuthUsecase, next: Request -> Response, req: Request): (r: AuthTrace)
    ensures var access := BearerToken(req.headers, AuthorizationHeader);
      access.None? ==>
        r == AuthTrace(UnauthorizedResponse("Missing or invalid Authorization header"), [], None, None)
    ensures var access := BearerToken(req.headers, AuthorizationHeader);
      access.Some? ==> |r.validated| >= 1 && r.validated[0] == access.value
    ensures var access := BearerToken(req.headers, AuthorizationHeader);
      access.Some? && auth.validateJWT(access.value).Err? ==>
        r == AuthTrace(UnauthorizedResponse(auth.validateJWT(access.value).error.message), [access.value], None, None)
    ensures var access, id := BearerToken(req.headers, AuthorizationHeader), BearerToken(req.headers, IdTokenHeader);
      access.Some? && auth.validateJWT(access.value).Ok? && id.None? ==>
        r == AuthTrace(UnauthorizedResponse("Missing or invalid ID token header"), [access.value], None, None)
    ensures var access, id := BearerToken(req.headers, AuthorizationHeader), BearerToken(req.headers, IdTokenHeader);
      access.Some? && auth.validateJWT(access.value).Ok? && id.Some? ==>
        && r.validated == [access.value, id.value]
        && (auth.validateJWT(id.value).Err? ==>
              r == AuthTrace(UnauthorizedResponse(auth.validateJWT(id.value).error.message), r.validated, None, None))
        && (auth.validateJWT(id.value).Ok? ==> r.resolvedSubject == Some(auth.validateJWT(id.value).value.sub))
    ensures r.resolvedSubject.Some? && auth.findOrCreateUserByID(r.resolvedSubject.value).Fail? ==>
      r.response == Plain(500, auth.findOrCreateUserByID(r.resolvedSubject.value).error.message) && r.forwarded.None?
    ensures r.forwarded.Some? <==> r.resolvedSubject.Some? && auth.findOrCreateUserByID(r.resolvedSubject.value).Pass?
    ensures r.forwarded.Some? ==> r.forwarded.value == req && r.response == next(req)
  {
    match BearerToken(req.headers, AuthorizationHeader)
    case None => AuthTrace(UnauthorizedResponse("Missing or invalid Authorization header"), [], None, None)
    case Some(accessToken) =>
      match auth.validateJWT(accessToken)
      case Err(e) => AuthTrace(UnauthorizedResponse(e.message), [accessToken], None, None)
      case Ok(_) =>
        match BearerToken(req.headers, IdTokenHeader)
        case None => AuthTrace(UnauthorizedResponse("Missing or invalid ID token header"), [accessToken], None, None)
        case Some(idToken) =>
          var validated := [accessToken, idToken];
          match auth.validateJWT(idToken)
          case Err(e) => AuthTrace(UnauthorizedResponse(e.message), validated, None, None)
          case Ok(jwtData) =>
            var sub := jwtData.sub;
            match auth.findOrCreateUserByID(sub)
            case Fail(e) => AuthTrace(Plain(500, e.message), validated, Some(sub), None)
            case Pass => AuthTrace(next(req), validated, Some(sub), Some(req))
  }

  /** Every refusal is a 401 or, when the user record could not be resolved, a
      500; the wrapped handler is reached only with both tokens validated. */
  lemma RefusalsAreUnauthorized(auth: AuthUsecase, next: Request -> Response, req: Request)
    ensures var r := AuthMiddleware(auth, next, req);
      r.forwarded.None? ==> r.response.status == 401 || (r.response.status == 500 && r.resolvedSubject.Some?)
    ensures var r := AuthMiddleware(auth, next, req);
      r.forwarded.Some? ==>
        && |r.validated| == 2
        && r.validated[0] == BearerToken(req.headers, AuthorizationHeader).value
        && r.validated[1] == BearerToken(req.headers, IdTokenHeader).value
        && auth.validateJWT(r.validated[0]).Ok? && auth.validateJWT(r.validated[1]).Ok?
  {
  }
}
