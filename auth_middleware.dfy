/**
 * The guard in front of the history route: the session headers must name
 * the path's session and carry its signature; when authentication is
 * required, an `Authorization: Bearer <token>` header (section 2.1 of
 * RFC 6750) must carry an ID token that verifies.
 */
module AuthMiddleware {
  import opened Wrappers
  import opened JsStrings
  import opened Security
  import opened Auth

  /** The request headers the guard reads; `None` when absent. */
  datatype Headers = Headers(sessionToken: Option<string>, sessionIdHeader: Option<string>, authorization: Option<string>)

  /** `next()`, or one 401 response with its error text. */
  datatype Verdict = Next | Unauthorized(error: string)

  /** The session check of the guard: both headers present and non-empty, the id equal to the path's, the token its signature. */
  predicate SessionHeadersOk(hmac: Hmac, secret: string, pathId: string, h: Headers) {
    && Truthy(h.sessionToken) && Truthy(h.sessionIdHeader)
    && h.sessionIdHeader.value == pathId
    && VerifySessionSignature(hmac, secret, pathId, h.sessionToken)
  }

  /** `auth.split(' ')` must give "Bearer" then a non-empty second piece, which is the token. */
  function BearerToken(authorization: string): (t: Option<string>)
    ensures t.Some? ==> t.value != "" && ' ' !in t.value
  {
    var parts := Split(authorization, ' ');
    if parts[0] == "Bearer" && |parts| > 1 && parts[1] != "" then Some(parts[1]) else None
  }

  /** The header a client builds from a token is read back as that token. */
  lemma BearerRoundTrip(token: string)
    requires token != "" && ' ' !in token
    ensures BearerToken("Bearer " + token) == Some(token)
  {
    assert "Bearer " + token == "Bearer" + [' '] + token;
    SplitAtFirst("Bearer", ' ', token);
    SplitWithoutSeparator(token, ' ');
  }

  /** Anything after a second space is ignored. */
  lemma BearerIgnoresTrailer(token: string, trailer: string)
    requires token != "" && ' ' !in token
    ensures BearerToken("Bearer " + token + " " + trailer) == Some(token)
  {
    assert "Bearer " + token + " " + trailer == "Bearer" + [' '] + (token + [' '] + trailer);
    SplitAtFirst("Bearer", ' ', token + [' '] + trailer);
    SplitAtFirst(token, ' ', trailer);
  }

  /** The scheme is matched case-sensitively, and two spaces leave an empty token: both are refused. */
  lemma BearerStrictness(token: string)
    requires token != "" && ' ' !in token
    ensures BearerToken("bearer " + token) == None
    ensures BearerToken("Bearer  " + token) == None
  {
    assert "bearer " + token == "bearer" + [' '] + token;
    SplitAtFirst("bearer", ' ', token);
    assert "Bearer  " + token == "Bearer" + [' '] + ([' '] + token);
    SplitAtFirst("Bearer", ' ', [' '] + token);
    assert [' '] + token == "" + [' '] + token;
    SplitAtFirst("", ' ', token);
  }

  /**
   * `validateSession`: the session check first ("Invalid or missing session
   * token"), then, only when authentication is required, the Bearer header
   * ("Missing Authorization") and the ID token ("Invalid token").  `next()`
   * is called exactly when every check passes.
   */
  function ValidateSession(hmac: Hmac, secret: string, requireAuth: bool, verify: IdTokenVerifier,
                           pathId: string, h: Headers): (v: Verdict)
    ensures v.Next? <==>
      SessionHeadersOk(hmac, secret, pathId, h)
      && (requireAuth ==>
            var bearer := BearerToken(h.authorization.GetOr(""));
            bearer.Some? && VerifyIdToken(verify, bearer.value).Some?)
    ensures v == Unauthorized("Invalid or missing session token") <==> !SessionHeadersOk(hmac, secret, pathId, h)
    ensures v == Unauthorized("Missing Authorization") <==>
      SessionHeadersOk(hmac, secret, pathId, h) && requireAuth && BearerToken(h.authorization.GetOr("")).None?
    ensures v == Unauthorized("Invalid token") <==>
      SessionHeadersOk(hmac, secret, pathId, h) && requireAuth
      && var bearer := BearerToken(h.authorization.GetOr(""));
         bearer.Some? && VerifyIdToken(verify, bearer.value).None?
    ensures v.Unauthorized? ==>
      v.error in {"Invalid or missing session token", "Missing Authorization", "Invalid token"}
  {
    if !SessionHeadersOk(hmac, secret, pathId, h) then Unauthorized("Invalid or missing session token")
    else if requireAuth then
      match BearerToken(h.authorization.GetOr(""))
      case None => Unauthorized("Missing Authorization")
      case Some(t) => if VerifyIdToken(verify, t).None? then Unauthorized("Invalid token") else Next
    else Next
  }

  /** The verdict depends on the Authorization header only when authentication is required. */
  lemma AuthorizationIgnoredWhenNotRequired(hmac: Hmac, secret: string, verify: IdTokenVerifier,
                                            pathId: string, h: Headers, other: Option<string>)
    ensures ValidateSession(hmac, secret, false, verify, pathId, h)
         == ValidateSession(hmac, secret, false, verify, pathId, h.(authorization := other))
  {
  }

  /** A token signed for the header's id does not open a different path id. */
  lemma MismatchedIdRefused(hmac: Hmac, secret: string, requireAuth: bool, verify: IdTokenVerifier,
                            pathId: string, headerId: string, authorization: Option<string>)
    requires headerId != pathId
    ensures ValidateSession(hmac, secret, requireAuth, verify, pathId,
              Headers(Some(SignSession(hmac, secret, headerId)), Some(headerId), authorization))
         == Unauthorized("Invalid or missing session token")
  {
  }

  /** The headers a client built from its session frame pass the session check. */
  lemma IssuedHeadersAccepted(hmac: Hmac, secret: string, verify: IdTokenVerifier, pathId: string, authorization: Option<string>)
    requires secret != "" && pathId != ""
    ensures ValidateSession(hmac, secret, false, verify, pathId,
              Headers(Some(SignSession(hmac, secret, pathId)), Some(pathId), authorization)) == Next
  {
    SignThenVerify(hmac, secret, pathId);
  }
}
