/**
 * The identity-provider side of authentication as the core sees it: an ID
 * token is verified by an oracle (a remote JWKS check) that yields the
 * token's claims or fails, and the connection derives a display identity
 * from those claims.
 */
module Auth {
  import opened Wrappers

  /** The claims the core reads; `None` and "" are both falsy. */
  datatype Claims = Claims(email: Option<string>, username: Option<string>, sub: string)

  /** Signature verification of an ID token against the identity provider's keys. */
  type IdTokenVerifier = string -> Option<Claims>

  /** The identity of an unauthenticated connection. */
  const ANONYMOUS: string := "anonymous@system.local"

  /** `verifyCognitoIdToken`: a missing or empty token fails before any key lookup. */
  function VerifyIdToken(verify: IdTokenVerifier, idToken: string): (r: Option<Claims>)
    ensures idToken == "" ==> r == None
    ensures idToken != "" ==> r == verify(idToken)
  {
    if idToken == "" then None else verify(idToken)
  }

  function Truthy(s: Option<string>): bool {
    s.Some? && s.value != ""
  }

  /** `payload.email || payload['cognito:username'] || payload.sub`. */
  function UserEmailOf(c: Claims): (who: string)
    ensures Truthy(c.email) ==> who == c.email.value
    ensures !Truthy(c.email) && Truthy(c.username) ==> who == c.username.value
    ensures !Truthy(c.email) && !Truthy(c.username) ==> who == c.sub
  {
    if Truthy(c.email) then c.email.value
    else if Truthy(c.username) then c.username.value
    else c.sub
  }
}
