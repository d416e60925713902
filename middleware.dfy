/**
 * The admin API gate: which requests reach the API handlers, and which are
 * answered with 401 or 403 before they do.
 */
module AdminGate {
  import opened Wrappers
  import opened Text
  import opened Sessions
  import opened Base64Url

  /** The gate either lets the request through or answers it with an error body. */
  datatype Outcome = Next | Reject(status: int, code: string, message: string)

  const Unauthorized := Reject(401, "unauthorized", "Unauthorized")
  const Forbidden := Reject(403, "forbidden", "Forbidden")

  /** The API paths open without a session, matched exactly. */
  const PublicPaths: set<string> := {"/api/auth/login", "/api/health"}

  /** An API path that needs an administrator's session for this method. */
  predicate Protected(pathname: string, requestMethod: string)
  {
    StartsWith(pathname, "/api/") && pathname !in PublicPaths && requestMethod != "OPTIONS"
  }

  /** A session whose user carries the role "admin". */
  predicate IsAdmin(session: SessionData)
  {
    session.user.Some? && session.user.value.role == Some("admin")
  }

  /**
   * The decision for a request: the session cookie is only read for a
   * protected path, and the result depends on the session it holds.
   */
  function Gate(pathname: string, requestMethod: string, cookie: Option<string>,
                nowMs: int, secret: Option<string>, open: Opener): (o: Outcome)
    ensures o.Reject? ==> Protected(pathname, requestMethod)
    ensures o == Unauthorized <==>
              Protected(pathname, requestMethod) && GetSessionFromCookieValue(cookie, nowMs, secret, open).None?
    ensures o == Forbidden <==>
              Protected(pathname, requestMethod) && GetSessionFromCookieValue(cookie, nowMs, secret, open).Some?
              && !IsAdmin(GetSessionFromCookieValue(cookie, nowMs, secret, open).value)
    ensures o == Next || o == Unauthorized || o == Forbidden
  {
    if !StartsWith(pathname, "/api/") then Next
    else if pathname in PublicPaths then Next
    else if requestMethod == "OPTIONS" then Next
    else
      var session := GetSessionFromCookieValue(cookie, nowMs, secret, open);
      if session.None? then Unauthorized
      else if !IsAdmin(session.value) then Forbidden
      else Next
  }

  // ---------------------------------------------------------------------
  // Properties
  // ---------------------------------------------------------------------

  /** A request passes exactly when its path is not protected or it carries a live administrator's session. */
  lemma PassesIffUnprotectedOrAdmin(pathname: string, requestMethod: string, cookie: Option<string>,
                                    nowMs: int, secret: Option<string>, open: Opener)
    ensures var session := GetSessionFromCookieValue(cookie, nowMs, secret, open);
      Gate(pathname, requestMethod, cookie, nowMs, secret, open) == Next <==>
        !Protected(pathname, requestMethod) || (session.Some? && IsAdmin(session.value))
  {
  }

  /** "/api" itself, and any path outside "/api/", passes whatever the cookie. */
  lemma OutsideApiPasses(pathname: string, requestMethod: string, cookie: Option<string>,
                         nowMs: int, secret: Option<string>, open: Opener)
    requires !StartsWith(pathname, "/api/")
    ensures Gate(pathname, requestMethod, cookie, nowMs, secret, open) == Next
  {
  }

  /** The login route passes without a cookie, so that a session can be obtained at all. */
  lemma LoginReachableWithoutSession(requestMethod: string, nowMs: int, secret: Option<string>, open: Opener)
    ensures Gate("/api/auth/login", requestMethod, None, nowMs, secret, open) == Next
  {
  }

  /** Only an exact public path is open: a path below the health route needs a session. */
  lemma PublicPathsMatchExactly(nowMs: int, secret: Option<string>, open: Opener)
    ensures Gate("/api/health/x", "GET", None, nowMs, secret, open) == Unauthorized
  {
    assert StartsWith("/api/health/x", "/api/");
  }

  /** A sealed token for a live administrator's session opens every API path. */
  lemma SealedAdminSessionPasses(pathname: string, requestMethod: string, iv: seq<Byte>, ciphertext: seq<Byte>,
                                 nowMs: int, secret: Option<string>, open: Opener)
    requires |iv| > 0 && |ciphertext| > 0 && HasSecret(secret)
    requires open(secret.value, iv, ciphertext).Some?
    requires IsAdmin(open(secret.value, iv, ciphertext).value)
    requires !Expired(open(secret.value, iv, ciphertext).value, nowMs)
    ensures Gate(pathname, requestMethod, Some(SealedToken(iv, ciphertext)), nowMs, secret, open) == Next
  {
    DecryptSealed(iv, ciphertext, secret, open);
    assert SealedToken(iv, ciphertext) != "" by {
      assert SealedToken(iv, ciphertext)[|Base64UrlEncode(iv)|] == '.';
    }
  }
}
