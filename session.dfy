/**
 * The admin session cookie: a token made of two base64url fields, the
 * initialisation vector and the AES-GCM ciphertext of the session, joined by
 * a '.'; reading it back, checking its expiry, and the cookie lifetime.
 */
module Sessions {
  import opened Wrappers
  import opened Text
  import opened Base64Url

  /** The name of the cookie holding the token. */
  const SessionCookieName := "admin_session"

  /** The signed-in user; a missing or null e-mail or role is None. */
  datatype SessionUser = SessionUser(id: string, email: Option<string>, role: Option<string>)

  /**
   * A decrypted session. `expiresAt` is in seconds since the epoch, and 0
   * stands for an absent expiry. The user is optional because the parsed
   * payload is not checked against the type.
   */
  datatype SessionData = SessionData(accessToken: string, refreshToken: string, expiresAt: int, user: Option<SessionUser>)

  /**
   * The decryption that happens behind the key derived from the secret: AES-GCM
   * over the initialisation vector and ciphertext, then UTF-8 and JSON decoding;
   * None for any failure.
   */
  type Opener = (string, seq<Byte>, seq<Byte>) -> Option<SessionData>

  /** A configured secret: present and not empty. */
  predicate HasSecret(secret: Option<string>)
  {
    secret.Some? && secret.value != ""
  }

  /** The token as the encryption writes it: both fields base64url-encoded, with a '.' between them. */
  function SealedToken(iv: seq<Byte>, ciphertext: seq<Byte>): (token: string)
    ensures |iv| > 0 && |ciphertext| > 0 ==> TokenParts(token) == Some((Base64UrlEncode(iv), Base64UrlEncode(ciphertext)))
  {
    var ivPart, dataPart := Base64UrlEncode(iv), Base64UrlEncode(ciphertext);
    assert |iv| > 0 && |ciphertext| > 0 ==> TokenParts(ivPart + "." + dataPart) == Some((ivPart, dataPart)) by {
      if |iv| > 0 && |ciphertext| > 0 {
        EncodingHasNoDot(iv);
        EncodingHasNoDot(ciphertext);
        EncodeNonEmpty(iv);
        EncodeNonEmpty(ciphertext);
        TokenPartsOfFields(ivPart, dataPart, "");
        assert ivPart + "." + dataPart + "" == ivPart + "." + dataPart;
      }
    }
    ivPart + "." + dataPart
  }

  /** The first two '.'-separated fields of a token, when both are present and not empty. */
  function TokenParts(token: string): (r: Option<(string, string)>)
    ensures r.Some? ==> r.value.0 != "" && r.value.1 != "" && '.' !in r.value.0 && '.' !in r.value.1
    ensures r.Some? ==> StartsWith(token, r.value.0 + "." + r.value.1)
    ensures '.' !in token ==> r.None?
  {
    var parts := Split(token, '.');
    if |parts| < 2 || parts[0] == "" || parts[1] == "" then None
    else
      JoinLeadingParts(parts, ".");
      assert token[|parts[0]|] == (parts[0] + "." + parts[1])[|parts[0]|] == '.';
      Some((parts[0], parts[1]))
  }

  /** Reads a token back: no secret, a malformed token or a field that does not decode gives None. */
  function DecryptSession(token: string, secret: Option<string>, open: Opener): (r: Option<SessionData>)
    ensures !HasSecret(secret) ==> r.None?
    ensures TokenParts(token).None? ==> r.None?
  {
    if !HasSecret(secret) then None
    else match TokenParts(token)
      case None => None
      case Some((ivPart, dataPart)) =>
        match (Base64UrlDecode(ivPart), Base64UrlDecode(dataPart))
          case (Some(iv), Some(data)) => open(secret.value, iv, data)
          case _ => None
  }

  /** A session with an expiry that the clock, in milliseconds, has passed. */
  predicate Expired(session: SessionData, nowMs: int)
  {
    session.expiresAt != 0 && nowMs > session.expiresAt * 1000
  }

  /** The session a cookie value holds, if it decrypts and has not expired. */
  function GetSessionFromCookieValue(value: Option<string>, nowMs: int, secret: Option<string>, open: Opener): (r: Option<SessionData>)
    ensures (value.None? || value == Some("")) ==> r.None?
    ensures r.Some? ==> !Expired(r.value, nowMs)
    ensures r.Some? ==> value.Some? && r == DecryptSession(value.value, secret, open)
    ensures (value.Some? && value.value != "" && DecryptSession(value.value, secret, open).Some?
             && !Expired(DecryptSession(value.value, secret, open).value, nowMs)) ==> r.Some?
  {
    if value.None? || value.value == "" then None
    else
      var session := DecryptSession(value.value, secret, open);
      if session.None? then None
      else if Expired(session.value, nowMs) then None
      else session
  }

  /** The cookie lifetime in seconds: the time left until the expiry, never negative. */
  function CookieMaxAge(expiresAt: int, nowMs: int): (age: int)
    ensures age >= 0
    ensures age > 0 ==> nowMs < expiresAt * 1000
    ensures nowMs >= expiresAt * 1000 ==> age == 0
  {
    var nowSeconds := nowMs / 1000;
    assert nowSeconds * 1000 <= nowMs < nowSeconds * 1000 + 1000;
    Max(0, expiresAt - nowSeconds)
  }

  // ---------------------------------------------------------------------
  // Properties
  // ---------------------------------------------------------------------

  /** A base64url field never holds the '.' that separates the fields. */
  lemma EncodingHasNoDot(bytes: seq<Byte>)
    ensures '.' !in Base64UrlEncode(bytes)
  {
    UrlEncodingAlphabet(bytes);
  }

  /** A token split into its two fields gives back the fields it was made of, whatever follows a further '.'. */
  lemma TokenPartsOfFields(ivPart: string, dataPart: string, tail: string)
    requires ivPart != "" && dataPart != "" && '.' !in ivPart && '.' !in dataPart
    requires tail == "" || tail[0] == '.'
    ensures TokenParts(ivPart + "." + dataPart + tail) == Some((ivPart, dataPart))
  {
    SplitLeadingFields(ivPart, dataPart, '.', tail);
  }

  /** A sealed token reads back as exactly what the decryption of its two fields gives. */
  lemma DecryptSealed(iv: seq<Byte>, ciphertext: seq<Byte>, secret: Option<string>, open: Opener)
    requires |iv| > 0 && |ciphertext| > 0 && HasSecret(secret)
    ensures DecryptSession(SealedToken(iv, ciphertext), secret, open) == open(secret.value, iv, ciphertext)
  {
    DecodeEncode(iv);
    DecodeEncode(ciphertext);
  }

  /** A token without a second field, or with an empty first one, is refused. */
  lemma MalformedTokenRefused(token: string, secret: Option<string>, open: Opener)
    requires '.' !in token || (|token| > 0 && token[0] == '.')
    ensures DecryptSession(token, secret, open) == None
  {
  }

  /** An expiry of 0 never expires: such a session is returned at any time. */
  lemma ZeroNeverExpires(value: string, nowMs: int, secret: Option<string>, open: Opener)
    requires value != ""
    requires DecryptSession(value, secret, open).Some? && DecryptSession(value, secret, open).value.expiresAt == 0
    ensures GetSessionFromCookieValue(Some(value), nowMs, secret, open) == DecryptSession(value, secret, open)
  {
  }

  /** Once a cookie value is refused, it stays refused as the clock moves on. */
  lemma RefusalPersists(value: Option<string>, nowMs: int, laterMs: int, secret: Option<string>, open: Opener)
    requires nowMs <= laterMs
    requires GetSessionFromCookieValue(value, nowMs, secret, open).None?
    ensures GetSessionFromCookieValue(value, laterMs, secret, open).None?
  {
  }

  /** The cookie lifetime only shrinks as the clock moves on. */
  lemma CookieMaxAgeShrinks(expiresAt: int, nowMs: int, laterMs: int)
    requires nowMs <= laterMs
    ensures CookieMaxAge(expiresAt, laterMs) <= CookieMaxAge(expiresAt, nowMs)
  {
  }

  /** While the cookie still has a lifetime, the session it carries has not expired. */
  lemma LiveCookieHoldsLiveSession(session: SessionData, nowMs: int)
    requires CookieMaxAge(session.expiresAt, nowMs) > 0
    ensures !Expired(session, nowMs)
  {
  }
}
