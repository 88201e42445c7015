/**
 * The dummy bearer-token scheme of the Mongo-backed server: the token the
 * login handler hands out, and the `authenticateToken` middleware that is
 * meant to recover the user id from it.
 */
module Auth {
  import opened Common
  import opened Text

  /** What the middleware decides: pass the request on for a user id, or answer with a denial. */
  datatype Identity = Authenticated(userId: string) | Denied(status: Status)

  /** The prefix the login handler writes before the user's `_id`, and the middleware tests for. */
  const TokenPrefix: string := "Bearer dummy-token-for-"

  /** The token the login handler returns for a user whose `_id` is `objectId`. */
  function LoginToken(objectId: string): (token: string)
    ensures StartsWith(token, TokenPrefix) && token[|TokenPrefix|..] == objectId
  {
    TokenPrefix + objectId
  }

  /**
   * `authHeader && authHeader.split(' ')[1]`: `None` stands for `undefined`.
   * An empty header is falsy and is itself the value of the `&&`.
   */
  function BearerToken(header: Option<string>): (token: Option<string>)
    ensures token.None? <==> header.None? || (header.value != "" && ' ' !in header.value)
    ensures token.Some? ==> ' ' !in token.value
  {
    match header
    case None => None
    case Some(h) =>
      if h == "" then Some("")
      else
        var fields := Split(h, ' ');
        if |fields| >= 2 then Some(fields[1]) else None
  }

  /**
   * `authenticateToken`, as written: 401 when there is no second field,
   * 403 unless that field starts with `TokenPrefix`, otherwise the rest
   * of the field is the user id.
   */
  function Authenticate(header: Option<string>): (r: Identity)
    ensures r == Denied(Unauthorized) <==> header.None? || (header.value != "" && ' ' !in header.value)
    ensures r.Denied? ==> r.status in {Unauthorized, Forbidden}
  {
    match BearerToken(header)
    case None => Denied(Unauthorized)
    case Some(token) =>
      if !StartsWith(token, TokenPrefix) then Denied(Forbidden)
      else Authenticated(DropPrefix(token, |TokenPrefix|))
  }

  /** `s.substring(n)`: what follows the first `n` characters, or "" past the end. */
  function DropPrefix(s: string, n: nat): (rest: string)
    ensures n <= |s| ==> s[..n] + rest == s
    ensures n > |s| ==> rest == ""
  {
    if n <= |s| then s[n..] else []
  }

  /** `TokenPrefix` contains a space, so a string without one never starts with it. */
  lemma SpaceFreeNeverPrefixed(token: string)
    ensures ' ' !in token ==> !StartsWith(token, TokenPrefix)
  {
    if StartsWith(token, TokenPrefix) {
      assert token[6] == token[..|TokenPrefix|][6] == TokenPrefix[6] == ' ';
    }
  }

  /**
   * The middleware never lets a request through: a missing header, or a
   * non-empty one without a space, is 401; every other header is 403.
   */
  lemma AuthenticateAlwaysDenies(header: Option<string>)
    ensures Authenticate(header) ==
      if header.None? || (header.value != "" && ' ' !in header.value) then Denied(Unauthorized)
      else Denied(Forbidden)
  {
    match BearerToken(header)
    case None =>
    case Some(token) => SpaceFreeNeverPrefixed(token);
  }

  /** A token issued at login, sent back as the Authorization header, is refused with 403. */
  lemma LoginTokenForbidden(objectId: string)
    ensures Authenticate(Some(LoginToken(objectId))) == Denied(Forbidden)
  {
    assert LoginToken(objectId)[6] == ' ';
    AuthenticateAlwaysDenies(Some(LoginToken(objectId)));
  }

  /** The same token behind a further `Bearer ` prefix is refused with 403 too. */
  lemma PrefixedLoginTokenForbidden(objectId: string)
    ensures Authenticate(Some("Bearer " + LoginToken(objectId))) == Denied(Forbidden)
  {
    assert ("Bearer " + LoginToken(objectId))[6] == ' ';
    AuthenticateAlwaysDenies(Some("Bearer " + LoginToken(objectId)));
  }

  /**
   * The check the middleware evidently means to make: test the whole
   * header for `TokenPrefix` and take the rest as the user id.
   */
  function DecodeHeader(header: Option<string>): (r: Identity)
    ensures r == Denied(Unauthorized) <==> header.None?
    ensures r.Authenticated? <==> header.Some? && StartsWith(header.value, TokenPrefix)
    ensures r.Authenticated? ==> header.value == TokenPrefix + r.userId
    ensures r.Denied? ==> r.status in {Unauthorized, Forbidden}
  {
    match header
    case None => Denied(Unauthorized)
    case Some(h) =>
      if StartsWith(h, TokenPrefix) then Authenticated(h[|TokenPrefix|..]) else Denied(Forbidden)
  }

  /** With the corrected check, the login token decodes back to the user's `_id`. */
  lemma DecodeLoginToken(objectId: string)
    ensures DecodeHeader(Some(LoginToken(objectId))) == Authenticated(objectId)
  {
  }
}
