/**
  The two JWT rules of user.py that do not depend on the library's internals:
  the after-request hook that reissues a token about to expire, and the
  double-submit comparison run at the start of protected endpoints.
*/
module Session {
  import opened Wrappers
  import opened Strings
  import opened Http

  /** A token is reissued once it has less than 15 minutes left. */
  const REFRESH_WINDOW: int := 900

  /** The claims of the request's verified JWT as `get_jwt()` and
      `get_jwt_identity()` read them; a claim may be missing. */
  datatype Jwt = Jwt(identity: string, exp: Option<int>, csrf: Option<string>)

  /** `refresh_expiring_jwt`: with no JWT in the request (`None`, where the
      library raises RuntimeError) or no `exp` claim (KeyError) the response
      goes out unchanged; otherwise a fresh token for the same identity is set
      when `now + 15 minutes` is past the expiry. */
  function RefreshExpiringJwt(jwt: Option<Jwt>, now: int, csrf: string, response: Response): (r: Response)
    ensures r.status == response.status && r.body == response.body
  {
    match jwt
    case None => response
    case Some(claims) =>
      match claims.exp
      case None => response
      case Some(exp) =>
        if now + REFRESH_WINDOW > exp then response.(accessCookie := Some(CreateAccessToken(claims.identity, now, csrf)))
        else response
  }

  /** The hook reissues exactly when a JWT with an expiry is present and
      `now + 15 minutes > exp`; otherwise the response is returned as it came. */
  lemma RefreshReissuesIff(jwt: Option<Jwt>, now: int, csrf: string, response: Response)
    ensures var r := RefreshExpiringJwt(jwt, now, csrf, response);
      var due := jwt.Some? && jwt.value.exp.Some? && now + REFRESH_WINDOW > jwt.value.exp.value;
      && (due ==> r == response.(accessCookie := Some(CreateAccessToken(jwt.value.identity, now, csrf))))
      && (!due ==> r == response)
  {
  }

  /** After the hook, a client holding a JWT with an expiry has at least 15
      minutes left: either the response carries a fresh token for the same
      identity, valid for half an hour, or it is unchanged and the old token
      is still valid for 15 minutes or more. */
  lemma RefreshLeavesFifteenMinutes(jwt: Option<Jwt>, now: int, csrf: string, response: Response)
    requires jwt.Some? && jwt.value.exp.Some?
    ensures var r := RefreshExpiringJwt(jwt, now, csrf, response);
      || (&& r.accessCookie.Some?
          && r.accessCookie.value.identity == jwt.value.identity
          && r.accessCookie.value.expiresAt - now == ACCESS_TOKEN_LIFETIME > REFRESH_WINDOW)
      || (r == response && jwt.value.exp.value - now >= REFRESH_WINDOW)
  {
  }

  /** `request.headers.get('X-CSRF-TOKEN').split(' ')[-1]`. */
  function HeaderToken(header: string): (t: string)
    ensures ' ' !in t
    ensures t == AfterLast(header, ' ')
  {
    LastPieceIsAfterLast(header, ' ');
    var parts := Split(header, ' ');
    parts[|parts| - 1]
  }

  /** Why the check raised: no valid JWT (the decorator), no `csrf` claim
      (KeyError), no header (AttributeError on None), or a mismatch (AssertionError). */
  datatype CsrfFailure = NoValidJwt | MissingCsrfClaim | MissingCsrfHeader | CsrfMismatch

  /** The dictionary returned on success. */
  datatype Verified = Verified(code: int, message: string, data: string)

  /** `verify_jwt_csrf_validity`. */
  function VerifyJwtCsrfValidity(jwt: Option<Jwt>, header: Option<string>): (r: Result<Verified, CsrfFailure>)
    ensures r.Success? <==>
      jwt.Some? && jwt.value.csrf.Some? && header.Some? && AfterLast(header.value, ' ') == jwt.value.csrf.value
    ensures r.Success? ==> r.value.code == 200 && r.value.data == jwt.value.identity
    ensures r == Failure(NoValidJwt) <==> jwt.None?
    ensures r == Failure(MissingCsrfClaim) <==> jwt.Some? && jwt.value.csrf.None?
    ensures r == Failure(MissingCsrfHeader) <==> jwt.Some? && jwt.value.csrf.Some? && header.None?
    ensures r.Failure? && r.error == CsrfMismatch ==> jwt.Some? && jwt.value.csrf.Some? && header.Some?
  {
    match jwt
    case None => Failure(NoValidJwt)
    case Some(claims) =>
      match claims.csrf
      case None => Failure(MissingCsrfClaim)
      case Some(expected) =>
        match header
        case None => Failure(MissingCsrfHeader)
        case Some(h) =>
          LastPieceIsAfterLast(h, ' ');
          if expected != HeaderToken(h) then Failure(CsrfMismatch)
          else Success(Verified(200, "valid jwt and csrf", claims.identity))
  }

  /** Only the last space-separated token of the header is compared: any
      prefix followed by a space and then the claim passes. */
  lemma CsrfIgnoresHeaderPrefix(claims: Jwt, prefix: string, token: string)
    requires claims.csrf == Some(token)
    requires ' ' !in token
    ensures VerifyJwtCsrfValidity(Some(claims), Some(prefix + " " + token)).Success?
  {
    var h := prefix + " " + token;
    forall j | |prefix| < j < |h|
      ensures h[j] != ' '
    {
      assert h[j] == token[j - |prefix| - 1];
    }
    LastIndexOfUnique(h, ' ', |prefix|);
    assert h[|prefix| + 1..] == token;
    assert AfterLast(h, ' ') == token;
  }

  /** A `csrf` claim containing a space never matches, whatever the header. */
  lemma CsrfClaimWithSpaceNeverMatches(claims: Jwt, header: Option<string>)
    requires claims.csrf.Some? && ' ' in claims.csrf.value
    ensures VerifyJwtCsrfValidity(Some(claims), header).Failure?
  {
    if header.Some? {
      assert ' ' !in AfterLast(header.value, ' ');
    }
  }
}
