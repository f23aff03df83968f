/** The parts of a Flask response and of a flask_jwt_extended access token that the user service decides. */
module Http {
  import opened Wrappers

  /** `JWT_ACCESS_TOKEN_EXPIRES` is half an hour; times are whole seconds. */
  const ACCESS_TOKEN_LIFETIME: int := 1800

  /** An access token: whom it identifies, when it expires, and the
      double-submit value set alongside it in a readable cookie. */
  datatype AccessToken = AccessToken(identity: string, expiresAt: int, csrf: string)

  /** `create_access_token(identity=...)` at time `now`; the random
      double-submit value is supplied by the caller. */
  function CreateAccessToken(identity: string, now: int, csrf: string): AccessToken
  {
    AccessToken(identity, now + ACCESS_TOKEN_LIFETIME, csrf)
  }

  /** A JSON envelope `{code, message}` as the views build it, or Flask's
      own error page for an exception that escaped the view. */
  datatype Body = Envelope(code: int, message: string) | ErrorPage

  /** A response: HTTP status, body, and the access cookie it sets, if any. */
  datatype Response = Response(status: int, body: Body, accessCookie: Option<AccessToken>)

  function Reply(status: int, code: int, message: string): Response
  {
    Response(status, Envelope(code, message), None)
  }

  /** What Flask sends when a view raises: status 500, no envelope. */
  const UncaughtError: Response := Response(500, ErrorPage, None)
}
