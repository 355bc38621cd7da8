/**
  `POST /api/admin/login` (`src/app/api/admin/login/route.ts`): credentials
  in, and either an error status or a success body with the
  `admin_session` cookie set.
 */
module Login {
  import opened Wrappers
  import opened AdminAuth

  /** The posted body: its `email` and `password` ("" when absent or empty), or text that is not JSON. */
  datatype LoginRequest = Credentials(email: string, password: string) | Malformed(message: string)

  /** The options passed to `response.cookies.set`. */
  datatype Cookie = Cookie(
    name: string, value: string, httpOnly: bool, secure: bool, sameSite: string, maxAge: int, path: string)

  /** Status, the `error` member of the body (if any), and the cookie set (if any). */
  datatype LoginResponse = LoginResponse(status: int, error: Option<string>, cookie: Option<Cookie>)

  /** Eight hours in seconds. */
  const CookieMaxAge := 60 * 60 * 8

  /** `error.message || 'Login failed'` */
  function Failed(m: string): (r: LoginResponse)
    ensures r.status == 500 && r.cookie.None? && r.error.Some? && r.error.value != ""
  {
    LoginResponse(500, Some(if m == "" then "Login failed" else m), None)
  }

  /** The route, given the credential check's verdict for the posted email and password. */
  function Respond(cfg: Config, crypto: Crypto, req: LoginRequest, verdict: Result<bool>, now: int, production: bool): LoginResponse {
    match req
    case Malformed(m) => Failed(m)
    case Credentials(email, password) =>
      if email == "" || password == "" then LoginResponse(400, Some("Missing credentials"), None)
      else
        match verdict
        case Throws(m) => Failed(m)
        case Ok(false) => LoginResponse(401, Some("Invalid credentials"), None)
        case Ok(true) =>
          match CreateAdminSession(cfg, crypto, email, now)
          case Throws(m) => Failed(m)
          case Ok(token) =>
            LoginResponse(200, None, Some(Cookie(SessionCookie, token, true, production, "lax", CookieMaxAge, "/")))
  }

  /** `POST`, as written. */
  function AdminLogin(cfg: Config, crypto: Crypto, req: LoginRequest, now: int, production: bool): LoginResponse {
    var verdict := if req.Credentials? then VerifyAdminCredentials(cfg, crypto, req.email, req.password) else Ok(false);
    Respond(cfg, crypto, req, verdict, now, production)
  }

  /** `POST` over the guarded password check. */
  function AdminLoginGuarded(cfg: Config, crypto: Crypto, req: LoginRequest, now: int, production: bool): LoginResponse {
    var verdict := if req.Credentials? then VerifyAdminCredentialsGuarded(cfg, crypto, req.email, req.password) else Ok(false);
    Respond(cfg, crypto, req, verdict, now, production)
  }

  /** A missing email or password gives 400 and no cookie, before any check. */
  lemma MissingCredentials(cfg: Config, crypto: Crypto, email: string, password: string, now: int, production: bool)
    requires email == "" || password == ""
    ensures AdminLogin(cfg, crypto, Credentials(email, password), now, production)
      == LoginResponse(400, Some("Missing credentials"), None)
  {
  }

  /** Rejected credentials give 401 and no cookie. */
  lemma RejectedCredentials(cfg: Config, crypto: Crypto, email: string, password: string, now: int, production: bool)
    requires email != "" && password != ""
    requires VerifyAdminCredentials(cfg, crypto, email, password) == Ok(false)
    ensures AdminLogin(cfg, crypto, Credentials(email, password), now, production)
      == LoginResponse(401, Some("Invalid credentials"), None)
  {
  }

  /**
    Accepted credentials give 200 and an `admin_session` cookie holding a
    session for the submitted email; the cookie lives as long as the token
    (eight hours), is httpOnly, sameSite lax, on path "/", and secure
    exactly in production.  Issuing cannot fail there, since accepted
    credentials imply a configured secret.
   */
  lemma AcceptedCredentials(cfg: Config, crypto: Crypto, email: string, password: string, now: int, production: bool)
    requires email != "" && password != ""
    requires VerifyAdminCredentials(cfg, crypto, email, password) == Ok(true)
    ensures var r := AdminLogin(cfg, crypto, Credentials(email, password), now, production);
      r.status == 200 && r.error.None? && r.cookie.Some?
      && CreateAdminSession(cfg, crypto, email, now) == Ok(r.cookie.value.value)
      && r.cookie.value == Cookie("admin_session", r.cookie.value.value, true, production, "lax", 28800, "/")
      && r.cookie.value.maxAge * 1000 == SessionTtlMs
  {
    CredentialsMeaning(cfg, crypto, email, password);
    IssuedToken(cfg, crypto, email, now);
  }

  /** A cookie is set exactly on a 200 response. */
  lemma CookieOnlyOnSuccess(cfg: Config, crypto: Crypto, req: LoginRequest, now: int, production: bool)
    ensures AdminLogin(cfg, crypto, req, now, production).cookie.Some?
      <==> AdminLogin(cfg, crypto, req, now, production).status == 200
    ensures AdminLoginGuarded(cfg, crypto, req, now, production).cookie.Some?
      <==> AdminLoginGuarded(cfg, crypto, req, now, production).status == 200
  {
  }

  /**
    As written, a wrong plaintext password of another length than the
    configured one is answered 500 rather than 401.
   */
  lemma WrongLengthPasswordIs500(crypto: Crypto, now: int, production: bool)
    ensures AdminLogin(Config("admin@example", "secret", "", "", "key"), crypto,
      Credentials("admin@example", "x"), now, production).status == 500
  {
    PlaintextMismatchThrows(crypto);
  }

  /**
    With the guarded check, a request with both fields never gets 500 from
    the credential check: it is 401 unless the credentials are accepted,
    and then 200 with the session cookie.
   */
  lemma GuardedLoginOutcomes(cfg: Config, crypto: Crypto, email: string, password: string, now: int, production: bool)
    requires email != "" && password != ""
    ensures var r := AdminLoginGuarded(cfg, crypto, Credentials(email, password), now, production);
      (r.status == 200 <==> VerifyAdminCredentials(cfg, crypto, email, password) == Ok(true))
      && (r.status != 200 ==> r == LoginResponse(401, Some("Invalid credentials"), None))
  {
    GuardedCredentialsTotal(cfg, crypto, email, password);
    CredentialsMeaning(cfg, crypto, email, password);
    IssuedToken(cfg, crypto, email, now);
  }

  /** The issued cookie verifies for the submitted email until it expires (with the last-dot split). */
  lemma LoginCookieVerifies(cfg: Config, crypto: Crypto, email: string, password: string, now: int, later: int, production: bool)
    requires email != "" && password != ""
    requires VerifyAdminCredentials(cfg, crypto, email, password) == Ok(true)
    ensures var r := AdminLogin(cfg, crypto, Credentials(email, password), now, production);
      r.cookie.Some?
      && VerifyAdminSessionLastDot(cfg, crypto, Some(r.cookie.value.value), later)
        == if later <= now + SessionTtlMs then Valid(email) else Invalid
  {
    AcceptedCredentials(cfg, crypto, email, password, now, production);
    CredentialsMeaning(cfg, crypto, email, password);
    IssueThenVerify(cfg, crypto, email, now, later);
  }

  /**
    With the verifier as written, the issued cookie verifies for the
    submitted email until it expires when the email holds no dot, and
    never when it holds one.
   */
  lemma LoginCookieAsWritten(cfg: Config, crypto: Crypto, email: string, password: string, now: int, later: int, production: bool)
    requires email != "" && password != ""
    requires VerifyAdminCredentials(cfg, crypto, email, password) == Ok(true)
    ensures var r := AdminLogin(cfg, crypto, Credentials(email, password), now, production);
      r.cookie.Some?
      && VerifyAdminSession(cfg, crypto, Some(r.cookie.value.value), later)
        == if '.' !in email && later <= now + SessionTtlMs then Valid(email) else Invalid
  {
    AcceptedCredentials(cfg, crypto, email, password, now, production);
    CredentialsMeaning(cfg, crypto, email, password);
    if '.' in email {
      DottedEmailNeverVerifies(cfg, crypto, email, now, later);
    } else {
      IssueThenVerifyPlainEmail(cfg, crypto, email, now, later);
    }
  }
}
