/**
  Admin authentication (`src/lib/admin-auth.ts`): the password check, the
  signed session token `base64url(payload "." hex-HMAC(payload))` with an
  eight-hour lifetime, its verification, and the credential check.

  The environment variables are read once at load; they are a `Config`
  whose empty strings stand for unset (the source only tests them for
  truthiness).  HMAC-SHA256 (RFC 2104) and scrypt are not modelled: they
  are functions supplied in a `Crypto` value, of which only the output
  lengths are fixed.  `Date.now()` is the parameter `now`.
 */
module AdminAuth {
  import opened Wrappers
  import opened Text
  import opened Encoding
  import opened SessionPayload

  const SessionCookie := "admin_session"

  /** Eight hours in milliseconds. */
  const SessionTtlMs := 1000 * 60 * 60 * 8

  /** A SHA-256 HMAC: 32 bytes. */
  type Digest = d: seq<byte> | |d| == 32 witness seq(32, _ => 0)

  /** What `scryptSync(password, salt, 64)` returns: 64 bytes. */
  type DerivedKey = k: seq<byte> | |k| == 64 witness seq(64, _ => 0)

  /** The primitives: HMAC-SHA256 keyed by its first argument, and scrypt of a password and a salt. */
  datatype Crypto = Crypto(hmac: (seq<byte>, seq<byte>) -> Digest, scrypt: (seq<byte>, seq<byte>) -> DerivedKey)

  /** `ADMIN_EMAIL`, `ADMIN_PASSWORD`, `ADMIN_PASSWORD_HASH`, `ADMIN_PASSWORD_SALT`, `ADMIN_SESSION_SECRET`. */
  datatype Config = Config(
    adminEmail: string,
    adminPassword: string,
    adminPasswordHash: string,
    adminPasswordSalt: string,
    sessionSecret: string)

  /** `hashPassword`: the scrypt key as hex; decoding it gives the key back. */
  function HashPassword(crypto: Crypto, password: string, salt: string): (h: string)
    ensures |h| == 128
    ensures HexDecode(h) == crypto.scrypt(Utf8(password), Utf8(salt))
  {
    var key := crypto.scrypt(Utf8(password), Utf8(salt));
    HexRoundTrip(key);
    Hex(key)
  }

  /** `timingSafeEqual`: throws on buffers of different lengths, otherwise compares them. */
  function TimingSafeEqual(a: seq<byte>, b: seq<byte>): (r: Result<bool>)
    ensures r.Throws? <==> |a| != |b|
    ensures r.Ok? ==> (r.value <==> a == b)
  {
    if |a| != |b| then Throws("Input buffers must have the same byte length") else Ok(a == b)
  }

  /** Whether a salted hash is configured; it takes precedence over a plaintext password. */
  predicate HashConfigured(cfg: Config) {
    cfg.adminPasswordHash != "" && cfg.adminPasswordSalt != ""
  }

  /** `verifyPassword`, as written: the plaintext comparison has no length guard and may throw. */
  function VerifyPassword(cfg: Config, crypto: Crypto, password: string): Result<bool> {
    if HashConfigured(cfg) then
      var hashBuffer := HexDecode(cfg.adminPasswordHash);
      var compareBuffer := HexDecode(HashPassword(crypto, password, cfg.adminPasswordSalt));
      if |hashBuffer| != |compareBuffer| then Ok(false) else TimingSafeEqual(hashBuffer, compareBuffer)
    else if cfg.adminPassword != "" then TimingSafeEqual(Utf8(cfg.adminPassword), Utf8(password))
    else Ok(false)
  }

  /** `verifyPassword` with the length guard the hash branch already has, applied to the plaintext branch too. */
  function VerifyPasswordGuarded(cfg: Config, crypto: Crypto, password: string): Result<bool> {
    if !HashConfigured(cfg) && cfg.adminPassword != "" && |Utf8(cfg.adminPassword)| != |Utf8(password)| then Ok(false)
    else VerifyPassword(cfg, crypto, password)
  }

  /** With a hash configured, the password is accepted exactly when its scrypt key is the configured one; nothing throws. */
  lemma HashedPassword(cfg: Config, crypto: Crypto, password: string)
    requires HashConfigured(cfg)
    ensures VerifyPassword(cfg, crypto, password)
      == Ok(HexDecode(cfg.adminPasswordHash) == crypto.scrypt(Utf8(password), Utf8(cfg.adminPasswordSalt)))
  {
  }

  /**
    With only a plaintext password, the password is accepted exactly when
    it is that text, and the check throws whenever the two differ in UTF-8
    length.
   */
  lemma PlaintextPassword(cfg: Config, crypto: Crypto, password: string)
    requires !HashConfigured(cfg) && cfg.adminPassword != ""
    ensures VerifyPassword(cfg, crypto, password).Throws? <==> |Utf8(cfg.adminPassword)| != |Utf8(password)|
    ensures VerifyPassword(cfg, crypto, password) == Ok(true) <==> password == cfg.adminPassword
  {
    if Utf8(cfg.adminPassword) == Utf8(password) {
      Utf8Injective(cfg.adminPassword, password);
    }
  }

  /** With neither a hash nor a password configured, every password is refused. */
  lemma NoPasswordConfigured(cfg: Config, crypto: Crypto, password: string)
    requires !HashConfigured(cfg) && cfg.adminPassword == ""
    ensures VerifyPassword(cfg, crypto, password) == Ok(false)
  {
  }

  /** A wrong password of another length makes the unguarded check throw. */
  lemma PlaintextMismatchThrows(crypto: Crypto)
    ensures VerifyPassword(Config("admin@example", "secret", "", "", "key"), crypto, "x").Throws?
  {
    assert |Utf8("secret")| == 6 by { Utf8Ascii("secret"); }
    assert |Utf8("x")| == 1 by { Utf8Ascii("x"); }
  }

  /** The guarded check never throws, and accepts exactly what the unguarded one accepts. */
  lemma GuardedPassword(cfg: Config, crypto: Crypto, password: string)
    ensures VerifyPasswordGuarded(cfg, crypto, password).Ok?
    ensures VerifyPasswordGuarded(cfg, crypto, password) == Ok(true) <==> VerifyPassword(cfg, crypto, password) == Ok(true)
  {
  }

  /** `signSession`: throws without a secret, otherwise the hex HMAC of the payload under the secret. */
  function SignSession(cfg: Config, crypto: Crypto, payload: string): (r: Result<string>)
    ensures r.Throws? <==> cfg.sessionSecret == ""
    ensures r.Ok? ==> |r.value| == 64 && r.value != "" && '.' !in r.value
  {
    if cfg.sessionSecret == "" then Throws("Missing ADMIN_SESSION_SECRET")
    else
      var digest := crypto.hmac(Utf8(cfg.sessionSecret), Utf8(payload));
      HexHasNoDot(digest);
      Ok(Hex(digest))
  }

  /** The payload a session issued at `now` for `email` carries. */
  function IssuedPayload(email: string, now: int): string {
    Stringify(Claims(email, now + SessionTtlMs))
  }

  /** `createAdminSession(email)` at time `now`. */
  function CreateAdminSession(cfg: Config, crypto: Crypto, email: string, now: int): Result<string> {
    var payload := IssuedPayload(email, now);
    match SignSession(cfg, crypto, payload)
    case Throws(m) => Throws(m)
    case Ok(signature) => Ok(Base64UrlEncode(Utf8(payload + "." + signature)))
  }

  /** What `verifyAdminSession` answers: `{ isValid: false }` or `{ isValid: true, email }`. */
  datatype Session = Invalid | Valid(email: string)

  /** `Buffer.from(cookie, 'base64url').toString('utf-8')` */
  function DecodeCookie(cookie: string): string {
    Utf8Decode(Base64UrlDecode(cookie))
  }

  /**
    The checks after the split: both parts present, the signature equal to
    the payload's own signature, the payload parsed, and not yet expired.
    Every failure, thrown or not, is `Invalid`.
   */
  function CheckParts(cfg: Config, crypto: Crypto, payload: string, signature: string, now: int): Session {
    if payload == "" || signature == "" then Invalid
    else
      match SignSession(cfg, crypto, payload)
      case Throws(_) => Invalid
      case Ok(expected) =>
        if TimingSafeEqual(Utf8(signature), Utf8(expected)) != Ok(true) then Invalid
        else
          match Parse(payload)
          case None => Invalid
          case Some(claims) => if claims.exp < now then Invalid else Valid(claims.email)
  }

  /** `verifyAdminSession`, as written: the decoded text is split at every dot and only the first two pieces are used. */
  function VerifyAdminSession(cfg: Config, crypto: Crypto, cookie: Option<string>, now: int): Session {
    if cookie.None? || cookie.value == "" || cfg.sessionSecret == "" then Invalid
    else
      var parts := Split(DecodeCookie(cookie.value), '.');
      CheckParts(cfg, crypto, parts[0], if |parts| > 1 then parts[1] else "", now)
  }

  /** The position of the last `c` in `s`. */
  function LastIndexOf(s: string, c: char): (r: Option<nat>)
    ensures r.Some? ==> r.value < |s| && s[r.value] == c && c !in s[r.value + 1..]
    ensures r.None? ==> c !in s
  {
    if |s| == 0 then None
    else if s[|s| - 1] == c then Some(|s| - 1)
    else
      var r := LastIndexOf(s[..|s| - 1], c);
      assert s == s[..|s| - 1] + [s[|s| - 1]];
      r
  }

  /** `verifyAdminSession` splitting at the last dot, which the signature never contains. */
  function VerifyAdminSessionLastDot(cfg: Config, crypto: Crypto, cookie: Option<string>, now: int): Session {
    if cookie.None? || cookie.value == "" || cfg.sessionSecret == "" then Invalid
    else
      var decoded := DecodeCookie(cookie.value);
      match LastIndexOf(decoded, '.')
      case None => Invalid
      case Some(i) => CheckParts(cfg, crypto, decoded[..i], decoded[i + 1..], now)
  }

  /** The signature `signSession` computes for a payload under a configured secret. */
  function Signature(cfg: Config, crypto: Crypto, payload: string): string {
    Hex(crypto.hmac(Utf8(cfg.sessionSecret), Utf8(payload)))
  }

  // ---------------------------------------------------------------------
  // Issuing and verifying

  /** An issued token decodes to the payload, a dot and the payload's signature; issuing throws only without a secret. */
  lemma IssuedToken(cfg: Config, crypto: Crypto, email: string, now: int)
    ensures CreateAdminSession(cfg, crypto, email, now).Throws? <==> cfg.sessionSecret == ""
    ensures CreateAdminSession(cfg, crypto, email, now).Ok? ==>
      var payload := IssuedPayload(email, now);
      CreateAdminSession(cfg, crypto, email, now).value != ""
      && DecodeCookie(CreateAdminSession(cfg, crypto, email, now).value) == payload + "." + Signature(cfg, crypto, payload)
  {
    if cfg.sessionSecret != "" {
      var payload := IssuedPayload(email, now);
      var text := payload + "." + Signature(cfg, crypto, payload);
      Base64UrlRoundTrip(Utf8(text));
      Utf8RoundTrip(text);
      Utf8Concat(payload + ".", Signature(cfg, crypto, payload));
      assert |Utf8(text)| > 0;
    }
  }

  /** A genuine payload and its signature pass every check until the expiry time, inclusive. */
  lemma GenuineParts(cfg: Config, crypto: Crypto, c: Claims, now: int)
    requires cfg.sessionSecret != ""
    ensures CheckParts(cfg, crypto, Stringify(c), Signature(cfg, crypto, Stringify(c)), now)
      == if now <= c.exp then Valid(c.email) else Invalid
  {
    ParseStringify(c);
    assert Stringify(c)[0] == '{';
  }

  /**
    Splitting at the last dot, an issued token verifies with its email
    until its expiry (issue time plus eight hours) and not after: the
    expiry instant itself still verifies.
   */
  lemma IssueThenVerify(cfg: Config, crypto: Crypto, email: string, issued: int, now: int)
    requires cfg.sessionSecret != ""
    ensures CreateAdminSession(cfg, crypto, email, issued).Ok?
    ensures VerifyAdminSessionLastDot(cfg, crypto, Some(CreateAdminSession(cfg, crypto, email, issued).value), now)
      == if now <= issued + SessionTtlMs then Valid(email) else Invalid
  {
    IssuedToken(cfg, crypto, email, issued);
    var c := Claims(email, issued + SessionTtlMs);
    var payload := Stringify(c);
    var sig := Signature(cfg, crypto, payload);
    HexHasNoDot(crypto.hmac(Utf8(cfg.sessionSecret), Utf8(payload)));
    LastDotBeforeSignature(payload, sig);
    var tok := CreateAdminSession(cfg, crypto, email, issued).value;
    assert DecodeCookie(tok) == payload + "." + sig;
    assert VerifyAdminSessionLastDot(cfg, crypto, Some(tok), now) == CheckParts(cfg, crypto, payload, sig, now);
    GenuineParts(cfg, crypto, c, now);
  }

  /** In `p "." s` with no dot in `s`, the last dot is the one after `p`, and the split gives `p` and `s` back. */
  lemma {:induction false} LastDotBeforeSignature(p: string, s: string)
    requires '.' !in s
    ensures LastIndexOf(p + "." + s, '.') == Some(|p|)
    ensures (p + "." + s)[..|p|] == p && (p + "." + s)[|p| + 1..] == s
  {
    var t := p + "." + s;
    if |s| > 0 {
      assert t[..|t| - 1] == p + "." + s[..|s| - 1];
      LastDotBeforeSignature(p, s[..|s| - 1]);
    }
  }

  /** As written, an issued token for an email without a dot verifies exactly as with the last-dot split. */
  lemma IssueThenVerifyPlainEmail(cfg: Config, crypto: Crypto, email: string, issued: int, now: int)
    requires cfg.sessionSecret != "" && '.' !in email
    ensures CreateAdminSession(cfg, crypto, email, issued).Ok?
    ensures VerifyAdminSession(cfg, crypto, Some(CreateAdminSession(cfg, crypto, email, issued).value), now)
      == if now <= issued + SessionTtlMs then Valid(email) else Invalid
  {
    IssuedToken(cfg, crypto, email, issued);
    var c := Claims(email, issued + SessionTtlMs);
    var payload := Stringify(c);
    var sig := Signature(cfg, crypto, payload);
    StringifyDots(c);
    HexHasNoDot(crypto.hmac(Utf8(cfg.sessionSecret), Utf8(payload)));
    SplitAtFirst(payload, sig, '.');
    SplitAbsent(sig, '.');
    assert payload + "." + sig == payload + ['.'] + sig;
    GenuineParts(cfg, crypto, c, now);
  }

  /** As written, a cookie whose text before its first dot is not JSON never verifies. */
  lemma CutCookieRejected(cfg: Config, crypto: Crypto, cookie: string, head: string, rest: string, now: int)
    requires cookie != "" && DecodeCookie(cookie) == head + ['.'] + rest
    requires '.' !in head && Parse(head) == None
    ensures VerifyAdminSession(cfg, crypto, Some(cookie), now) == Invalid
  {
    SplitAtFirst(head, rest, '.');
    var parts := Split(DecodeCookie(cookie), '.');
    UnparsedPayloadRejected(cfg, crypto, head, if |parts| > 1 then parts[1] else "", now);
  }

  /** A token issued for an email holding a dot decodes to a text whose part before the first dot is not JSON. */
  lemma DottedToken(cfg: Config, crypto: Crypto, email: string, issued: int) returns (head: string, rest: string)
    requires cfg.sessionSecret != "" && '.' in email
    ensures CreateAdminSession(cfg, crypto, email, issued).Ok?
    ensures CreateAdminSession(cfg, crypto, email, issued).value != ""
    ensures DecodeCookie(CreateAdminSession(cfg, crypto, email, issued).value) == head + ['.'] + rest
    ensures '.' !in head && Parse(head) == None
  {
    IssuedToken(cfg, crypto, email, issued);
    var k := FirstDot(email);
    var c := Claims(email, issued + SessionTtlMs);
    var tail;
    head, tail := CutPayload(c, k);
    var sig := Signature(cfg, crypto, Stringify(c));
    rest := tail + "." + sig;
    DotRegroup(head, tail, sig);
  }

  /**
    As written, a token issued for an email holding a dot never verifies:
    the first piece of the split is the payload cut inside the email, which
    is not JSON.
   */
  lemma DottedEmailNeverVerifies(cfg: Config, crypto: Crypto, email: string, issued: int, now: int)
    requires cfg.sessionSecret != "" && '.' in email
    ensures CreateAdminSession(cfg, crypto, email, issued).Ok?
    ensures VerifyAdminSession(cfg, crypto, Some(CreateAdminSession(cfg, crypto, email, issued).value), now) == Invalid
  {
    var head, rest := DottedToken(cfg, crypto, email, issued);
    CutCookieRejected(cfg, crypto, CreateAdminSession(cfg, crypto, email, issued).value, head, rest, now);
  }

  /** A payload that does not parse is refused whatever the signature. */
  lemma UnparsedPayloadRejected(cfg: Config, crypto: Crypto, payload: string, signature: string, now: int)
    requires Parse(payload) == None
    ensures CheckParts(cfg, crypto, payload, signature, now) == Invalid
  {
  }

  /** The position of the first dot of a text that has one. */
  lemma FirstDot(s: string) returns (k: nat)
    requires '.' in s
    ensures k < |s| && s[k] == '.' && '.' !in s[..k]
  {
    k := 0;
    while s[k] != '.'
      invariant k < |s| && '.' !in s[..k]
      invariant '.' in s[k..]
      decreases |s| - k
    {
      assert s[..k + 1] == s[..k] + [s[k]];
      assert s[k..] == [s[k]] + s[k + 1..];
      k := k + 1;
    }
  }

  /**
    A session is valid only for a signed, parseable, unexpired payload:
    the verifier accepts a cookie only when the secret is set, the
    signature piece is the payload's own signature, and the payload parses
    to claims with that email whose expiry is not before `now`.
   */
  lemma ValidMeansSigned(cfg: Config, crypto: Crypto, payload: string, signature: string, now: int)
    requires CheckParts(cfg, crypto, payload, signature, now).Valid?
    ensures cfg.sessionSecret != ""
    ensures signature == Signature(cfg, crypto, payload)
    ensures Parse(payload).Some? && now <= Parse(payload).value.exp
    ensures CheckParts(cfg, crypto, payload, signature, now).email == Parse(payload).value.email
  {
    Utf8Injective(signature, Signature(cfg, crypto, payload));
  }

  /** Without a cookie, with an empty one, or without a secret, nothing verifies. */
  lemma VerifyNeedsCookieAndSecret(cfg: Config, crypto: Crypto, cookie: Option<string>, now: int)
    requires cookie.None? || cookie.value == "" || cfg.sessionSecret == ""
    ensures VerifyAdminSession(cfg, crypto, cookie, now) == Invalid
    ensures VerifyAdminSessionLastDot(cfg, crypto, cookie, now) == Invalid
  {
  }

  /** What `requireAdminAuth` answers. */
  datatype AuthCheck = Authenticated | Denied(status: int, error: string)

  /** `requireAdminAuth`, given what `verifyAdminSession` answered. */
  function RequireAdminAuth(session: Session): (r: AuthCheck)
    ensures r.Authenticated? <==> session.Valid?
    ensures r.Denied? ==> r == Denied(401, "Unauthorized")
  {
    if session.Valid? then Authenticated else Denied(401, "Unauthorized")
  }

  // ---------------------------------------------------------------------
  // Credentials

  /** `toLowerCase` on the letters A to Z. */
  function LowerAscii(s: string): (r: string)
    ensures |r| == |s|
  {
    if |s| == 0 then ""
    else [if 'A' <= s[0] <= 'Z' then (s[0] as int + 32) as char else s[0]] + LowerAscii(s[1..])
  }

  /** `verifyAdminCredentials`, with a password check of the caller's choosing. */
  function CredentialsWith(cfg: Config, email: string, password: Result<bool>): Result<bool> {
    if cfg.adminEmail == "" || cfg.sessionSecret == "" then Ok(false)
    else if LowerAscii(email) != LowerAscii(cfg.adminEmail) then Ok(false)
    else password
  }

  /** `verifyAdminCredentials`, as written. */
  function VerifyAdminCredentials(cfg: Config, crypto: Crypto, email: string, password: string): Result<bool> {
    CredentialsWith(cfg, email, VerifyPassword(cfg, crypto, password))
  }

  /** `verifyAdminCredentials` over the guarded password check. */
  function VerifyAdminCredentialsGuarded(cfg: Config, crypto: Crypto, email: string, password: string): Result<bool> {
    CredentialsWith(cfg, email, VerifyPasswordGuarded(cfg, crypto, password))
  }

  /**
    Credentials are accepted only when the admin email and the session
    secret are configured, the email matches ignoring case, and the
    password check accepts; they are refused without throwing otherwise.
   */
  lemma CredentialsMeaning(cfg: Config, crypto: Crypto, email: string, password: string)
    ensures VerifyAdminCredentials(cfg, crypto, email, password) == Ok(true) <==>
      cfg.adminEmail != "" && cfg.sessionSecret != "" && LowerAscii(email) == LowerAscii(cfg.adminEmail)
      && VerifyPassword(cfg, crypto, password) == Ok(true)
    ensures VerifyAdminCredentials(cfg, crypto, email, password).Throws? ==>
      cfg.adminEmail != "" && cfg.sessionSecret != "" && LowerAscii(email) == LowerAscii(cfg.adminEmail)
      && !HashConfigured(cfg) && cfg.adminPassword != ""
  {
  }

  /** Any casing of the admin email is as good as the configured one. */
  lemma EmailCaseIgnored(cfg: Config, crypto: Crypto, email: string, password: string)
    requires LowerAscii(email) == LowerAscii(cfg.adminEmail)
    ensures VerifyAdminCredentials(cfg, crypto, email, password) == VerifyAdminCredentials(cfg, crypto, cfg.adminEmail, password)
  {
  }

  /** With the guarded password check, credentials never throw. */
  lemma GuardedCredentialsTotal(cfg: Config, crypto: Crypto, email: string, password: string)
    ensures VerifyAdminCredentialsGuarded(cfg, crypto, email, password).Ok?
    ensures VerifyAdminCredentialsGuarded(cfg, crypto, email, password) == Ok(true) <==>
      VerifyAdminCredentials(cfg, crypto, email, password) == Ok(true)
  {
    GuardedPassword(cfg, crypto, password);
  }
}
