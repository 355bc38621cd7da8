/**
  The request middleware (`src/middleware.ts`): a per-IP rate limiter over
  a module-level map that it updates in place, the client-IP rule, and the
  cookie gate in front of the admin pages.  `Date.now()` is the parameter
  `now`.
 */
module Middleware {
  import opened Wrappers
  import opened Text

  const RateLimitWindow := 60 * 1000
  const MaxRequestsPerWindow := 100
  const MaxRequestsBurst := 20
  const MinRequestsPerWindow := 10
  const RecentWindow := 10 * 1000

  /** One IP's entry: requests counted in the window, when the window began, and penalties so far. */
  datatype Rec = Rec(count: int, lastReset: int, penalties: nat)

  /**
    `Math.max(10, Math.floor(100 * (1 - penalties * 0.5)))`; with a whole
    number of penalties the product is the integer `100 - 50 * penalties`.
   */
  function EffectiveLimit(penalties: nat): (l: int)
    ensures l >= MinRequestsPerWindow
    ensures penalties == 0 ==> l == 100
    ensures penalties == 1 ==> l == 50
    ensures penalties >= 2 ==> l == 10
  {
    var scaled := MaxRequestsPerWindow - 50 * penalties;
    if scaled < MinRequestsPerWindow then MinRequestsPerWindow else scaled
  }

  /** Whether a recorded request count is in a burst: over 20 within 10 s of the window start. */
  predicate InBurst(r: Rec, now: int) {
    r.count > MaxRequestsBurst && now - r.lastReset < RecentWindow
  }

  /** `isRateLimited(ip)` as a function of the map: whether the request is refused, and the map afterwards. */
  function Decide(records: map<string, Rec>, ip: string, now: int): (bool, map<string, Rec>) {
    if ip !in records then (false, records[ip := Rec(1, now, 0)])
    else
      var r := records[ip];
      if now - r.lastReset > RateLimitWindow then (false, records[ip := Rec(1, now, r.penalties)])
      else if InBurst(r, now) || r.count >= EffectiveLimit(r.penalties) then
        (true, records[ip := r.(penalties := r.penalties + 1)])
      else (false, records[ip := r.(count := r.count + 1)])
  }

  class RateLimiter {
    /** `rateLimitMap` */
    var records: map<string, Rec>

    constructor ()
      ensures records == map[]
    {
      records := map[];
    }

    /** `isRateLimited(ip)`: decides, and updates the entry of `ip` in place. */
    method IsRateLimited(ip: string, now: int) returns (limited: bool)
      modifies this
      ensures (limited, records) == Decide(old(records), ip, now)
    {
      if ip !in records {
        records := records[ip := Rec(1, now, 0)];
        return false;
      }
      var r := records[ip];
      if now - r.lastReset > RateLimitWindow {
        records := records[ip := Rec(1, now, r.penalties)];
        return false;
      }
      var effectiveLimit := EffectiveLimit(r.penalties);
      if r.count > MaxRequestsBurst && now - r.lastReset < RecentWindow {
        records := records[ip := r.(penalties := r.penalties + 1)];
        return true;
      }
      if r.count >= effectiveLimit {
        records := records[ip := r.(penalties := r.penalties + 1)];
        return true;
      }
      records := records[ip := r.(count := r.count + 1)];
      limited := false;
    }
  }

  /** The first request from an unseen IP is allowed and opens a window with no penalties. */
  lemma FirstRequest(records: map<string, Rec>, ip: string, now: int)
    requires ip !in records
    ensures Decide(records, ip, now) == (false, records[ip := Rec(1, now, 0)])
  {
  }

  /** Strictly more than a minute after the window began, the window restarts at one request, penalties kept. */
  lemma WindowReset(records: map<string, Rec>, ip: string, now: int)
    requires ip in records && now - records[ip].lastReset > RateLimitWindow
    ensures Decide(records, ip, now) == (false, records[ip := Rec(1, now, records[ip].penalties)])
  {
  }

  /**
    Within the window a request is refused exactly in a burst or at the
    effective limit; a refusal adds one penalty and changes nothing else, an
    allowed request adds exactly one to the count and changes nothing else.
   */
  lemma InWindow(records: map<string, Rec>, ip: string, now: int)
    requires ip in records && now - records[ip].lastReset <= RateLimitWindow
    ensures var r := records[ip];
      var (limited, after) := Decide(records, ip, now);
      (limited <==> InBurst(r, now) || r.count >= EffectiveLimit(r.penalties))
      && after.Keys == records.Keys
      && (forall other :: other in records && other != ip ==> after[other] == records[other])
      && (limited ==> after[ip] == Rec(r.count, r.lastReset, r.penalties + 1))
      && (!limited ==> after[ip] == Rec(r.count + 1, r.lastReset, r.penalties))
  {
  }

  /** An allowed request in the window never takes the count past the effective limit it was checked against. */
  lemma AllowedWithinLimit(records: map<string, Rec>, ip: string, now: int)
    requires ip in records && now - records[ip].lastReset <= RateLimitWindow
    requires !Decide(records, ip, now).0
    ensures Decide(records, ip, now).1[ip].count <= EffectiveLimit(records[ip].penalties)
  {
  }

  /**
    The burst bound: every entry whose window began less than 10 s before
    `now` has counted at most 21 requests.
   */
  predicate BurstBounded(records: map<string, Rec>, now: int) {
    forall ip :: ip in records && now - records[ip].lastReset < RecentWindow ==> records[ip].count <= MaxRequestsBurst + 1
  }

  /** With time not going backwards, each decision keeps the burst bound. */
  lemma {:induction false} BurstBoundKept(records: map<string, Rec>, earlier: int, ip: string, now: int)
    requires BurstBounded(records, earlier) && earlier <= now
    ensures BurstBounded(Decide(records, ip, now).1, now)
  {
    var after := Decide(records, ip, now).1;
    forall other | other in after && now - after[other].lastReset < RecentWindow
      ensures after[other].count <= MaxRequestsBurst + 1
    {
      if other != ip {
        assert after[other] == records[other];
      }
    }
  }

  /**
    `getClientIp`: the first comma-separated entry of `x-forwarded-for`,
    trimmed, when that is not empty; otherwise `x-real-ip`, trimmed, when
    that is not empty; otherwise "unknown".
   */
  function GetClientIp(forwardedFor: Option<string>, realIp: Option<string>): (ip: string)
    ensures ip != ""
  {
    var first := if forwardedFor.Some? && forwardedFor.value != "" then Trim(Split(forwardedFor.value, ',')[0]) else "";
    if first != "" then first
    else if realIp.Some? && Trim(realIp.value) != "" then Trim(realIp.value)
    else "unknown"
  }

  /**
    The answer is the trimmed first forwarded entry whenever that is not
    empty, and then holds no comma and no surrounding whitespace; the
    real-IP header is used only otherwise.
   */
  lemma ClientIpChoice(forwardedFor: Option<string>, realIp: Option<string>)
    ensures var ip := GetClientIp(forwardedFor, realIp);
      ip == "unknown"
      || (!IsWhitespace(ip[0]) && !IsWhitespace(ip[|ip| - 1]))
    ensures forwardedFor.Some? && Trim(Split(forwardedFor.value, ',')[0]) != "" ==>
      GetClientIp(forwardedFor, realIp) == Trim(Split(forwardedFor.value, ',')[0])
      && ',' !in GetClientIp(forwardedFor, realIp)
    ensures (forwardedFor.None? || Trim(Split(forwardedFor.value, ',')[0]) == "") ==>
      GetClientIp(forwardedFor, realIp) == (if realIp.Some? && Trim(realIp.value) != "" then Trim(realIp.value) else "unknown")
  {
    if forwardedFor.Some? {
      var piece := Split(forwardedFor.value, ',')[0];
      TrimShape(piece);
      SplitPiecesFree(forwardedFor.value, ',');
      if forwardedFor.value == "" {
        assert Split(forwardedFor.value, ',') == [""];
        assert Trim("") == "";
      }
    }
    if realIp.Some? {
      TrimShape(realIp.value);
    }
  }

  /** Where the admin gate sends a request. */
  datatype Gate = Pass | RedirectToLogin(returnUrl: string)

  /**
    The admin gate: a path under "/admin" other than "/admin/login" with no
    (or an empty) `admin_session` cookie is redirected to the login page
    with the path as `returnUrl`.
   */
  function AdminGate(pathname: string, adminSession: Option<string>): (g: Gate)
    ensures g.RedirectToLogin? ==> g.returnUrl == pathname
  {
    if StartsWith(pathname, "/admin") && !StartsWith(pathname, "/admin/login")
      && (adminSession.None? || adminSession.value == "")
    then RedirectToLogin(pathname)
    else Pass
  }

  /**
    The gate redirects exactly the unauthenticated admin pages, and it
    checks only that a cookie is present: any non-empty value passes,
    signed or not.
   */
  lemma AdminGateExactly(pathname: string, adminSession: Option<string>)
    ensures AdminGate(pathname, adminSession).RedirectToLogin? <==>
      StartsWith(pathname, "/admin") && !StartsWith(pathname, "/admin/login")
      && (adminSession.None? || adminSession.value == "")
    ensures adminSession.Some? && adminSession.value != "" ==> AdminGate(pathname, adminSession) == Pass
  {
  }

  /**
    `s` begins with a match of `p` read as a regular expression whose only
    special character is `.`, which matches any one character.
   */
  predicate StartsWithPattern(s: string, p: string) {
    |p| <= |s| && forall i :: 0 <= i < |p| ==> p[i] == '.' || s[i] == p[i]
  }

  /**
    `config.matcher`, the pattern `/((?!api|_next/static|_next/image|favicon.ico|robots.txt).*)`:
    the middleware runs on a path unless the text after its leading "/"
    begins with one of the five excluded alternatives, where the `.` of
    "favicon.ico" and "robots.txt" matches any character (so "/faviconXico"
    is excluded too).  So `Handle`'s `/api/` branch, rate limiter included,
    is never reached through this matcher, while every admin page is.
   */
  predicate Matched(pathname: string): (r: bool)
    ensures StartsWith(pathname, "/api") ==> !r
    ensures StartsWith(pathname, "/admin") ==> r
    ensures StartsWith(pathname, "/favicon.ico") || StartsWith(pathname, "/faviconXico") ==> !r
  {
    assert StartsWith(pathname, "/api") ==> StartsWithPattern(pathname, "/api") by {
      if StartsWith(pathname, "/api") {
        forall i | 0 <= i < 4 ensures pathname[i] == "/api"[i] {
          assert pathname[..4][i] == pathname[i];
        }
      }
    }
    assert StartsWith(pathname, "/favicon.ico") || StartsWith(pathname, "/faviconXico")
      ==> StartsWithPattern(pathname, "/favicon.ico") by {
      if StartsWith(pathname, "/favicon.ico") || StartsWith(pathname, "/faviconXico") {
        forall i | 0 <= i < 12 ensures "/favicon.ico"[i] == '.' || pathname[i] == "/favicon.ico"[i] {
          assert pathname[..12][i] == pathname[i];
        }
      }
    }
    assert StartsWith(pathname, "/admin") ==> pathname[1] == 'a' && pathname[2] == 'd' by {
      if StartsWith(pathname, "/admin") {
        assert pathname[..6][1] == 'a' && pathname[..6][2] == 'd';
      }
    }
    StartsWith(pathname, "/")
    && !StartsWithPattern(pathname, "/api")
    && !StartsWithPattern(pathname, "/_next/static")
    && !StartsWithPattern(pathname, "/_next/image")
    && !StartsWithPattern(pathname, "/favicon.ico")
    && !StartsWithPattern(pathname, "/robots.txt")
  }

  /** What the middleware does with a request, as far as the modelled rules go. */
  datatype Outcome = SecurityBlocked | TooManyRequests | Redirect(returnUrl: string) | Continue

  /**
    The middleware's decision.  API paths first face the security layer
    (its verdict is the parameter `securityBlocks`) and then the rate
    limiter, keyed by the client IP; admin pages then face the cookie gate.
   */
  method Handle(limiter: RateLimiter, pathname: string, forwardedFor: Option<string>, realIp: Option<string>,
                adminSession: Option<string>, securityBlocks: bool, now: int) returns (o: Outcome)
    modifies limiter
    ensures !StartsWith(pathname, "/api/") || securityBlocks ==> limiter.records == old(limiter.records)
    ensures StartsWith(pathname, "/api/") && !securityBlocks ==>
      var (limited, after) := Decide(old(limiter.records), GetClientIp(forwardedFor, realIp), now);
      limiter.records == after && (limited ==> o == TooManyRequests)
    ensures o == SecurityBlocked ==> StartsWith(pathname, "/api/") && securityBlocks
    ensures o.Redirect? ==> o == Redirect(pathname) && AdminGate(pathname, adminSession).RedirectToLogin?
    ensures !StartsWith(pathname, "/api/") ==> o == (if AdminGate(pathname, adminSession).RedirectToLogin? then Redirect(pathname) else Continue)
    ensures StartsWith(pathname, "/api/") ==>
      o == (if securityBlocks then SecurityBlocked
            else if Decide(old(limiter.records), GetClientIp(forwardedFor, realIp), now).0 then TooManyRequests
            else Continue)
  {
    if StartsWith(pathname, "/api/") {
      if securityBlocks {
        return SecurityBlocked;
      }
      var ip := GetClientIp(forwardedFor, realIp);
      var limited := limiter.IsRateLimited(ip, now);
      if limited {
        return TooManyRequests;
      }
    }
    var g := AdminGate(pathname, adminSession);
    if StartsWith(pathname, "/api/") {
      assert !StartsWith(pathname, "/admin") by {
        assert pathname[2] == 'p';
        if |pathname| >= 6 {
          assert pathname[..6][2] == 'p';
        }
      }
    }
    if g.RedirectToLogin? {
      return Redirect(g.returnUrl);
    }
    o := Continue;
  }
}
