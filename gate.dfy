/**
 * The request gate of middleware.ts: a first-match-wins chain that looks at
 * the path, the HTTP method, the cookie jar and the Origin header of a request
 * and either forwards it (`NextResponse.next()`, possibly carrying CORS
 * headers), answers it here (the CORS preflight), or redirects it.
 */
module Gate {
  import opened Wrappers
  import opened Text

  /** Name of the NextAuth session cookie; only its presence is ever looked at. */
  const SessionCookie := "next-auth.session-token"

  const AllowCredentials := "Access-Control-Allow-Credentials"
  const AllowOrigin := "Access-Control-Allow-Origin"
  const AllowMethods := "Access-Control-Allow-Methods"
  const AllowHeaders := "Access-Control-Allow-Headers"

  const AllowedMethods := "GET,DELETE,PATCH,POST,PUT"
  const AllowedHeaders := "X-CSRF-Token, X-Requested-With, Accept, Accept-Version, Content-Length, Content-MD5, Content-Type, Date, X-Api-Version"

  type Headers = map<string, string>

  /** What the middleware sees of a request. `verb` is the HTTP method; `origin` is the Origin header, if sent. */
  datatype Request = Request(
    pathname: string,
    verb: string,
    cookies: map<string, string>,
    origin: Option<string>)

  /** What the middleware answers. */
  datatype Decision =
    | Next(headers: Headers)              // forward to the page or handler, with these response headers
    | Reply(status: int, headers: Headers) // answer here, the handler never runs
    | Redirect(location: string)           // redirect to this path of the site

  /** `request.cookies.get(...)` is truthy exactly when the cookie is there, whatever its value. */
  predicate HasSession(req: Request) {
    SessionCookie in req.cookies
  }

  /** `request.headers.get('origin') || '*'`: an absent or empty Origin falls back to `*`. */
  function OriginOrStar(origin: Option<string>): string {
    if origin.Some? && origin.value != "" then origin.value else "*"
  }

  /** The four headers set on every `/api/` response. */
  function CorsHeaders(origin: Option<string>): Headers {
    map[AllowCredentials := "true",
        AllowOrigin := OriginOrStar(origin),
        AllowMethods := AllowedMethods,
        AllowHeaders := AllowedHeaders]
  }

  /** The allow-list of middleware.ts:30-33, checked without looking at the session. */
  predicate IsPublicPath(p: string) {
    Includes(p, "/favicon.ico") || StartsWith(p, "/_next") || p == "/" || StartsWith(p, "/auth")
  }

  /**
   * The middleware, branch for branch and in the source's order. It answers
   * only preflights itself, and sends elsewhere only to `/auth` or `/app`.
   */
  function Middleware(req: Request): (d: Decision)
    ensures d.Reply? ==> d.status == 200 && req.verb == "OPTIONS" && StartsWith(req.pathname, "/api/")
    ensures d.Redirect? ==> d.location in {"/auth", "/app"} && !StartsWith(req.pathname, "/api/")
  {
    var p := req.pathname;
    if StartsWith(p, "/api/") then
      if req.verb == "OPTIONS" then Reply(200, CorsHeaders(req.origin))
      else Next(CorsHeaders(req.origin))
    else if IsPublicPath(p) then Next(map[])
    else if p == "/auth" && HasSession(req) then Redirect("/app")
    else if StartsWith(p, "/app") && !HasSession(req) then Redirect("/auth")
    else Next(map[])
  }

  /** The four kinds of outcome of the middleware. */
  predicate IsCorsForward(req: Request, d: Decision) { d == Next(CorsHeaders(req.origin)) }
  predicate IsPreflight(req: Request, d: Decision) { d == Reply(200, CorsHeaders(req.origin)) }
  predicate IsPassThrough(d: Decision) { d == Next(map[]) }
  predicate IsAuthRedirect(d: Decision) { d == Redirect("/auth") }

  /** Every `/api/` request that is not a preflight is forwarded with exactly the four CORS headers, session or not. */
  lemma ApiForwardedWithCors(req: Request)
    requires StartsWith(req.pathname, "/api/") && req.verb != "OPTIONS"
    ensures Middleware(req).Next?
    ensures Middleware(req).headers.Keys == {AllowCredentials, AllowOrigin, AllowMethods, AllowHeaders}
    ensures Middleware(req).headers[AllowCredentials] == "true"
    ensures Middleware(req).headers[AllowMethods] == AllowedMethods
    ensures Middleware(req).headers[AllowHeaders] == AllowedHeaders
  {
  }

  /** An `/api/` preflight is answered here with 200 and the same four headers; it never reaches the handler. */
  lemma PreflightAnswered(req: Request)
    requires StartsWith(req.pathname, "/api/") && req.verb == "OPTIONS"
    ensures Middleware(req) == Reply(200, CorsHeaders(req.origin))
    ensures Middleware(req).headers.Keys == {AllowCredentials, AllowOrigin, AllowMethods, AllowHeaders}
    ensures Middleware(req).headers[AllowCredentials] == "true"
    ensures Middleware(req).headers[AllowMethods] == AllowedMethods
    ensures Middleware(req).headers[AllowHeaders] == AllowedHeaders
  {
  }

  /** `/api/` paths are never redirected. */
  lemma ApiNeverRedirected(req: Request)
    requires StartsWith(req.pathname, "/api/")
    ensures !Middleware(req).Redirect?
  {
  }

  /** Allow-Origin echoes a non-empty Origin header and is `*` otherwise. */
  lemma AllowOriginEchoesOrigin(req: Request)
    requires StartsWith(req.pathname, "/api/")
    ensures AllowOrigin in Middleware(req).headers
    ensures req.origin.Some? && req.origin.value != "" ==> Middleware(req).headers[AllowOrigin] == req.origin.value
    ensures req.origin.None? || req.origin == Some("") ==> Middleware(req).headers[AllowOrigin] == "*"
  {
  }

  /** Outside `/api/`, the allow-listed paths pass through with no session check. */
  lemma PublicPathsPassThrough(req: Request)
    requires !StartsWith(req.pathname, "/api/") && IsPublicPath(req.pathname)
    ensures Middleware(req) == Next(map[])
  {
  }

  /** `/auth` itself starts with `/auth`, so the allow-list catches it first. */
  lemma AuthPathIsPublic(p: string)
    requires p == "/auth"
    ensures IsPublicPath(p) && !StartsWith(p, "/api/")
  {
    assert p[..|"/auth"|] == "/auth";
  }

  /** No request is ever redirected to `/app`: the branch of middleware.ts:38-40 is dead. */
  lemma NeverRedirectsToApp(req: Request)
    ensures Middleware(req) != Redirect("/app")
  {
    if req.pathname == "/auth" {
      AuthPathIsPublic(req.pathname);
    }
  }

  /** A path under the `/app` prefix (not allow-listed) redirects to `/auth` exactly when there is no session cookie. */
  lemma AppGated(req: Request)
    requires StartsWith(req.pathname, "/app") && !IsPublicPath(req.pathname)
    ensures !HasSession(req) ==> Middleware(req) == Redirect("/auth")
    ensures HasSession(req) ==> Middleware(req) == Next(map[])
  {
    ApiAndAppDisjoint(req.pathname);
  }

  /** No path starts with both `/api/` and `/app`. */
  lemma ApiAndAppDisjoint(p: string)
    ensures !(StartsWith(p, "/api/") && StartsWith(p, "/app"))
  {
    if |p| >= 4 && p[..4] == "/app" {
      assert p[3] == p[..4][3] == 'p';
      if |p| >= 5 {
        assert p[..5][3] == p[3];
      }
    }
  }

  /** The prefix test is textual: `/application` is gated like `/app/...`. */
  lemma ApplicationIsGated(req: Request)
    requires req.pathname == "/application" && !HasSession(req)
    ensures Middleware(req) == Redirect("/auth")
  {
    ApplicationIsUnderApp(req.pathname);
    AppGated(req);
  }

  lemma ApplicationIsUnderApp(p: string)
    requires p == "/application"
    ensures StartsWith(p, "/app") && !IsPublicPath(p)
  {
    assert !Includes(p, "/favicon.ico") by {
      assert p[..12][1] != "/favicon.ico"[1];
      NotIncludedWhenLonger(p[1..], "/favicon.ico");
    }
    assert !StartsWith(p, "/_next") by { assert p[..6][1] != "/_next"[1]; }
    assert !StartsWith(p, "/auth") by { assert p[..5][2] != "/auth"[2]; }
    assert StartsWith(p, "/app") by { assert p[..4] == "/app"; }
  }

  lemma {:induction false} NotIncludedWhenLonger(s: string, sub: string)
    requires |s| < |sub|
    ensures !Includes(s, sub)
  {
    if s != [] { NotIncludedWhenLonger(s[1..], sub); }
  }

  /** Only the presence of the session cookie matters, never its value. */
  lemma SessionIsCookiePresence(req1: Request, req2: Request)
    requires req1.pathname == req2.pathname && req1.verb == req2.verb && req1.origin == req2.origin
    requires (SessionCookie in req1.cookies) == (SessionCookie in req2.cookies)
    ensures Middleware(req1) == Middleware(req2)
  {
  }

  /** Every request gets exactly one of the four outcomes, and which one is fixed by the path, method and cookie. */
  lemma ExactlyOneOutcome(req: Request)
    ensures var d := Middleware(req);
      (if IsCorsForward(req, d) then 1 else 0) + (if IsPreflight(req, d) then 1 else 0)
      + (if IsPassThrough(d) then 1 else 0) + (if IsAuthRedirect(d) then 1 else 0) == 1
    ensures IsCorsForward(req, Middleware(req)) <==> StartsWith(req.pathname, "/api/") && req.verb != "OPTIONS"
    ensures IsPreflight(req, Middleware(req)) <==> StartsWith(req.pathname, "/api/") && req.verb == "OPTIONS"
    ensures IsAuthRedirect(Middleware(req)) <==>
      !StartsWith(req.pathname, "/api/") && !IsPublicPath(req.pathname) && StartsWith(req.pathname, "/app") && !HasSession(req)
  {
    NeverRedirectsToApp(req);
    assert AllowCredentials in CorsHeaders(req.origin);
  }
}
