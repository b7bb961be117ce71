/**
 * The edge route guard (`middleware.ts`): send visitors without a session to
 * `/login`, send signed-in visitors away from `/login` to `/chats`, and let
 * every other request through.
 */
module Middleware {
  import opened Text

  /** The parts of `req.nextUrl` a redirect could change. */
  datatype Url = Url(protocol: string, host: string, pathname: string, search: string, hash: string)

  /** `NextResponse.next()` or `NextResponse.redirect(url)`. */
  datatype Response = Next | Redirect(location: Url)

  const LoginPath := "/login"
  const ChatsPath := "/chats"

  /** `pathname.startsWith('/login')`: a prefix test, so `/login/x` and `/loginx` count too. */
  predicate IsLoginRoute(pathname: string) {
    StartsWith(pathname, LoginPath)
  }

  /** `req.nextUrl.clone()` with only the pathname reassigned. */
  function WithPath(url: Url, pathname: string): Url {
    url.(pathname := pathname)
  }

  function Guard(hasSession: bool, url: Url): Response {
    if !hasSession && !IsLoginRoute(url.pathname) then Redirect(WithPath(url, LoginPath))
    else if hasSession && IsLoginRoute(url.pathname) then Redirect(WithPath(url, ChatsPath))
    else Next
  }

  /** A request passes exactly when having a session and asking for the login route disagree. */
  lemma PassesIff(hasSession: bool, url: Url)
    ensures Guard(hasSession, url) == Next <==> hasSession != IsLoginRoute(url.pathname)
  {
  }

  /**
   * A redirect goes to `/login` without a session and to `/chats` with one, and
   * keeps every URL component other than the pathname.
   */
  lemma RedirectTarget(hasSession: bool, url: Url)
    requires Guard(hasSession, url).Redirect?
    ensures var target := Guard(hasSession, url).location;
            && target.pathname == (if hasSession then ChatsPath else LoginPath)
            && target.protocol == url.protocol && target.host == url.host
            && target.search == url.search && target.hash == url.hash
  {
  }

  /** Following a redirect with the same session passes: the guard never loops. */
  lemma NoRedirectLoop(hasSession: bool, url: Url)
    requires Guard(hasSession, url).Redirect?
    ensures Guard(hasSession, Guard(hasSession, url).location) == Next
  {
    assert LoginPath[..|LoginPath|] == LoginPath;
    assert ChatsPath[1] != LoginPath[1];
  }

  /** Only a prefix is compared. */
  lemma LoginPrefixExamples()
    ensures IsLoginRoute("/login") && IsLoginRoute("/login/x") && IsLoginRoute("/loginx")
    ensures !IsLoginRoute("/chats") && !IsLoginRoute("/") && !IsLoginRoute("/logi")
  {
    assert "/login/x"[..6] == "/login";
    assert "/loginx"[..6] == "/login";
    assert "/chats"[1] != "/login"[1];
  }

  // ---------------------------------------------------------------- matcher

  /**
   * `config.matcher`, `/((?!_next/static|_next/image|favicon.ico).*)`: every
   * path except those whose text after the first `/` begins with
   * `_next/static`, `_next/image` or `favicon`, any character, `ico`.
   */
  predicate Matched(pathname: string) {
    && StartsWith(pathname, "/")
    && var rest := pathname[1..];
       && !StartsWith(rest, "_next/static")
       && !StartsWith(rest, "_next/image")
       && !(|rest| >= 11 && rest[..7] == "favicon" && rest[8..11] == "ico")
  }

  /** What the edge does with a request: unmatched paths never reach the guard. */
  function Edge(hasSession: bool, url: Url): Response {
    if Matched(url.pathname) then Guard(hasSession, url) else Next
  }

  /** Build assets, optimised images and `favicon.ico` are served whatever the session. */
  lemma AssetsBypassGuard(hasSession: bool, url: Url)
    requires || StartsWith(url.pathname, "/_next/static")
             || StartsWith(url.pathname, "/_next/image")
             || (|url.pathname| >= 12 && url.pathname[1..8] == "favicon" && url.pathname[9..12] == "ico")
    ensures Edge(hasSession, url) == Next
  {
    var p := url.pathname;
    var rest := p[1..];
    if StartsWith(p, "/_next/static") {
      assert p[..13] == "/_next/static";
      assert rest[..12] == p[..13][1..];
    } else if StartsWith(p, "/_next/image") {
      assert p[..12] == "/_next/image";
      assert rest[..11] == p[..12][1..];
    } else {
      assert rest[..7] == p[1..8];
      assert rest[8..11] == p[9..12];
    }
  }

  /** Every redirect target is itself a matched path, so the guard runs on it again. */
  lemma RedirectTargetsAreMatched(hasSession: bool, url: Url)
    requires Guard(hasSession, url).Redirect?
    ensures Matched(Guard(hasSession, url).location.pathname)
  {
    var p := Guard(hasSession, url).location.pathname;
    assert p[..1] == "/";
    assert p[1..][0] != '_' && p[1..][0] != 'f';
  }
}
