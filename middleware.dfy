/** The auth gate that runs before page requests: an anonymous visitor is sent
    to `/sign-in?redirectedFrom=<path>` unless the request URL names `/sign-in`
    or `/sign-up`; the route matcher decides which paths the gate sees at all. */
module Middleware {
  import opened Common
  import opened Text
  import Uri

  /** A parsed URL (`req.nextUrl`): origin, path and query parameters. */
  datatype Url = Url(origin: string, pathname: string, search: Uri.Params)

  /** The text of a URL: origin, path, then `?` and the query when there is one. */
  function Href(u: Url): string
  {
    u.origin + u.pathname + (if u.search == [] then "" else "?" + Uri.Serialize(u.search))
  }

  /** An incoming request: its URL as received (`req.url`) and parsed (`req.nextUrl`). */
  datatype Request = Request(url: string, nextUrl: Url)

  /** What the gate returns: the response prepared by the cookie adapter, left
      as it is, or a redirect. */
  datatype Outcome<R> = PassThrough(response: R) | RedirectTo(location: Url)

  const SignInPath := "/sign-in"
  const SignUpPath := "/sign-up"
  const RedirectedFrom := "redirectedFrom"

  /** The exemption is a substring test on the whole URL text. */
  predicate Exempt(url: string)
  {
    Contains(url, SignInPath) || Contains(url, SignUpPath)
  }

  /** The redirect target: the same URL with path `/sign-in` and the original
      path stored under `redirectedFrom`. */
  function SignInRedirect(u: Url): (t: Url)
    ensures t.origin == u.origin && t.pathname == SignInPath
  {
    u.(pathname := SignInPath, search := Uri.Set(u.search, RedirectedFrom, u.pathname))
  }

  /** `middleware(req)`, given what `getUser()` resolved to and the
      pass-through response the cookie adapter built. */
  function Gate<R>(user: Option<User>, req: Request, response: R): (r: Outcome<R>)
    ensures user.Some? ==> r == PassThrough(response)
    ensures r.RedirectTo? <==> user.None? && !Exempt(req.url)
    ensures r.PassThrough? ==> r.response == response
    ensures r.RedirectTo? ==> r.location == SignInRedirect(req.nextUrl)
  {
    if user.None? && !Contains(req.url, SignInPath) && !Contains(req.url, SignUpPath) then
      RedirectTo(SignInRedirect(req.nextUrl))
    else
      PassThrough(response)
  }

  /** The redirect keeps origin and every other query parameter with all its
      values in order; `redirectedFrom` holds exactly the original path. */
  lemma RedirectKeepsUrl<R>(req: Request, response: R, key: string)
    requires Gate(None, req, response).RedirectTo?
    ensures var t := Gate(None, req, response).location;
      t.origin == req.nextUrl.origin && t.pathname == SignInPath &&
      Uri.GetAll(t.search, RedirectedFrom) == [req.nextUrl.pathname] &&
      (key != RedirectedFrom ==> Uri.GetAll(t.search, key) == Uri.GetAll(req.nextUrl.search, key))
  {
    Uri.SetValues(req.nextUrl.search, RedirectedFrom, req.nextUrl.pathname, key);
  }

  /** Reading `redirectedFrom` back from the redirect's URL text gives the
      original path. */
  lemma RedirectedFromReadable<R>(req: Request, response: R)
    requires Gate(None, req, response).RedirectTo?
    ensures var t := Gate(None, req, response).location;
      Href(t) == t.origin + SignInPath + "?" + Uri.Serialize(t.search) &&
      Uri.Get(Uri.Parse(Uri.Serialize(t.search)), RedirectedFrom) == Some(req.nextUrl.pathname)
  {
    var t := Gate(None, req, response).location;
    Uri.SetValues(req.nextUrl.search, RedirectedFrom, req.nextUrl.pathname, RedirectedFrom);
    assert t.search != [] by {
      assert Uri.GetAll(t.search, RedirectedFrom) != [];
    }
    Uri.ParseSerialize(t.search);
    Uri.GetFromGetAll(t.search, RedirectedFrom);
  }

  /** No redirect loop: the request for the redirect target passes the gate
      even for an anonymous visitor. */
  lemma NoRedirectLoop<R>(req: Request, response: R, response': R)
    requires Gate(None, req, response).RedirectTo?
    ensures var t := Gate(None, req, response).location;
      Gate(None, Request(Href(t), t), response') == PassThrough(response')
  {
    var t := Gate(None, req, response).location;
    var query := if t.search == [] then "" else "?" + Uri.Serialize(t.search);
    ContainsMiddle(t.origin, SignInPath, query);
  }

  /** Any mention of `/sign-in` in the URL text exempts the request, the query
      included, whatever path was asked for. */
  lemma QueryMentionExempts<R>(req: Request, response: R, before: string, after: string)
    requires req.url == req.nextUrl.origin + req.nextUrl.pathname + "?" + before + SignInPath + after
    ensures Gate(None, req, response) == PassThrough(response)
  {
    ContainsMiddle(req.nextUrl.origin + req.nextUrl.pathname + "?" + before, SignInPath, after);
  }

  /** The sign-up page lives at `/signup`, which is not `/sign-up`: an anonymous
      visit to it is redirected to sign-in. */
  lemma SignupPageIsGated<R>(req: Request, response: R)
    requires req.url == req.nextUrl.origin + "/signup"
    requires !Exempt(req.nextUrl.origin)
    ensures Gate(None, req, response) == RedirectTo(SignInRedirect(req.nextUrl))
  {
    var o := req.nextUrl.origin;
    ShorterDoesNotContain("/signup", SignInPath);
    ShorterDoesNotContain("/signup", SignUpPath);
    ContainsSplit(o, "/signup", SignInPath, '/');
    ContainsSplit(o, "/signup", SignUpPath, '/');
  }

  // ---------------------------------------------------------------- matcher

  /** The alternatives of the negative look-ahead in `config.matcher`. Each is
      a regular expression: the `.` of `favicon.ico` matches any character. */
  const ExcludedPatterns: seq<string> := ["share", "api", "_next/static", "_next/image", "favicon.ico"]

  /** `s` begins with text the pattern matches (`.` standing for any character). */
  predicate PatternPrefix(s: string, pattern: string)
  {
    |pattern| <= |s| && forall i :: 0 <= i < |pattern| ==> pattern[i] == '.' || s[i] == pattern[i]
  }

  /** The path matches `/((?!share|api|_next/static|_next/image|favicon.ico).*)`:
      it starts with `/` and what follows does not start with an excluded pattern. */
  predicate Matched(pathname: string)
  {
    |pathname| > 0 && pathname[0] == '/' &&
    forall p :: p in ExcludedPatterns ==> !PatternPrefix(pathname[1..], p)
  }

  /** The whole pipeline for one request: the gate only runs on matched paths;
      on the others the request continues untouched. */
  function Handle<R>(user: Option<User>, req: Request, response: R): (r: Outcome<R>)
    ensures !Matched(req.nextUrl.pathname) ==> r == PassThrough(response)
    ensures Matched(req.nextUrl.pathname) ==> r == Gate(user, req, response)
  {
    if Matched(req.nextUrl.pathname) then Gate(user, req, response) else PassThrough(response)
  }

  /** The exclusion is a prefix test: every path that begins with `/api`,
      `/share`, `/_next/static` or `/_next/image` is never gated, `/apiary` included, and the
      wildcard lets `/faviconXico` through as well. */
  lemma ExcludedByPrefix<R>(user: Option<User>, req: Request, response: R, rest: string, x: char)
    requires req.nextUrl.pathname in ["/api" + rest, "/share" + rest, "/_next/static" + rest, "/_next/image" + rest, "/favicon" + [x] + "ico" + rest]
    ensures Handle(user, req, response) == PassThrough(response)
  {
    var path := req.nextUrl.pathname;
    var tail := path[1..];
    if path == "/api" + rest {
      assert tail == "api" + rest;
      assert PatternPrefix(tail, "api");
    } else if path == "/share" + rest {
      assert tail == "share" + rest;
      assert PatternPrefix(tail, "share");
    } else if path == "/_next/static" + rest {
      assert tail == "_next/static" + rest;
      assert PatternPrefix(tail, "_next/static");
    } else if path == "/_next/image" + rest {
      assert tail == "_next/image" + rest;
      assert PatternPrefix(tail, "_next/image");
    } else {
      assert tail == "favicon" + [x] + "ico" + rest;
      assert PatternPrefix(tail, "favicon.ico");
    }
  }

  /** Pages such as the home page, `/sign-in`, `/signup` and `/chat/<id>` are matched. */
  lemma PagesAreMatched(id: string)
    ensures Matched("/") && Matched("/sign-in") && Matched("/signup") && Matched("/chat/" + id)
  {
    forall p | p in ExcludedPatterns ensures !PatternPrefix("/sign-in"[1..], p) && !PatternPrefix("/signup"[1..], p) {
      assert "/sign-in"[1..][0] == 's' && "/signup"[1..][0] == 's';
      if p == "share" {
        assert "/sign-in"[1..][1] == 'i' && "/signup"[1..][1] == 'i';
      }
    }
    var chat := "/chat/" + id;
    forall p | p in ExcludedPatterns ensures !PatternPrefix(chat[1..], p) {
      assert chat[1..][0] == 'c';
    }
  }
}
