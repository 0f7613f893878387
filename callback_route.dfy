/** `GET /auth/callback`: the OAuth provider sends the browser back here with a
    `code` to exchange for a session, or with `error` and `error_description`.
    The result of `exchangeCodeForSession` is an input. */
module CallbackRoute {
  import opened Common
  import opened Text
  import Uri
  import ErrorPage

  /** What `exchangeCodeForSession` did: succeeded, resolved with an error, or threw. */
  datatype Exchange = Exchanged | ExchangeFailed(message: string) | ExchangeThrew

  /** The redirect the handler answers with, and whether it exchanged the code. */
  datatype Redirect = Redirect(location: string, exchangeCalled: bool)

  const AuthenticationError := "Authentication error"

  /** `/error?error=<encodeURIComponent(message)>` on the request's origin. */
  function ErrorRedirect(origin: string, message: string, called: bool): Redirect
  {
    Redirect(origin + "/error?" + ("error=" + Uri.Encode(message)), called)
  }

  /** The handler once `next` has been resolved to the path to land on. */
  function CallbackTo(origin: string, code: Option<string>, error: Option<string>,
                      description: Option<string>, next: string, exchange: Exchange): Redirect
  {
    if Truthy(error) || !Truthy(code) then
      ErrorRedirect(origin, OrElse(description, AuthenticationError), false)
    else
      match exchange
      case ExchangeFailed(m) => ErrorRedirect(origin, m, true)
      case ExchangeThrew => ErrorRedirect(origin, UnexpectedError, true)
      case Exchanged => Redirect(origin + next, true)
  }

  /** `GET(request)` for a request with origin `origin` and query `query`. */
  function Callback(origin: string, query: Uri.Params, exchange: Exchange): (r: Redirect)
    ensures r.exchangeCalled <==> !Truthy(Uri.Get(query, "error")) && Truthy(Uri.Get(query, "code"))
    ensures !r.exchangeCalled ==>
      r == ErrorRedirect(origin, OrElse(Uri.Get(query, "error_description"), AuthenticationError), false)
  {
    CallbackTo(origin, Uri.Get(query, "code"), Uri.Get(query, "error"), Uri.Get(query, "error_description"),
               OrElse(Uri.Get(query, "next"), "/"), exchange)
  }

  /** Once the code is exchanged: success lands on `next` (default `/`), a
      reported error carries its message, a throw carries the fixed text. */
  lemma CallbackByExchange(origin: string, query: Uri.Params, exchange: Exchange)
    requires !Truthy(Uri.Get(query, "error")) && Truthy(Uri.Get(query, "code"))
    ensures var r := Callback(origin, query, exchange);
      var next := Uri.Get(query, "next");
      (exchange == Exchanged ==> r.location == origin + (if Truthy(next) then next.value else "/")) &&
      (exchange.ExchangeFailed? ==> r == ErrorRedirect(origin, exchange.message, true)) &&
      (exchange == ExchangeThrew ==> r == ErrorRedirect(origin, UnexpectedError, true))
  {
  }

  lemma ErrorKeyEncoded()
    ensures Uri.Encode("error") == "error"
  {
  }

  /** The error page reads `message`, but this route writes `error`: whatever
      the failure, the page shows only its default text. */
  lemma ErrorTextNeverShown(origin: string, query: Uri.Params, exchange: Exchange)
    requires !Callback(origin, query, exchange).exchangeCalled || exchange != Exchanged
    ensures exists m: string :: var q := "error=" + Uri.Encode(m);
      Callback(origin, query, exchange).location == origin + "/error?" + q &&
      ErrorPage.Shown(q) == ErrorPage.DefaultMessage
  {
    var r := Callback(origin, query, exchange);
    var m := if r.exchangeCalled && exchange.ExchangeFailed? then exchange.message
      else if r.exchangeCalled then UnexpectedError
      else OrElse(Uri.Get(query, "error_description"), AuthenticationError);
    var q := "error=" + Uri.Encode(m);
    assert "error=" == "error" + "=";
    assert q == Uri.Encode("error") + "=" + Uri.Encode(m) by { ErrorKeyEncoded(); }
    ErrorPage.IgnoresOtherKey("error", m);
  }

  // ------------------------------------------------------- open redirect

  /** As written, `next` is glued to the origin unchecked: with origin
      `https://chat.example` and `next=.evil.example`, a successful sign-in
      lands on `https://chat.example.evil.example`. */
  lemma NextLeavesOrigin(query: Uri.Params)
    requires Uri.Get(query, "code") == Some("c0de") && Uri.Get(query, "error") == None
    requires Uri.Get(query, "next") == Some(".evil.example")
    ensures var r := Callback("https://chat.example", query, Exchanged);
      r.location == "https://chat.example.evil.example" &&
      !SameOrigin(r.location, "https://chat.example")
  {
    var r := Callback("https://chat.example", query, Exchanged);
    assert r.location[20] == '.';
  }

  /** The handler with `next` restricted to paths. */
  function CallbackSafe(origin: string, query: Uri.Params, exchange: Exchange): Redirect
  {
    CallbackTo(origin, Uri.Get(query, "code"), Uri.Get(query, "error"), Uri.Get(query, "error_description"),
               SafeNext(Uri.Get(query, "next")), exchange)
  }

  lemma ErrorPageOnOrigin(origin: string, message: string, called: bool)
    ensures SameOrigin(ErrorRedirect(origin, message, called).location, origin)
  {
    var tail := "/error?" + ("error=" + Uri.Encode(message));
    assert ErrorRedirect(origin, message, called).location == origin + tail;
    OriginThenPath(origin, tail);
  }

  /** Every redirect of the corrected handler stays on the origin, and it
      agrees with the handler as written whenever `next` is absent or a path. */
  lemma CallbackSafeStaysOnOrigin(origin: string, query: Uri.Params, exchange: Exchange)
    ensures SameOrigin(CallbackSafe(origin, query, exchange).location, origin)
    ensures var next := Uri.Get(query, "next");
      !Truthy(next) || next.value[0] == '/' ==>
        CallbackSafe(origin, query, exchange) == Callback(origin, query, exchange)
  {
    if Truthy(Uri.Get(query, "error")) || !Truthy(Uri.Get(query, "code")) {
      ErrorPageOnOrigin(origin, OrElse(Uri.Get(query, "error_description"), AuthenticationError), false);
    } else {
      match exchange
      case ExchangeFailed(m) => ErrorPageOnOrigin(origin, m, true);
      case ExchangeThrew => ErrorPageOnOrigin(origin, UnexpectedError, true);
      case Exchanged => OriginThenPath(origin, SafeNext(Uri.Get(query, "next")));
    }
  }
}
