/** `GET /auth/confirm`: the link in a confirmation or recovery e-mail lands
    here with `token_hash`, `type` and an optional `next`. The one-time token is
    verified for `type=email`, handed on unverified for `type=recovery`, and
    refused otherwise. The result of `verifyOtp` is an input. */
module ConfirmRoute {
  import opened Common
  import opened Text
  import Uri
  import ErrorPage

  /** What `verifyOtp` reported: no error, or an error with its message. */
  datatype Verification = Verified | VerifyFailed(message: string)

  /** The redirect the handler answers with, and whether it called `verifyOtp`. */
  datatype Redirect = Redirect(location: string, verifyCalled: bool)

  const MissingParams := "Missing token or type"
  const InvalidType := "Invalid token type"

  /** `/error?message=<encodeURIComponent(message)>` on the request's origin. */
  function ErrorRedirect(origin: string, message: string, called: bool): Redirect
  {
    Redirect(origin + "/error?" + ("message=" + Uri.Encode(message)), called)
  }

  /** The handler once `next` has been resolved to the path to land on. */
  function ConfirmTo(origin: string, tokenHash: Option<string>, kind: Option<string>, next: string,
                     verification: Verification): Redirect
  {
    if !Truthy(tokenHash) || !Truthy(kind) then ErrorRedirect(origin, MissingParams, false)
    else if kind.value == "email" then
      match verification
      case VerifyFailed(m) => ErrorRedirect(origin, m, true)
      case Verified => Redirect(origin + next, true)
    else if kind.value == "recovery" then
      Redirect(origin + "/reset-password?token_hash=" + tokenHash.value, false)
    else ErrorRedirect(origin, InvalidType, false)
  }

  /** `GET(request)` for a request with origin `origin` and query `query`. */
  function Confirm(origin: string, query: Uri.Params, verification: Verification): (r: Redirect)
    ensures !Truthy(Uri.Get(query, "token_hash")) || !Truthy(Uri.Get(query, "type")) ==>
      r == ErrorRedirect(origin, MissingParams, false)
    ensures r.verifyCalled <==>
      Truthy(Uri.Get(query, "token_hash")) && Uri.Get(query, "type") == Some("email")
  {
    ConfirmTo(origin, Uri.Get(query, "token_hash"), Uri.Get(query, "type"),
              OrElse(Uri.Get(query, "next"), "/"), verification)
  }

  /** The branches on `type`, once both parameters are present: `email` goes to
      `next` (default `/`) or to the error page with the verifier's message,
      `recovery` forwards the raw token to `/reset-password` whatever the
      verifier would say and wherever `next` points, anything else is refused. */
  lemma ConfirmByType(origin: string, query: Uri.Params, verification: Verification, verification': Verification)
    requires Truthy(Uri.Get(query, "token_hash")) && Truthy(Uri.Get(query, "type"))
    ensures var t := Uri.Get(query, "token_hash").value;
      var kind := Uri.Get(query, "type").value;
      var next := Uri.Get(query, "next");
      var r := Confirm(origin, query, verification);
      (kind == "email" && verification == Verified ==>
        r.location == origin + (if Truthy(next) then next.value else "/")) &&
      (kind == "email" && verification.VerifyFailed? ==>
        r == ErrorRedirect(origin, verification.message, true)) &&
      (kind == "recovery" ==>
        r == Confirm(origin, query, verification') &&
        r.location == origin + "/reset-password?token_hash=" + t) &&
      (kind != "email" && kind != "recovery" ==>
        r == ErrorRedirect(origin, InvalidType, false))
  {
  }

  /** Whatever the verifier reports, the error page shows it: the message goes
      under the key the page reads. An empty message shows the page's default. */
  lemma VerifyErrorIsShown(origin: string, query: Uri.Params, m: string)
    requires Truthy(Uri.Get(query, "token_hash")) && Uri.Get(query, "type") == Some("email")
    ensures var q := "message=" + Uri.Encode(m);
      Confirm(origin, query, VerifyFailed(m)).location == origin + "/error?" + q &&
      ErrorPage.Shown(q) == if m == "" then ErrorPage.DefaultMessage else m
  {
    ErrorPage.ShowsEncodedMessage(m);
  }

  // ------------------------------------------------------- open redirect

  /** As written, `next` is glued to the origin unchecked: a `next` that does
      not begin with `/` changes the host. With origin `https://chat.example`
      and `next=.evil.example`, a verified link lands on
      `https://chat.example.evil.example`. */
  lemma NextLeavesOrigin(query: Uri.Params)
    requires Uri.Get(query, "token_hash") == Some("t0k3n") && Uri.Get(query, "type") == Some("email")
    requires Uri.Get(query, "next") == Some(".evil.example")
    ensures var r := Confirm("https://chat.example", query, Verified);
      r.location == "https://chat.example.evil.example" &&
      !SameOrigin(r.location, "https://chat.example")
  {
    var r := Confirm("https://chat.example", query, Verified);
    assert r.location[20] == '.';
  }

  /** The handler with `next` restricted to paths. */
  function ConfirmSafe(origin: string, query: Uri.Params, verification: Verification): Redirect
  {
    ConfirmTo(origin, Uri.Get(query, "token_hash"), Uri.Get(query, "type"),
              SafeNext(Uri.Get(query, "next")), verification)
  }

  /** Every redirect of the corrected handler stays on the origin, and it
      agrees with the handler as written whenever `next` is absent or a path. */
  lemma ConfirmSafeStaysOnOrigin(origin: string, query: Uri.Params, verification: Verification)
    ensures SameOrigin(ConfirmSafe(origin, query, verification).location, origin)
    ensures var next := Uri.Get(query, "next");
      !Truthy(next) || next.value[0] == '/' ==>
        ConfirmSafe(origin, query, verification) == Confirm(origin, query, verification)
  {
    var th, kind := Uri.Get(query, "token_hash"), Uri.Get(query, "type");
    var next := SafeNext(Uri.Get(query, "next"));
    if !Truthy(th) || !Truthy(kind) {
      ErrorPageOnOrigin(origin, MissingParams, false);
    } else if kind.value == "email" {
      match verification
      case VerifyFailed(m) => ErrorPageOnOrigin(origin, m, true);
      case Verified => OriginThenPath(origin, next);
    } else if kind.value == "recovery" {
      var tail := "/reset-password?token_hash=" + th.value;
      assert origin + "/reset-password?token_hash=" + th.value == origin + tail;
      OriginThenPath(origin, tail);
    } else {
      ErrorPageOnOrigin(origin, InvalidType, false);
    }
  }

  lemma ErrorPageOnOrigin(origin: string, message: string, called: bool)
    ensures SameOrigin(ErrorRedirect(origin, message, called).location, origin)
  {
    var tail := "/error?" + ("message=" + Uri.Encode(message));
    assert ErrorRedirect(origin, message, called).location == origin + tail;
    OriginThenPath(origin, tail);
  }
}
