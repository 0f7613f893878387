# Auth and chat glue of the Next.js AI chatbot, modelled in Dafny

The chatbot sits on a hosted auth service and a hosted completion API. Around
those calls it has a set of small decision rules, and this project models
them:

- the auth gate that runs before page requests, and the route matcher that
  decides which paths the gate sees (`Middleware`);
- the two redirect routes that finish e-mail confirmation (`ConfirmRoute`)
  and OAuth sign-in (`CallbackRoute`). The error page they redirect to is
  modelled too (`ErrorPage`), so a redirect can be read back as the page
  reads it;
- the server-side identity lookup and its classification of expected errors
  (`Identity`);
- the sign-up server actions (`SignupActions`) and the password checks the
  client forms share (`PasswordRules`);
- the client sign-up form (`SignupForm`), the update-password page
  (`UpdatePassword`) and the password sign-in form with its error
  translation (`PasswordLogin`);
- the chat API route: the caller check, the stored transcript and the
  error-to-status mapping (`ChatRoute`);
- the browser-side session context (`AuthContext`).

Every call to the auth service, the completion service or the database
becomes a parameter: its reply, its error, or the fact that it threw. Pure
decision code is written as functions and lemmas. Components whose state
changes step by step are classes. Their fields are the component's state
(`isLoading`, `error`, `session`, `user`), plus the page last navigated to
and the number of provider calls. An `async` handler that awaits a provider
is split at the await: `Submit` runs up to the call and `Settle` runs after
it, taking the reply. A third method runs the whole handler.

Three library behaviours are written out concretely so that a URL built by
one part of the code can be parsed by another (`Common`, `Text`, `Uri`):

- `encodeURIComponent`, as UTF-8 and `%XY` escapes, with its decoding;
- `URLSearchParams`: `get`, `set`, and parsing and serialising a query;
- JavaScript's `||`, `??` and truthiness, and string `length` and
  `substring` in UTF-16 units.

## Model

| member | source | states |
|---|---|---|
| Middleware.Gate | middleware.ts:17-28 | a signed-in user gets the prepared response unchanged; an anonymous request is redirected exactly when its URL text contains neither `/sign-in` nor `/sign-up`, and the redirect is the sign-in rewrite of the request URL |
| Middleware.SignInRedirect | middleware.ts:22-24 | the redirect keeps the origin and its path is `/sign-in` |
| Middleware.RedirectKeepsUrl | middleware.ts:22-25 | the redirect keeps the origin, `redirectedFrom` holds exactly the original path, and every other query parameter keeps all its values in order |
| Middleware.RedirectedFromReadable | middleware.ts:22-25 | parsing the redirect URL's query text gives back the original path under `redirectedFrom` |
| Middleware.NoRedirectLoop | middleware.ts:17-25 | an anonymous request for the redirect target passes the gate |
| Middleware.QueryMentionExempts | middleware.ts:17-20 | `/sign-in` anywhere in the URL, query included, lets an anonymous request through |
| Middleware.SignupPageIsGated | middleware.ts:17-20 | an anonymous request for `/signup` (the real sign-up page) is redirected to sign-in |
| Middleware.Handle | middleware.ts:31-43 | the gate runs on matched paths only; unmatched paths pass untouched |
| Middleware.ExcludedByPrefix | middleware.ts:41 | every path starting with `/api`, `/share`, `/_next/static`, `/_next/image`, or `/favicon` + any character + `ico`, passes untouched |
| Middleware.PagesAreMatched | middleware.ts:41 | `/`, `/sign-in`, `/signup` and `/chat/<id>` are matched |
| Uri.Get | app/auth/confirm/route.ts:6-8 | `searchParams.get`: the first value under the key, or none |
| Uri.SetValues | middleware.ts:24 | after `searchParams.set(k, v)`, `k` holds exactly `[v]` and every other key is unchanged |
| Uri.DecodeEncode | app/auth/confirm/route.ts:26 | decoding `encodeURIComponent(s)` gives back `s` |
| Uri.EncodeHasNoDelimiters | app/auth/confirm/route.ts:26 | an encoded text contains none of `& = + # ? /` |
| Uri.ParseSerialize | middleware.ts:24-25 | parsing a serialised query gives back the same parameters |
| ErrorPage.Shown | app/error/page.tsx:9 | without a `message` parameter the page shows `An error occurred` |
| ErrorPage.SinglePair | app/error/page.tsx:8-9 | a query of one encoded pair is read back as that pair |
| ErrorPage.ShowsEncodedMessage | app/error/page.tsx:9 | `message=<encoded m>` shows `m`, or the default text when `m` is empty |
| ErrorPage.IgnoresOtherKey | app/error/page.tsx:9 | text under any other key shows the default text |
| Common.OrElse | app/auth/confirm/route.ts:8 | `x \|\| d`: the value when it is a non-empty string, else the default |
| Common.Coalesce | app/api/chat/route.ts:52 | `x ?? d`: only an absent value takes the default |
| ConfirmRoute.Confirm | app/auth/confirm/route.ts:4-41 | a missing or empty `token_hash` or `type` redirects to the `Missing token or type` error; verification happens exactly when both are present and `type` is `email` |
| ConfirmRoute.ConfirmByType | app/auth/confirm/route.ts:18-41 | `email` with success goes to origin + `next` (default `/`); `email` with an error goes to the error page with its message; `recovery` goes to `/reset-password?token_hash=<raw token>` whatever the verifier would say; other types get `Invalid token type` |
| ConfirmRoute.VerifyErrorIsShown | app/auth/confirm/route.ts:24-28 | the error page shows the verifier's message |
| ConfirmRoute.NextLeavesOrigin | app/auth/confirm/route.ts:8-41 | as written, `next=.evil.example` sends a verified link to `https://chat.example.evil.example`, off the origin |
| Text.SafeNext | app/auth/confirm/route.ts:8 | the corrected `next` always starts with `/` and keeps any value that does |
| ConfirmRoute.ErrorPageOnOrigin | app/auth/confirm/route.ts:11-13 | every error redirect stays on the origin |
| ConfirmRoute.ConfirmSafeStaysOnOrigin | app/auth/confirm/route.ts:10-41 | with `next` restricted to paths, every redirect stays on the origin, and the handler is unchanged when `next` is absent or a path |
| CallbackRoute.Callback | app/auth/callback/route.ts:5-40 | the code is exchanged exactly when `code` is present and `error` is absent; otherwise the redirect carries `error_description` or `Authentication error` |
| CallbackRoute.CallbackByExchange | app/auth/callback/route.ts:20-40 | success goes to origin + `next` (default `/`); an exchange error carries its message; a throw carries `An unexpected error occurred` |
| CallbackRoute.ErrorTextNeverShown | app/auth/callback/route.ts:13-40 | every error redirect writes its text under `error`, which the error page ignores, so the page shows only its default |
| CallbackRoute.NextLeavesOrigin | app/auth/callback/route.ts:10-34 | as written, `next=.evil.example` sends a signed-in user to `https://chat.example.evil.example` |
| CallbackRoute.ErrorPageOnOrigin | app/auth/callback/route.ts:15-17 | every error redirect stays on the origin |
| CallbackRoute.CallbackSafeStaysOnOrigin | app/auth/callback/route.ts:13-40 | with `next` restricted to paths, every redirect stays on the origin, and the handler is unchanged when `next` is absent or a path |
| Identity.Auth | auth.ts:22-48 | no error gives the data unchanged, without logging; an error or a throw gives null; a reported error is logged exactly when it contains none of the five expected texts; a thrown non-`Error` is never logged |
| Identity.NullUnlessClean | auth.ts:28-39 | data is returned exactly when `getUser` resolved without an error |
| Identity.ExpectedBySubstring | auth.ts:6-32 | any message containing a listed text, such as `JWT expired at …`, is expected and not logged |
| Identity.CaseMatters | auth.ts:6-32 | `invalid jwt` matches no listed text and is logged |
| Text.JsLength | app/signup/actions.ts:21 | `length` counts UTF-16 units, at least one per character |
| Text.JsTake | app/api/chat/route.ts:51 | `substring(0, n)`: a prefix of length at most `n`, the whole text when it fits, and as long as whole characters allow |
| PasswordRules.ClientCheck | components/signup-form.tsx:27-40 | a mismatch gives `Passwords don't match`; otherwise a password shorter than 8 gives the length message; the check passes exactly when both pass |
| PasswordRules.MismatchFirst | components/signup-form.tsx:27-40 | a mismatched short password gets the mismatch message |
| PasswordRules.AstralLength | components/signup-form.tsx:35 | characters outside the Basic Multilingual Plane count twice |
| PasswordRules.FourEmojiAreLongEnough | components/signup-form.tsx:35-40 | four emoji pass the 8-character minimum |
| SignupActions.Validate | app/signup/actions.ts:12-23 | in order: any empty field gives `Please fill in all fields`, then a mismatch gives `Passwords do not match`, then a short password gives the length message; it passes exactly when all three checks pass |
| SignupActions.Classify | app/signup/actions.ts:37-58 | a provider error is returned verbatim and a throw gives `An unexpected error occurred`; an empty identity list gives the already-registered error, a missing confirmation time gives the confirmation result, anything else the home redirect |
| SignupActions.Signup | app/signup/actions.ts:7-59 | the provider is called exactly when validation passes; a validation message is the answer, otherwise the classified reply is |
| SignupActions.InvalidFormIgnoresReply | app/signup/actions.ts:13-29 | a form that fails validation gives the same answer whatever the provider would reply |
| SignupActions.AlreadyRegisteredWins | app/signup/actions.ts:45-47 | an empty identity list is refused even when the address is confirmed |
| SignupActions.MismatchTextsDiffer | app/signup/actions.ts:17-19 | the server's mismatch text is not the client forms' text |
| SignupActions.ServerAgreesWithClient | app/signup/actions.ts:17-23 | with all fields present, the server and the client accept the same passwords |
| SignupActions.SignupWithGithub | app/signup/actions.ts:61-76 | an OAuth error gives `{error}` with its message; otherwise `{url}` |
| SignupForm.SignUpForm.constructor | components/signup-form.tsx:13-17 | empty fields, not loading, no error |
| SignupForm.SignUpForm.Edit | components/signup-form.tsx:14-16 | typing sets the three fields and nothing else |
| SignupForm.SignUpForm.Submit | components/signup-form.tsx:21-49 | the error is cleared; a failed check is shown, loading ends and `signUp` is not called; otherwise `signUp` is called and the form is loading |
| SignupForm.SignUpForm.Settle | components/signup-form.tsx:51-65 | a provider error is shown verbatim; a throw shows `An unexpected error occurred`; success goes to `/auth-confirmation`; loading is false in every case |
| SignupForm.SignUpForm.OnSubmit | components/signup-form.tsx:21-66 | a whole submission: `signUp` is called only when the checks pass, loading is false at the end, and the error and page are as above |
| UpdatePassword.UpdatePasswordPage.constructor | app/update-password/page.tsx:12-15 | empty fields, not loading, no error |
| UpdatePassword.UpdatePasswordPage.Mount | app/update-password/page.tsx:20-32 | without a session the page goes to `/reset-password`; with one nothing changes |
| UpdatePassword.UpdatePasswordPage.Edit | app/update-password/page.tsx:13-14 | typing sets the two fields and nothing else |
| UpdatePassword.UpdatePasswordPage.Submit | app/update-password/page.tsx:34-58 | the error is cleared; a failed check is shown and `updateUser` is not called; otherwise `updateUser` is called and the page is loading |
| UpdatePassword.UpdatePasswordPage.Settle | app/update-password/page.tsx:60-74 | a provider error is shown verbatim; a throw shows the fixed text; success goes to `/sign-in`; loading is false in every case |
| UpdatePassword.UpdatePasswordPage.HandleSubmit | app/update-password/page.tsx:34-75 | a whole submission: `updateUser` is called only when both checks pass, and loading is false at the end |
| PasswordLogin.FriendlyError | components/password-login-form.tsx:33-43 | a message containing `Invalid login credentials` becomes the incorrect-credentials text; otherwise one containing `Email not confirmed` becomes the verify-your-email text; any other message passes through verbatim |
| PasswordLogin.TranslationsMatchNoRule | components/password-login-form.tsx:37-41 | neither translated text contains either phrase |
| PasswordLogin.FriendlyErrorIdempotent | components/password-login-form.tsx:34-43 | translating twice gives the same text as translating once |
| PasswordLogin.FirstRuleWins | components/password-login-form.tsx:37-41 | a message with both phrases gets the incorrect-credentials text |
| PasswordLogin.PasswordLoginForm.constructor | components/password-login-form.tsx:14-17 | empty fields, not loading, no error |
| PasswordLogin.PasswordLoginForm.Submit | components/password-login-form.tsx:22-31 | there is no client check: every submission clears the error, starts loading and calls the provider |
| PasswordLogin.PasswordLoginForm.OnSubmit | components/password-login-form.tsx:22-60 | a whole submission: the provider is called once, loading is false at the end, the error and page are as for `Settle`, and the context's page and refresh count are left alone |
| PasswordLogin.PasswordLoginForm.Settle | components/password-login-form.tsx:33-59 | an error is shown translated; a throw shows the fixed text; on success the context's session refresh has finished before the form goes to `/`; the context's page and refresh count are left alone; loading is false in every case |
| ChatRoute.UserId | app/api/chat/route.ts:28-29 | the caller's id when there is a user with a non-empty id |
| ChatRoute.ErrorResponse | app/api/chat/route.ts:94-102 | a database-client error gives 403 `Database access error`, any other error 500 `Internal server error` |
| ChatRoute.Post | app/api/chat/route.ts:20-104 | an unreadable body gives 500; no caller id gives 401 `Unauthorized` and no completion request; a completion is requested exactly when there is a body and a caller; the answer streams exactly when the completion starts and wrapping it does not throw |
| ChatRoute.OnCompletion | app/api/chat/route.ts:49-68 | with no first message nothing is stored; otherwise the row key is the payload id, the id is the request id or the generated one, the path is `/chat/<id>`, the title is a prefix of the first message of length at most 100, the title is the first 100 UTF-16 units taken in whole characters, and the messages are the request's followed by the assistant's completion |
| ChatRoute.TranscriptLength | app/api/chat/route.ts:61-67 | the transcript has one message more than the request, and the last one is the assistant's |
| ChatRoute.Upsert | app/api/chat/route.ts:71-77 | a successful upsert stores the payload under its id and leaves other ids alone; a failed one changes nothing |
| ChatRoute.UpsertOverwrites | app/api/chat/route.ts:71 | storing the same id twice keeps the later payload |
| AuthContext.Provider.constructor | contexts/auth-context.tsx:19-21 | no session, no user, loading |
| AuthContext.Provider.LoadInitial | contexts/auth-context.tsx:27-38 | loading ends whatever `getSession` does; a returned session replaces the current one and the user follows it |
| AuthContext.Provider.OnAuthStateChange | contexts/auth-context.tsx:44-53 | every event replaces the session and the user follows it; only `SIGNED_OUT` refreshes the view |
| AuthContext.Provider.SignOut | contexts/auth-context.tsx:63-75 | session and user are left alone; unless the call throws, the provider goes to `/sign-in` and refreshes; loading ends |
| AuthContext.Provider.RefreshSession | contexts/auth-context.tsx:78-89 | a returned session replaces the current one; a throw leaves session and user unchanged; loading ends |
| AuthContext.LastEventWins | contexts/auth-context.tsx:44-47 | after two events the session is the second event's |
| AuthContext.UseAuth | contexts/auth-context.tsx:98-104 | outside a provider it fails with `useAuth must be used within an AuthProvider`; inside one it gives the provider |

## Left out

- The `previewToken` override (app/api/chat/route.ts:37-39) writes to a configuration shared by every request. It does not affect any answer modelled here.
- `Date.now()` and `nanoid()` are parameters of `ChatRoute.OnCompletion`.
- The completion stream itself, the OpenAI request fields and the streaming response are represented only by whether they threw.
- Toasts and `console` logging are not modelled. The only exception is `Identity.Auth`, which records whether it logged.
- The subscription to auth events is not modelled, and neither is its clean-up when the component unmounts. Each event is one `OnAuthStateChange` call.
- `LoadInitial`, `SignOut` and `RefreshSession` set `isLoading` to true and back to false within one call, so the true value cannot be seen between calls; the await in the middle is not modelled.
- `SignupActions.Classify`: `redirect('/')` is modelled as the home-redirect result. In Next.js, `redirect()` works by throwing, and this call sits inside the `try` whose `catch` answers `An unexpected error occurred`. What happens then depends on the framework, which is not part of this model.
- CallbackRoute.CallbackByExchange: the location is the text handed to `NextResponse.redirect`. That call parses it as a URL, normalising it and throwing on a malformed one; neither is modelled. In the callback route the success redirect sits inside the `try`, so a malformed `next` such as `:x` really ends on the unexpected-error page, while the model gives origin + `next`.
- ConfirmRoute.ConfirmByType: the same holds for the confirm route's redirects, where the throw of a malformed URL is not caught at all.
- An exception that escapes a handler with no `try` is not modelled. One example is `verifyOtp` throwing in the confirm route. Next.js answers 500 for such an exception, and that is outside this model.
- `formData.get` returning a `File` value instead of a string is not modelled.
- The browser's `required` attribute on the form inputs is not modelled.
- Uri.Serialize: `URLSearchParams` serialises with the form-encoding alphabet (a space becomes `+`). The model uses the `encodeURIComponent` alphabet instead. Both are read back the same way by `Uri.Parse`.
- Uri.Decode: in `Uri.DecodeComponent`, a text whose escapes do not form valid UTF-8 keeps the whole component as written (after `+` becomes a space), valid escapes in it included, where the browser would put U+FFFD for the bad bytes only. A malformed escape such as `%zz` is kept as written, as the browser does.
- Middleware.Handle: the matcher's regular expression is modelled as the prefix test it amounts to. Next.js's own path normalisation (locales, trailing slashes, `basePath`) is not modelled.
- Text.JsTake: `substring(0, n)` is taken in whole characters. When unit `n` falls inside a surrogate pair, JavaScript keeps the pair's first half and the model drops the pair.
- ChatRoute.OnCompletion: the title is cut at a whole character. When the 100th UTF-16 unit is the first half of a surrogate pair, JavaScript keeps that half and the model drops it.
- ChatRoute.OnCompletion: a first message whose `content` is not a string is not modelled.
- The cookie adapters, the OTP and OAuth buttons, and the page components are not part of this model. The error page is the exception: its one rule is modelled in `ErrorPage`.

## Findings

| source | as written | input that shows it | evidently intended | confidence | as-written member | corrected member |
|---|---|---|---|---|---|---|
| app/auth/confirm/route.ts:41 | the redirect is the origin followed by `next`, with `next` unchecked | origin `https://chat.example`, `type=email`, `next=.evil.example`: a verified link lands on `https://chat.example.evil.example` | `next` is a path on the same origin | not executed | ConfirmRoute.NextLeavesOrigin | ConfirmRoute.ConfirmSafeStaysOnOrigin |
| app/auth/callback/route.ts:34 | the redirect is the origin followed by `next`, with `next` unchecked | origin `https://chat.example`, a valid `code`, `next=.evil.example`: the user lands on `https://chat.example.evil.example` | `next` is a path on the same origin | not executed | CallbackRoute.NextLeavesOrigin | CallbackRoute.CallbackSafeStaysOnOrigin |
