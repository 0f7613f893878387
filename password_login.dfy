/** The e-mail and password sign-in form. Error texts from the auth service
    are translated by two ordered substring rules; `onSubmit` is split at the
    await of `signInWithPassword` into `Submit` and `Settle`. */
module PasswordLogin {
  import opened Common
  import opened Text
  import AuthContext

  const InvalidCredentials := "Invalid login credentials"
  const EmailNotConfirmed := "Email not confirmed"
  const IncorrectText := "Incorrect email or password. " + "Please try again."
  const VerifyText := "Please verify your email address " + "before signing in."

  /** The text shown for an error message of the auth service. */
  function FriendlyError(message: string): (r: string)
    ensures Contains(message, InvalidCredentials) ==> r == IncorrectText
    ensures !Contains(message, InvalidCredentials) && Contains(message, EmailNotConfirmed) ==> r == VerifyText
    ensures !Contains(message, InvalidCredentials) && !Contains(message, EmailNotConfirmed) ==> r == message
  {
    if Contains(message, InvalidCredentials) then IncorrectText
    else if Contains(message, EmailNotConfirmed) then VerifyText
    else message
  }

  /** Neither translated text mentions either phrase: each lacks a letter
      the phrase has. */
  lemma TranslationsMatchNoRule()
    ensures !Contains(IncorrectText, InvalidCredentials) && !Contains(IncorrectText, EmailNotConfirmed)
    ensures !Contains(VerifyText, InvalidCredentials) && !Contains(VerifyText, EmailNotConfirmed)
  {
    IncorrectTextLacks();
    VerifyTextLacks();
  }

  lemma IncorrectTextLacks()
    ensures !Contains(IncorrectText, InvalidCredentials) && !Contains(IncorrectText, EmailNotConfirmed)
  {
    var a, b := "Incorrect email or password. ", "Please try again.";
    assert 'v' !in a && 'v' !in b && 'E' !in a && 'E' !in b;
    assert IncorrectText == a + b;
    MissingCharNotContained(IncorrectText, InvalidCredentials, 2);
    MissingCharNotContained(IncorrectText, EmailNotConfirmed, 0);
  }

  lemma VerifyTextLacks()
    ensures !Contains(VerifyText, InvalidCredentials) && !Contains(VerifyText, EmailNotConfirmed)
  {
    var a, b := "Please verify your email address ", "before signing in.";
    assert 'I' !in a && 'I' !in b && 'E' !in a && 'E' !in b;
    assert VerifyText == a + b;
    MissingCharNotContained(VerifyText, InvalidCredentials, 0);
    MissingCharNotContained(VerifyText, EmailNotConfirmed, 0);
  }

  /** Translating twice is translating once: a translated text passes
      through the rules unchanged. */
  lemma FriendlyErrorIdempotent(message: string)
    ensures FriendlyError(FriendlyError(message)) == FriendlyError(message)
  {
    TranslationsMatchNoRule();
  }

  /** A message with both phrases gets the credentials text: the first rule wins. */
  lemma FirstRuleWins(before: string, middle: string, after: string)
    ensures FriendlyError(before + InvalidCredentials + middle + EmailNotConfirmed + after) == IncorrectText
  {
    ContainsMiddle(before, InvalidCredentials, middle + EmailNotConfirmed + after);
    assert before + InvalidCredentials + middle + EmailNotConfirmed + after
        == before + InvalidCredentials + (middle + EmailNotConfirmed + after);
  }

  class PasswordLoginForm {
    var email: string
    var password: string
    var isLoading: bool
    var error: Option<string>
    /** The page `router.push` was last asked for. */
    var route: Option<string>
    /** How many times `signInWithPassword` was called. */
    var calls: nat

    constructor()
      ensures email == "" && password == ""
      ensures !isLoading && error.None? && route.None? && calls == 0
    {
      email, password := "", "";
      isLoading := false;
      error := None;
      route := None;
      calls := 0;
    }

    /** `onSubmit` up to the awaited sign-in: there is no check of its own,
        every submission reaches the auth service. */
    method Submit()
      modifies this
      ensures isLoading && error.None? && calls == old(calls) + 1
      ensures email == old(email) && password == old(password) && route == old(route)
    {
      isLoading := true;
      error := None;
      calls := calls + 1;
    }

    /** `onSubmit` after the sign-in answered. An error is translated; on
        success the context's `refreshSession` runs to its end (with `fetch`,
        what its `getSession` does) before the form goes to `/`. */
    method Settle(reply: Reply, auth: AuthContext.Provider, fetch: AuthContext.SessionFetch)
      requires auth.Valid()
      modifies this, auth
      ensures !isLoading && auth.Valid()
      ensures reply.Failed? ==> error == Some(FriendlyError(reply.message)) && route == old(route)
      ensures reply.Threw? ==> error == Some(UnexpectedError) && route == old(route)
      ensures !reply.Succeeded? ==> auth.session == old(auth.session) && auth.isLoading == old(auth.isLoading)
      ensures reply.Succeeded? ==> error == old(error) && route == Some("/") && !auth.isLoading
      ensures reply.Succeeded? && fetch.Fetched? ==> auth.session == fetch.session
      ensures reply.Succeeded? && fetch.FetchThrew? ==> auth.session == old(auth.session)
      ensures auth.route == old(auth.route) && auth.refreshes == old(auth.refreshes)
      ensures email == old(email) && password == old(password) && calls == old(calls)
    {
      match reply {
        case Failed(m) => error := Some(FriendlyError(m));
        case Threw => error := Some(UnexpectedError);
        case Succeeded =>
          auth.RefreshSession(fetch);
          route := Some("/");
      }
      isLoading := false;
    }

    /** One whole submission with the reply the sign-in would give and what
        the context's `getSession` would do on success. */
    method OnSubmit(reply: Reply, auth: AuthContext.Provider, fetch: AuthContext.SessionFetch)
      requires auth.Valid()
      modifies this, auth
      ensures !isLoading && auth.Valid() && calls == old(calls) + 1
      ensures reply.Failed? ==> error == Some(FriendlyError(reply.message)) && route == old(route)
      ensures reply.Threw? ==> error == Some(UnexpectedError) && route == old(route)
      ensures reply.Succeeded? ==> error.None? && route == Some("/") && !auth.isLoading
      ensures !reply.Succeeded? ==> auth.session == old(auth.session) && auth.isLoading == old(auth.isLoading)
      ensures reply.Succeeded? && fetch.Fetched? ==> auth.session == fetch.session
      ensures reply.Succeeded? && fetch.FetchThrew? ==> auth.session == old(auth.session)
      ensures auth.route == old(auth.route) && auth.refreshes == old(auth.refreshes)
      ensures email == old(email) && password == old(password)
    {
      Submit();
      Settle(reply, auth, fetch);
    }
  }
}
