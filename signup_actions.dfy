/** The server actions behind the sign-up page: `signup`, which validates the
    submitted form and sorts the auth service's `signUp` reply, and
    `signupWithGithub`, which passes the OAuth reply on. The replies are inputs. */
module SignupActions {
  import opened Common
  import opened Text
  import PasswordRules

  /** The three form fields; a field the form did not send is `None`. */
  datatype FormData = FormData(email: Option<string>, password: Option<string>, confirmPassword: Option<string>)

  const FillAllFields := "Please fill in all fields"
  const ServerMismatch := "Passwords do not match"
  const AlreadyRegistered := "This email is already registered " + "but not confirmed. Please check your inbox."

  predicate Filled(f: FormData)
  {
    Truthy(f.email) && Truthy(f.password) && Truthy(f.confirmPassword)
  }

  /** The validation message, checked in order: empty fields, mismatch, length. */
  function Validate(f: FormData): (r: Option<string>)
    ensures !Filled(f) ==> r == Some(FillAllFields)
    ensures Filled(f) && f.password != f.confirmPassword ==> r == Some(ServerMismatch)
    ensures Filled(f) && f.password == f.confirmPassword && JsLength(f.password.value) < PasswordRules.MinLength ==>
      r == Some(PasswordRules.TooShort)
    ensures r.None? <==>
      Filled(f) && f.password == f.confirmPassword && JsLength(f.password.value) >= PasswordRules.MinLength
  {
    if !Filled(f) then Some(FillAllFields)
    else if f.password.value != f.confirmPassword.value then Some(ServerMismatch)
    else if JsLength(f.password.value) < PasswordRules.MinLength then Some(PasswordRules.TooShort)
    else None
  }

  /** The user record `signUp` returns: its identities and confirmation time. */
  datatype NewUser = NewUser(identities: Option<seq<string>>, emailConfirmedAt: Option<string>)

  /** What `signUp` did: resolved with an error, resolved with data, or threw. */
  datatype SignUpReply = SignUpError(message: string) | SignedUp(user: Option<NewUser>) | SignUpThrew

  /** What the action answers: `{error}`, `{success, confirmation}`, or the
      `redirect('/')` to the home page. */
  datatype SignupResult = ErrorResult(error: string) | NeedsConfirmation | RedirectHome

  datatype Answer = Answer(result: SignupResult, providerCalled: bool)

  /** `data?.user?.identities?.length === 0`. */
  predicate NoIdentities(user: Option<NewUser>)
  {
    user.Some? && user.value.identities.Some? && |user.value.identities.value| == 0
  }

  /** `!data?.user?.email_confirmed_at`. */
  predicate Unconfirmed(user: Option<NewUser>)
  {
    user.None? || !Truthy(user.value.emailConfirmedAt)
  }

  function Classify(reply: SignUpReply): (r: SignupResult)
    ensures reply.SignUpError? ==> r == ErrorResult(reply.message)
    ensures reply.SignUpThrew? ==> r == ErrorResult(UnexpectedError)
    ensures reply.SignedUp? ==>
      (r == ErrorResult(AlreadyRegistered) <==> NoIdentities(reply.user)) &&
      (r == NeedsConfirmation <==> !NoIdentities(reply.user) && Unconfirmed(reply.user)) &&
      (r == RedirectHome <==> !NoIdentities(reply.user) && !Unconfirmed(reply.user))
  {
    match reply
    case SignUpError(m) => ErrorResult(m)
    case SignUpThrew => ErrorResult(UnexpectedError)
    case SignedUp(user) =>
      if NoIdentities(user) then ErrorResult(AlreadyRegistered)
      else if Unconfirmed(user) then NeedsConfirmation
      else RedirectHome
  }

  /** `signup(formData)`. */
  function Signup(f: FormData, reply: SignUpReply): (r: Answer)
    ensures r.providerCalled <==> Validate(f).None?
    ensures Validate(f).Some? ==> r.result == ErrorResult(Validate(f).value)
    ensures Validate(f).None? ==> r.result == Classify(reply)
  {
    match Validate(f)
    case Some(m) => Answer(ErrorResult(m), false)
    case None => Answer(Classify(reply), true)
  }

  /** A form that fails validation never reaches the provider: the answer is
      the same whatever the provider would have replied. */
  lemma InvalidFormIgnoresReply(f: FormData, reply: SignUpReply, reply': SignUpReply)
    requires Validate(f).Some?
    ensures Signup(f, reply) == Signup(f, reply') && !Signup(f, reply).providerCalled
  {
  }

  /** A user already known (empty identity list) is refused even when the
      service also reports the address confirmed. */
  lemma AlreadyRegisteredWins(f: FormData, confirmedAt: string)
    requires Validate(f).None?
    ensures Signup(f, SignedUp(Some(NewUser(Some([]), Some(confirmedAt))))).result == ErrorResult(AlreadyRegistered)
  {
  }

  /** The server's mismatch text differs from the one the client forms show. */
  lemma MismatchTextsDiffer()
    ensures ServerMismatch != PasswordRules.ClientMismatch
  {
    assert ServerMismatch[10] == 'd';
    assert PasswordRules.ClientMismatch[10] == 'd';
    assert ServerMismatch[11] == 'o' && PasswordRules.ClientMismatch[11] == 'o';
    assert ServerMismatch[12] != PasswordRules.ClientMismatch[12];
  }

  /** When all fields are present the server and the client forms accept
      exactly the same passwords. */
  lemma ServerAgreesWithClient(f: FormData)
    requires Filled(f)
    ensures Validate(f).None? <==> PasswordRules.ClientCheck(f.password.value, f.confirmPassword.value).None?
  {
  }

  /** What `signInWithOAuth` resolved with: an error, or data with a URL. */
  datatype OAuthReply = OAuthFailed(message: string) | OAuthStarted(url: string)

  datatype GithubResult = GithubError(error: string) | GithubUrl(url: string)

  /** `signupWithGithub()`. */
  function SignupWithGithub(reply: OAuthReply): (r: GithubResult)
    ensures reply.OAuthFailed? <==> r.GithubError?
    ensures reply.OAuthFailed? ==> r.error == reply.message
    ensures reply.OAuthStarted? ==> r.url == reply.url
  {
    match reply
    case OAuthFailed(m) => GithubError(m)
    case OAuthStarted(u) => GithubUrl(u)
  }
}
