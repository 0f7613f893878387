/** The update-password page a recovery link leads to. On mount it sends a
    visitor without a session to `/reset-password`; `handleSubmit` checks the
    new password and calls `updateUser`, split at the await into `Submit` and
    `Settle` as in the sign-up form. */
module UpdatePassword {
  import opened Common
  import PasswordRules

  const ResetPage := "/reset-password"
  const SignInPage := "/sign-in"

  class UpdatePasswordPage {
    var password: string
    var confirmPassword: string
    var isLoading: bool
    var error: Option<string>
    /** The page `router.push` was last asked for. */
    var route: Option<string>
    /** How many times `updateUser` was called. */
    var calls: nat

    constructor()
      ensures password == "" && confirmPassword == ""
      ensures !isLoading && error.None? && route.None? && calls == 0
    {
      password, confirmPassword := "", "";
      isLoading := false;
      error := None;
      route := None;
      calls := 0;
    }

    /** The mount effect, given what `getSession` resolved to. */
    method Mount(session: Option<Session>)
      modifies this
      ensures session.None? ==> route == Some(ResetPage)
      ensures session.Some? ==> route == old(route)
      ensures password == old(password) && confirmPassword == old(confirmPassword)
      ensures isLoading == old(isLoading) && error == old(error) && calls == old(calls)
    {
      if session.None? {
        route := Some(ResetPage);
      }
    }

    /** Typing into the two inputs. */
    method Edit(password': string, confirmPassword': string)
      modifies this
      ensures password == password' && confirmPassword == confirmPassword'
      ensures isLoading == old(isLoading) && error == old(error) && route == old(route) && calls == old(calls)
    {
      password, confirmPassword := password', confirmPassword';
    }

    /** `handleSubmit` up to the awaited `updateUser`. */
    method Submit()
      modifies this
      ensures var check := PasswordRules.ClientCheck(password, confirmPassword);
        (check.Some? ==> error == check && !isLoading && calls == old(calls)) &&
        (check.None? ==> error.None? && isLoading && calls == old(calls) + 1)
      ensures password == old(password) && confirmPassword == old(confirmPassword)
      ensures route == old(route)
    {
      isLoading := true;
      error := None;
      var check := PasswordRules.ClientCheck(password, confirmPassword);
      if check.Some? {
        error := check;
        isLoading := false;
      } else {
        calls := calls + 1;
      }
    }

    /** `handleSubmit` after `updateUser` answered: an error is shown verbatim,
        a throw shows the fixed text, success goes to the sign-in page. */
    method Settle(reply: Reply)
      modifies this
      ensures !isLoading
      ensures reply.Failed? ==> error == Some(reply.message) && route == old(route)
      ensures reply.Threw? ==> error == Some(UnexpectedError) && route == old(route)
      ensures reply.Succeeded? ==> error == old(error) && route == Some(SignInPage)
      ensures password == old(password) && confirmPassword == old(confirmPassword)
      ensures calls == old(calls)
    {
      match reply {
        case Failed(m) => error := Some(m);
        case Threw => error := Some(UnexpectedError);
        case Succeeded => route := Some(SignInPage);
      }
      isLoading := false;
    }

    /** One whole submission with the reply `updateUser` would give. */
    method HandleSubmit(reply: Reply)
      modifies this
      ensures !isLoading
      ensures var check := PasswordRules.ClientCheck(password, confirmPassword);
        (check.Some? ==> error == check && route == old(route) && calls == old(calls)) &&
        (check.None? ==> calls == old(calls) + 1) &&
        (check.None? && reply.Failed? ==> error == Some(reply.message) && route == old(route)) &&
        (check.None? && reply.Threw? ==> error == Some(UnexpectedError) && route == old(route)) &&
        (check.None? && reply.Succeeded? ==> error.None? && route == Some(SignInPage))
      ensures password == old(password) && confirmPassword == old(confirmPassword)
    {
      Submit();
      if isLoading {
        Settle(reply);
      }
    }
  }
}
