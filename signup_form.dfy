/** The client sign-up form. `onSubmit` runs in two steps: `Submit` is the
    part before the `signUp` call is awaited, `Settle` the part after it,
    with the auth service's reply as its parameter. */
module SignupForm {
  import opened Common
  import PasswordRules

  const ConfirmationPage := "/auth-confirmation"

  class SignUpForm {
    var email: string
    var password: string
    var confirmPassword: string
    var isLoading: bool
    var error: Option<string>
    /** The page `router.push` was last asked for. */
    var route: Option<string>
    /** How many times `signUp` was called. */
    var calls: nat

    constructor()
      ensures email == "" && password == "" && confirmPassword == ""
      ensures !isLoading && error.None? && route.None? && calls == 0
    {
      email, password, confirmPassword := "", "", "";
      isLoading := false;
      error := None;
      route := None;
      calls := 0;
    }

    /** Typing into the three inputs. */
    method Edit(email': string, password': string, confirmPassword': string)
      modifies this
      ensures email == email' && password == password' && confirmPassword == confirmPassword'
      ensures isLoading == old(isLoading) && error == old(error) && route == old(route) && calls == old(calls)
    {
      email, password, confirmPassword := email', password', confirmPassword';
    }

    /** `onSubmit` up to the awaited `signUp`: a failed check is shown and ends
        the submission; otherwise `signUp` is called and the form waits. */
    method Submit()
      modifies this
      ensures var check := PasswordRules.ClientCheck(password, confirmPassword);
        (check.Some? ==> error == check && !isLoading && calls == old(calls)) &&
        (check.None? ==> error.None? && isLoading && calls == old(calls) + 1)
      ensures email == old(email) && password == old(password) && confirmPassword == old(confirmPassword)
      ensures route == old(route)
    {
      isLoading := true;
      error := None;
      var check := PasswordRules.ClientCheck(password, confirmPassword);
      if check.Some? {
        error := check;
        isLoading := false;
      } else {
        calls := calls + 1;
      }
    }

    /** `onSubmit` after `signUp` answered: its error is shown verbatim, a
        throw shows the fixed text, success goes to the confirmation page;
        loading ends in every case. */
    method Settle(reply: Reply)
      modifies this
      ensures !isLoading
      ensures reply.Failed? ==> error == Some(reply.message) && route == old(route)
      ensures reply.Threw? ==> error == Some(UnexpectedError) && route == old(route)
      ensures reply.Succeeded? ==> error == old(error) && route == Some(ConfirmationPage)
      ensures email == old(email) && password == old(password) && confirmPassword == old(confirmPassword)
      ensures calls == old(calls)
    {
      match reply {
        case Failed(m) => error := Some(m);
        case Threw => error := Some(UnexpectedError);
        case Succeeded => route := Some(ConfirmationPage);
      }
      isLoading := false;
    }

    /** One whole submission with the reply `signUp` would give: the provider
        is called only when the checks pass, and loading is over at the end. */
    method OnSubmit(reply: Reply)
      modifies this
      ensures !isLoading
      ensures var check := PasswordRules.ClientCheck(password, confirmPassword);
        (check.Some? ==> error == check && route == old(route) && calls == old(calls)) &&
        (check.None? ==> calls == old(calls) + 1) &&
        (check.None? && reply.Failed? ==> error == Some(reply.message) && route == old(route)) &&
        (check.None? && reply.Threw? ==> error == Some(UnexpectedError) && route == old(route)) &&
        (check.None? && reply.Succeeded? ==> error.None? && route == Some(ConfirmationPage))
      ensures email == old(email) && password == old(password) && confirmPassword == old(confirmPassword)
    {
      Submit();
      if isLoading {
        Settle(reply);
      }
    }
  }
}
