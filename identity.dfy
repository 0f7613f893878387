/** `auth()`: the server-side identity lookup. The auth service's `getUser`
    reply (or what it threw) is an input; the lookup answers the user data or
    `null`, and logs only errors it does not recognise. */
module Identity {
  import opened Common
  import opened Text

  /** Error texts that are part of normal operation and are not logged. */
  const ExpectedAuthErrors: seq<string> :=
    ["Auth session missing!", "Invalid JWT", "JWT expired", "User not found", "Session not found"]

  /** `EXPECTED_AUTH_ERRORS.some(msg => message.includes(msg))`. */
  predicate Expected(message: string)
  {
    exists e :: e in ExpectedAuthErrors && Contains(message, e)
  }

  /** What `getUser` threw: an `Error` with its message, or some other value. */
  datatype Thrown = ErrorObject(message: string) | NonError

  /** `getUser` resolved with its data and possibly an error, or threw. */
  datatype GetUserOutcome<D> = Returned(data: D, error: Option<string>) | Raised(thrown: Thrown)

  /** The lookup's answer (`None` for `null`) and whether it logged. */
  datatype Resolution<D> = Resolution(data: Option<D>, logged: bool)

  function Auth<D>(outcome: GetUserOutcome<D>): (r: Resolution<D>)
    ensures outcome.Returned? && outcome.error.None? ==> r == Resolution(Some(outcome.data), false)
    ensures outcome.Returned? && outcome.error.Some? ==>
      r.data.None? && (r.logged <==> !Expected(outcome.error.value))
    ensures outcome.Raised? ==>
      r.data.None? && (r.logged <==> outcome.thrown.ErrorObject? && !Expected(outcome.thrown.message))
  {
    match outcome
    case Returned(data, None) => Resolution(Some(data), false)
    case Returned(_, Some(message)) => Resolution(None, !Expected(message))
    case Raised(ErrorObject(message)) => Resolution(None, !Expected(message))
    case Raised(NonError) => Resolution(None, false)
  }

  /** The lookup answers data exactly when `getUser` resolved without error. */
  lemma NullUnlessClean<D>(outcome: GetUserOutcome<D>)
    ensures Auth(outcome).data.Some? <==> outcome.Returned? && outcome.error.None?
  {
  }

  /** Classification is by substring: a listed text with anything around it,
      such as `JWT expired at <time>`, is expected and not logged. */
  lemma ExpectedBySubstring<D>(data: D, before: string, e: string, after: string)
    requires e in ExpectedAuthErrors
    ensures Expected(before + e + after)
    ensures !Auth(Returned(data, Some(before + e + after))).logged
  {
    ContainsMiddle(before, e, after);
  }

  /** Classification is case-sensitive: `invalid jwt` matches none of the
      listed texts and is logged. */
  lemma CaseMatters<D>(data: D)
    ensures !Expected("invalid jwt")
    ensures Auth(Returned(data, Some("invalid jwt"))).logged
  {
    var s := "invalid jwt";
    forall e | e in ExpectedAuthErrors ensures !Contains(s, e) {
      assert e[0] in {'A', 'I', 'J', 'U', 'S'};
      MissingCharNotContained(s, e, 0);
    }
  }
}
