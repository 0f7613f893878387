/** Values shared by every part of the model: optional values and the
    JavaScript notion of a "truthy" string that the source's `||`, `??` and
    `!x` tests rely on. */
module Common {

  datatype Option<+T> = None | Some(value: T)

  /** A value, or the message of the error thrown instead. */
  datatype Result<+T> = Success(value: T) | Failure(error: string)

  /** A query value or form field is "truthy" in JavaScript when it is present
      and not the empty string. */
  predicate Truthy(o: Option<string>)
  {
    o.Some? && o.value != ""
  }

  /** `o || d` for an optional string: the value when truthy, else the default. */
  function OrElse(o: Option<string>, d: string): (r: string)
    ensures Truthy(o) ==> r == o.value
    ensures !Truthy(o) ==> r == d
  {
    if Truthy(o) then o.value else d
  }

  /** `o ?? d`: only an absent value (null or undefined) falls back to the default;
      the empty string is kept. */
  function Coalesce<T>(o: Option<T>, d: T): (r: T)
    ensures o.Some? ==> r == o.value
    ensures o.None? ==> r == d
  {
    match o
    case Some(v) => v
    case None => d
  }

  /** The identity record the hosted auth service returns; only the fields the
      code reads are kept. */
  datatype User = User(id: string, email: string)

  /** A session as the auth service hands it to the browser. */
  datatype Session = Session(accessToken: string, user: User)

  /** `session?.user ?? null`. */
  function UserOf(session: Option<Session>): Option<User>
  {
    match session
    case Some(s) => Some(s.user)
    case None => None
  }

  /** The outcome of one awaited provider call made by a client-side form:
      it resolved without error, resolved with an error object, or threw. */
  datatype Reply = Succeeded | Failed(message: string) | Threw

  /** The message every form and route shows for an exception it catches. */
  const UnexpectedError := "An unexpected error occurred"
}
