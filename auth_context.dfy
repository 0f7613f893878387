/** The browser-side session context: `AuthProvider` keeps `session`, `user`
    and `isLoading`, and exposes `signOut` and `refreshSession`; `useAuth`
    reads it. Each reply of the auth service is a parameter of the method
    that awaits it; navigation and view refreshes are recorded as fields. */
module AuthContext {
  import opened Common

  /** What `getSession` did: resolved with a session or `null`, or threw. */
  datatype SessionFetch = Fetched(session: Option<Session>) | FetchThrew

  const SignedOut := "SIGNED_OUT"

  class Provider {
    var session: Option<Session>
    var user: Option<User>
    var isLoading: bool
    /** The last page `router.push` was asked for. */
    var route: Option<string>
    /** How many times `router.refresh()` was called. */
    var refreshes: nat

    /** `user` is always the user of `session`, or `null` without one. */
    predicate Valid()
      reads this
    {
      user == UserOf(session)
    }

    /** The provider as first rendered: no session, and loading. */
    constructor()
      ensures Valid()
      ensures session.None? && user.None? && isLoading
      ensures route.None? && refreshes == 0
    {
      session := None;
      user := None;
      isLoading := true;
      route := None;
      refreshes := 0;
    }

    /** `getInitialSession`: loading ends whatever `getSession` did; a
        session it returned replaces the current one. */
    method LoadInitial(fetch: SessionFetch)
      requires Valid()
      modifies this
      ensures Valid() && !isLoading
      ensures fetch.Fetched? ==> session == fetch.session
      ensures fetch.FetchThrew? ==> session == old(session)
      ensures route == old(route) && refreshes == old(refreshes)
    {
      isLoading := true;
      if fetch.Fetched? {
        session := fetch.session;
        user := UserOf(fetch.session);
      }
      isLoading := false;
    }

    /** The `onAuthStateChange` handler: every event overwrites the session;
        only `SIGNED_OUT` refreshes the view. */
    method OnAuthStateChange(event: string, newSession: Option<Session>)
      modifies this
      ensures Valid() && session == newSession
      ensures refreshes == if event == SignedOut then old(refreshes) + 1 else old(refreshes)
      ensures isLoading == old(isLoading) && route == old(route)
    {
      session := newSession;
      user := UserOf(newSession);
      if event == SignedOut {
        refreshes := refreshes + 1;
      }
    }

    /** `signOut`: the session itself is left to the auth event. A reply with
        an error does not throw, so it navigates too; only a throw does not. */
    method SignOut(reply: Reply)
      modifies this
      ensures session == old(session) && user == old(user) && !isLoading
      ensures reply.Threw? ==> route == old(route) && refreshes == old(refreshes)
      ensures !reply.Threw? ==> route == Some("/sign-in") && refreshes == old(refreshes) + 1
    {
      isLoading := true;
      if !reply.Threw? {
        route := Some("/sign-in");
        refreshes := refreshes + 1;
      }
      isLoading := false;
    }

    /** `refreshSession`: like the initial load; a throw keeps the old state. */
    method RefreshSession(fetch: SessionFetch)
      requires Valid()
      modifies this
      ensures Valid() && !isLoading
      ensures fetch.Fetched? ==> session == fetch.session
      ensures fetch.FetchThrew? ==> session == old(session) && user == old(user)
      ensures route == old(route) && refreshes == old(refreshes)
    {
      isLoading := true;
      if fetch.Fetched? {
        session := fetch.session;
        user := UserOf(fetch.session);
      }
      isLoading := false;
    }
  }

  /** The last of two auth events decides the session. */
  method LastEventWins(p: Provider, event: string, s: Option<Session>, event': string, s': Option<Session>)
    modifies p
    ensures p.Valid() && p.session == s' && p.user == UserOf(s')
  {
    p.OnAuthStateChange(event, s);
    p.OnAuthStateChange(event', s');
  }

  const OutsideProvider := "useAuth must be used within an AuthProvider"

  /** `useAuth()` given the context value, `None` outside any provider. */
  function UseAuth(context: Option<Provider>): (r: Result<Provider>)
    ensures context.None? <==> r == Failure(OutsideProvider)
    ensures context.Some? ==> r == Success(context.value)
  {
    match context
    case None => Failure(OutsideProvider)
    case Some(p) => Success(p)
  }
}
