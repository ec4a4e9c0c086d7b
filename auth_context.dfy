/** The `{user, isLoading}` state machine of contexts/auth-context.tsx,
    driving the service of lib/auth.ts. The asynchronous calls are modelled
    as direct calls: the intermediate `isLoading = true` state is set and
    then replaced by the settled state. */
module AuthContext {
  import opened Wrappers
  import Auth

  datatype AuthState = AuthState(user: Option<Auth.User>, isLoading: bool)

  /** What `login` and `register` resolve to: `{ success, error? }`. */
  datatype Reply = Reply(success: bool, error: Option<string>)

  const LoginFailed: string := "Login failed"
  const RegistrationFailed: string := "Registration failed"

  /** `error || fallback`: an empty error string falls back to the default. */
  function ErrorOr(error: string, fallback: string): (r: string)
    ensures error != "" ==> r == error
    ensures error == "" ==> r == fallback
  {
    if error != "" then error else fallback
  }

  /** The state and reply once the service has answered: a user replaces
      the state; a failure keeps the previous user and reports the error. */
  function Settle(prev: AuthState, outcome: Result<Auth.User, string>, fallback: string): (AuthState, Reply) {
    match outcome
    case Success(u) => (AuthState(Some(u), false), Reply(true, None))
    case Failure(e) => (prev.(isLoading := false), Reply(false, Some(ErrorOr(e, fallback))))
  }

  /** Every error the service reports is a non-empty message, so the
      defaults "Login failed" and "Registration failed" are never shown. */
  lemma ServiceErrorsNonEmpty(s: Auth.Store, email: string, password: string, name: string,
                              freshId: string, now: int)
    ensures var r := Auth.LoggedIn(s, email, password, now).1;
      r.Failure? ==> r.error != "" && ErrorOr(r.error, LoginFailed) == r.error
    ensures var r := Auth.Registered(s, email, password, name, freshId, now).1;
      r.Failure? ==> r.error != "" && ErrorOr(r.error, RegistrationFailed) == r.error
  {
  }

  /** A successful answer always ends loading with that user and success. */
  lemma SettleSuccess(prev: AuthState, u: Auth.User, fallback: string)
    ensures Settle(prev, Success(u), fallback).0 == AuthState(Some(u), false)
    ensures Settle(prev, Success(u), fallback).1.success
  {
  }

  /** A failed answer keeps the previous user, ends loading and reports a
      non-empty error. */
  lemma SettleFailure(prev: AuthState, e: string, fallback: string)
    requires fallback != ""
    ensures var (st, reply) := Settle(prev, Failure(e), fallback);
      st.user == prev.user && !st.isLoading && !reply.success &&
      reply.error.Some? && reply.error.value != ""
  {
  }

  /** `AuthProvider` with its state and the service it calls. */
  class AuthProvider {
    var state: AuthState
    const service: Auth.AuthService

    /** Before mounting no user is known and loading is in progress. */
    constructor (service: Auth.AuthService)
      ensures state == AuthState(None, true) && this.service == service
    {
      state := AuthState(None, true);
      this.service := service;
    }

    /** The mount effect reads the stored current user. */
    method Mount(now: int)
      modifies this, service
      ensures state == AuthState(Auth.CurrentUser(old(service.State()), now).1, false)
      ensures service.State() == Auth.CurrentUser(old(service.State()), now).0
    {
      var u := service.GetCurrentUser(now);
      state := AuthState(u, false);
    }

    method Login(email: string, password: string, now: int) returns (reply: Reply)
      modifies this, service
      ensures var (s', r) := Auth.LoggedIn(old(service.State()), email, password, now);
        service.State() == s' &&
        (state, reply) == Settle(old(state).(isLoading := true), r, LoginFailed)
    {
      state := state.(isLoading := true);
      var r := service.Login(email, password, now);
      state, reply := Settle(state, r, LoginFailed).0, Settle(state, r, LoginFailed).1;
    }

    method Register(email: string, password: string, name: string, freshId: string, now: int)
      returns (reply: Reply)
      modifies this, service
      ensures var (s', r) := Auth.Registered(old(service.State()), email, password, name, freshId, now);
        service.State() == s' &&
        (state, reply) == Settle(old(state).(isLoading := true), r, RegistrationFailed)
    {
      state := state.(isLoading := true);
      var r := service.Register(email, password, name, freshId, now);
      state, reply := Settle(state, r, RegistrationFailed).0, Settle(state, r, RegistrationFailed).1;
    }

    method Logout()
      modifies this, service
      ensures state == AuthState(None, false)
      ensures service.State() == Auth.LoggedOut(old(service.State()))
    {
      service.Logout();
      state := AuthState(None, false);
    }
  }

  /** After a successful registration the context shows the new user while
      the service's stored current user is what it was before. */
  lemma RegisterShowsUserNotStored(prev: AuthState, s: Auth.Store, email: string, password: string,
                                   name: string, freshId: string, now: int)
    requires Auth.Registered(s, email, password, name, freshId, now).1.Success?
    ensures var (s', r) := Auth.Registered(s, email, password, name, freshId, now);
      Settle(prev, r, RegistrationFailed).0.user == Some(r.value) && s'.current == s.current
  {
  }
}
