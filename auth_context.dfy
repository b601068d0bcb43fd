/**
 * The authentication context: a reducer over the session state and a
 * provider that holds that state and runs the session operations (resume
 * at start-up, sign in, sign up, Google sign in, sign out, clear error),
 * each a fixed sequence of dispatches around one service call.
 *
 * The service calls are abstract here: each is a parameter, the `Outcome`
 * the call resolved to or the message of the error it raised.
 */
module AuthContext {
  import opened Wrappers
  import opened JsText

  const LoginFailedMessage: string := "Login gagal"
  const RegistrationFailedMessage: string := "Registrasi gagal"
  const GoogleLoginFailedMessage: string := "Google login gagal"

  /** The user of the session as the context sees it. */
  datatype User = User(
    id: string,
    username: string,
    email: string,
    tipePengguna: string,
    roles: Option<seq<string>>,
    permissions: Option<seq<string>>,
    googleId: Option<string>,
    fotoProfil: Option<string>)

  datatype AuthState = AuthState(user: Option<User>, isLoading: bool, isAuthenticated: bool, error: Option<string>)

  /** The reducer's actions, one per action type. */
  datatype AuthAction =
    | Loading(loading: bool)
    | SignInSuccess(payload: User)
    | SignOut
    | Error(message: string)
    | ClearError

  /** How a service call ended: resolved with a value, or raised an error with the given message. */
  datatype Outcome<+T> = Resolved(value: T) | Rejected(message: string)

  /** A call the provider makes to the service, with the arguments it passes. */
  datatype ServiceCall =
    | CurrentUserCall
    | LoginCall(loginField: string, password: string)
    | RegisterCall(email: string, password: string, passwordConfirmation: string)
    | GoogleLoginCall(accessToken: string, userInfo: string)
    | LogoutCall

  /** The state the provider starts in: loading, signed out, no error. */
  const InitialState: AuthState := AuthState(None, true, false, None)

  /** The session invariant: authenticated exactly when there is a user. */
  predicate Consistent(s: AuthState) {
    s.isAuthenticated <==> s.user.Some?
  }

  /** `authReducer`. */
  function Reduce(state: AuthState, action: AuthAction): (next: AuthState)
    ensures Consistent(state) ==> Consistent(next)
    ensures !action.SignInSuccess? && !action.SignOut? ==>
      next.user == state.user && next.isAuthenticated == state.isAuthenticated
    ensures action.SignInSuccess? || action.SignOut? ==> !next.isLoading && next.error == None
  {
    match action
    case Loading(loading) => state.(isLoading := loading, error := None)
    case SignInSuccess(user) => state.(user := Some(user), isAuthenticated := true, isLoading := false, error := None)
    case SignOut => state.(user := None, isAuthenticated := false, isLoading := false, error := None)
    case Error(message) => state.(error := Some(message), isLoading := false)
    case ClearError => state.(error := None)
  }

  /** The state after dispatching `actions` in order, starting from `state`. */
  function Replay(state: AuthState, actions: seq<AuthAction>): AuthState {
    if actions == [] then state
    else Reduce(Replay(state, actions[..|actions| - 1]), actions[|actions| - 1])
  }

  /** Every action changes only what it names; the unnamed fields keep their values. */
  lemma ReduceFrames(state: AuthState, action: AuthAction)
    ensures action.Loading? ==> Reduce(state, action) == state.(isLoading := action.loading, error := None)
    ensures action.Error? ==> Reduce(state, action) == state.(isLoading := false, error := Some(action.message))
    ensures action.ClearError? ==> Reduce(state, action) == state.(error := None)
    ensures action.SignInSuccess? ==> Reduce(state, action).user == Some(action.payload) && Reduce(state, action).isAuthenticated
    ensures action.SignOut? ==> Reduce(state, action).user == None && !Reduce(state, action).isAuthenticated
  {
  }

  /** The initial state is consistent, and so is every state reached from it by any dispatches. */
  lemma {:induction false} ReplayConsistent(state: AuthState, actions: seq<AuthAction>)
    requires Consistent(state)
    ensures Consistent(Replay(state, actions))
  {
    if actions != [] {
      ReplayConsistent(state, actions[..|actions| - 1]);
    }
  }

  class AuthProvider {
    /** The state held by the reducer. */
    var state: AuthState
    /** The actions dispatched so far, oldest first. */
    ghost var dispatched: seq<AuthAction>
    /** The service calls made so far, oldest first. */
    ghost var calls: seq<ServiceCall>

    /** The held state is what the dispatched actions make of the initial state. */
    ghost predicate Valid()
      reads this
    {
      state == Replay(InitialState, dispatched)
    }

    constructor ()
      ensures Valid() && state == InitialState
      ensures dispatched == [] && calls == []
    {
      state := InitialState;
      dispatched := [];
      calls := [];
    }

    /** `dispatch(action)`. */
    method Dispatch(action: AuthAction)
      requires Valid()
      modifies this
      ensures Valid() && Consistent(state)
      ensures state == Reduce(old(state), action)
      ensures dispatched == old(dispatched) + [action] && calls == old(calls)
    {
      state := Reduce(state, action);
      dispatched := dispatched + [action];
      assert dispatched[..|dispatched| - 1] == old(dispatched);
      ReplayConsistent(InitialState, dispatched);
    }

    /**
     * `checkAuthState`: asks the service for the current user; signed in
     * with that user when there is one, signed out otherwise or when the
     * call raises; always ends not loading and without error.
     */
    method CheckAuthState(current: Outcome<Option<User>>)
      requires Valid()
      modifies this
      ensures Valid() && Consistent(state)
      ensures state.user == (if current.Resolved? then current.value else None)
      ensures state.isAuthenticated == state.user.Some?
      ensures !state.isLoading && state.error == None
      ensures calls == old(calls) + [CurrentUserCall]
    {
      Dispatch(Loading(true));
      calls := calls + [CurrentUserCall];
      match current {
        case Resolved(found) =>
          if found.Some? {
            Dispatch(SignInSuccess(found.value));
          } else {
            Dispatch(AuthAction.SignOut);
          }
        case Rejected(_) =>
          Dispatch(AuthAction.SignOut);
      }
      Dispatch(Loading(false));
    }

    /**
     * `signIn`: on success, signed in with the user of the response; on
     * failure, the error's message (or the default) is the state's error
     * and the previous user stays.
     */
    method SignIn(loginField: string, password: string, response: Outcome<User>)
      requires Valid()
      modifies this
      ensures Valid() && Consistent(state)
      ensures calls == old(calls) + [LoginCall(loginField, password)]
      ensures response.Resolved? ==>
        state == AuthState(Some(response.value), false, true, None)
      ensures response.Rejected? ==>
        state == old(state).(isLoading := false, error := Some(Or(Some(response.message), LoginFailedMessage)))
    {
      Dispatch(Loading(true));
      calls := calls + [LoginCall(loginField, password)];
      match response {
        case Resolved(user) =>
          Dispatch(SignInSuccess(user));
        case Rejected(message) =>
          Dispatch(Error(Or(Some(message), LoginFailedMessage)));
      }
    }

    /**
     * `signUp`: as `signIn`, against registration. The name is not sent:
     * the service receives the e-mail, the password and its confirmation.
     */
    method SignUp(name: string, email: string, password: string, passwordConfirmation: string, response: Outcome<User>)
      requires Valid()
      modifies this
      ensures Valid() && Consistent(state)
      ensures calls == old(calls) + [RegisterCall(email, password, passwordConfirmation)]
      ensures response.Resolved? ==>
        state == AuthState(Some(response.value), false, true, None)
      ensures response.Rejected? ==>
        state == old(state).(isLoading := false, error := Some(Or(Some(response.message), RegistrationFailedMessage)))
    {
      Dispatch(Loading(true));
      calls := calls + [RegisterCall(email, password, passwordConfirmation)];
      match response {
        case Resolved(user) =>
          Dispatch(SignInSuccess(user));
        case Rejected(message) =>
          Dispatch(Error(Or(Some(message), RegistrationFailedMessage)));
      }
    }

    /** `signInWithGoogle`: as `signIn`, against the Google login call. */
    method SignInWithGoogle(accessToken: string, userInfo: string, response: Outcome<User>)
      requires Valid()
      modifies this
      ensures Valid() && Consistent(state)
      ensures calls == old(calls) + [GoogleLoginCall(accessToken, userInfo)]
      ensures response.Resolved? ==>
        state == AuthState(Some(response.value), false, true, None)
      ensures response.Rejected? ==>
        state == old(state).(isLoading := false, error := Some(Or(Some(response.message), GoogleLoginFailedMessage)))
    {
      Dispatch(Loading(true));
      calls := calls + [GoogleLoginCall(accessToken, userInfo)];
      match response {
        case Resolved(user) =>
          Dispatch(SignInSuccess(user));
        case Rejected(message) =>
          Dispatch(Error(Or(Some(message), GoogleLoginFailedMessage)));
      }
    }

    /** `signOut`: signed out, not loading and without error, whether or not the logout call raises. */
    method SignOut(logout: Outcome<()>)
      requires Valid()
      modifies this
      ensures Valid() && Consistent(state)
      ensures state == AuthState(None, false, false, None)
      ensures calls == old(calls) + [LogoutCall]
    {
      Dispatch(Loading(true));
      calls := calls + [LogoutCall];
      match logout {
        case Resolved(_) =>
          Dispatch(AuthAction.SignOut);
        case Rejected(_) =>
          Dispatch(AuthAction.SignOut);
      }
    }

    /** `clearError`: only the error changes. */
    method ClearError()
      requires Valid()
      modifies this
      ensures Valid() && Consistent(state)
      ensures state == old(state).(error := None)
      ensures calls == old(calls)
    {
      Dispatch(AuthAction.ClearError);
    }
  }
}
