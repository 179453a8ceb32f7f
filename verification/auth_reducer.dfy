/** The authentication context of the second frontend
    (frontend_new/src/context/Auth.jsx): a pure reducer over the session
    state, and the provider's flows that dispatch into it. The browser's
    token storage is a value passed in and returned. */
module AuthReducer {
  import opened Common

  /** A user object as a map from field name to value. */
  type UserMap = map<string, string>

  datatype State = State(user: Option<UserMap>, token: Option<string>, loading: bool, error: Option<string>)

  datatype Action =
    | LoginStart
    | LoginSuccess(user: Option<UserMap>, token: Option<string>)
    | LoginFailure(message: string)
    | Logout
    | ClearError
    | SetLoading(value: bool)
    | UpdateUser(fields: UserMap)
    | Unknown(kind: string)

  /** `{ ...u, ...fields }`: spreading a null user contributes nothing, and
      a later field wins. */
  function Spread(u: Option<UserMap>, fields: UserMap): (r: UserMap)
    ensures r.Keys == u.GetOr(map[]).Keys + fields.Keys
    ensures forall k | k in fields :: r[k] == fields[k]
    ensures forall k | k in u.GetOr(map[]) && k !in fields :: r[k] == u.GetOr(map[])[k]
  {
    u.GetOr(map[]) + fields
  }

  /** authReducer. */
  function Reduce(s: State, a: Action): (r: State)
    ensures a == LoginStart ==> r == s.(loading := true, error := None)
    ensures a.LoginSuccess? ==> r == State(a.user, a.token, false, None)
    ensures a.LoginFailure? ==> r == s.(loading := false, error := Some(a.message))
    ensures a == Logout ==> r == State(None, None, s.loading, None)
    ensures a == ClearError ==> r == s.(error := None)
    ensures a.SetLoading? ==> r == s.(loading := a.value)
    ensures a.UpdateUser? ==> r.token == s.token && r.loading == s.loading && r.error == s.error
    ensures a.UpdateUser? ==> r.user.Some? && r.user.value == Spread(s.user, a.fields)
    ensures a.Unknown? ==> r == s
  {
    match a
    case LoginStart => s.(loading := true, error := None)
    case LoginSuccess(u, t) => s.(loading := false, user := u, token := t, error := None)
    case LoginFailure(m) => s.(loading := false, error := Some(m))
    case Logout => s.(user := None, token := None, error := None)
    case ClearError => s.(error := None)
    case SetLoading(v) => s.(loading := v)
    case UpdateUser(fields) => s.(user := Some(Spread(s.user, fields)))
    case Unknown(_) => s
  }

  /** Dispatching several actions in turn. */
  function Run(s: State, actions: seq<Action>): State
    decreases |actions|
  {
    if actions == [] then s else Run(Reduce(s, actions[0]), actions[1..])
  }

  /** Clearing the error twice is clearing it once. */
  lemma ClearErrorIdempotent(s: State)
    ensures Reduce(Reduce(s, ClearError), ClearError) == Reduce(s, ClearError)
  {
  }

  /** Logging out leaves the loading flag alone and signs the user out
      whatever the state was. */
  lemma LogoutForgetsSession(s: State, t: State)
    requires s.loading == t.loading
    ensures Reduce(s, Logout) == Reduce(t, Logout)
    ensures Reduce(s, Logout).user.None? && Reduce(s, Logout).token.None?
  {
  }

  /** An action the reducer does not know leaves any sequence of known
      actions' result alone. */
  lemma {:induction false} UnknownActionsIgnored(s: State, actions: seq<Action>, kind: string)
    ensures Run(s, [Unknown(kind)] + actions) == Run(s, actions)
  {
    assert ([Unknown(kind)] + actions)[1..] == actions;
  }

  /** Updating the user while signed out creates a user from the update
      alone: afterwards the state counts as signed in. */
  lemma UpdateWhileSignedOut(s: State, fields: UserMap)
    requires s.user.None?
    ensures Reduce(s, UpdateUser(fields)).user == Some(fields)
  {
    var m: UserMap := map[];
    assert m + fields == fields;
  }

  /** A failed sign-in after LOGIN_START keeps the previous user and token
      and reports the message. */
  lemma FailedAttemptKeepsSession(s: State, message: string)
    ensures Run(s, [LoginStart, LoginFailure(message)]) == s.(loading := false, error := Some(message))
  {
    var started := Reduce(s, LoginStart);
    assert [LoginStart, LoginFailure(message)][1..] == [LoginFailure(message)];
    assert Run(s, [LoginStart, LoginFailure(message)]) == Run(started, [LoginFailure(message)]);
    assert [LoginFailure(message)][1..] == [];
    assert Run(started, [LoginFailure(message)]) == Reduce(started, LoginFailure(message));
  }

  /** The provider's initial state: the stored token, no user, loading. */
  function Initial(stored: Option<string>): (r: State)
    ensures r.loading && r.user.None? && r.error.None? && r.token == stored
  {
    State(None, stored, true, None)
  }

  /** checkAuth on mount: with a truthy stored token the profile is fetched;
      success signs in with that token, failure removes it and logs out.
      Loading ends in every case. Returns the state and the storage. */
  function CheckAuth(s: State, stored: Option<string>, profile: Outcome<Option<UserMap>>): (r: (State, Option<string>))
    ensures !r.0.loading
    ensures !Truthy(stored) ==> r == (s.(loading := false), stored)
    ensures Truthy(stored) && profile.Returned? ==>
              r == (State(profile.value, stored, false, None), stored)
    ensures Truthy(stored) && profile.Threw? ==>
              r.1.None? && r.0.user.None? && r.0.token.None? && r.0.error.None?
  {
    if Truthy(stored) then
      match profile
      case Returned(u) => (Reduce(Reduce(s, LoginSuccess(u, stored)), SetLoading(false)), stored)
      case Threw(_) => (Reduce(Reduce(s, Logout), SetLoading(false)), None)
    else (Reduce(s, SetLoading(false)), stored)
  }

  /** What login and register resolve with. */
  datatype Attempt = Attempt(success: bool, error: Option<string>)

  /** The body of a successful sign-in or registration response. */
  datatype Credentials = Credentials(user: Option<UserMap>, token: Option<string>)

  /** `localStorage.setItem('token', token)` stores the string form, so a
      missing token is stored as "undefined". */
  function Stored(token: Option<string>): string {
    token.GetOr("undefined")
  }

  /** The shared shape of login and register: LOGIN_START, the request, then
      LOGIN_SUCCESS with storage written, or LOGIN_FAILURE with the server's
      message (the empty string when the error carries none) or `fallback`. */
  function SignIn(s: State, storage: Option<string>, reply: Outcome<Credentials>, fallback: string): (r: (State, Option<string>, Attempt))
    ensures r.2.success <==> reply.Returned?
    ensures !r.0.loading
    ensures reply.Returned? ==>
              r.0 == State(reply.value.user, reply.value.token, false, None) && r.1 == Some(Stored(reply.value.token))
    ensures reply.Threw? ==> r.1 == storage && r.0.user == s.user && r.0.token == s.token
    ensures reply.Threw? ==> r.0.error == r.2.error == Some(MessageOr(reply.message, fallback))
  {
    var started := Reduce(s, LoginStart);
    match reply
    case Returned(c) =>
      (Reduce(started, LoginSuccess(c.user, c.token)), Some(Stored(c.token)), Attempt(true, None))
    case Threw(m) =>
      var message := MessageOr(m, fallback);
      (Reduce(started, LoginFailure(message)), storage, Attempt(false, Some(message)))
  }

  const LoginFallback := "Login failed"
  const RegisterFallback := "Registration failed"

  function Login(s: State, storage: Option<string>, reply: Outcome<Credentials>): (r: (State, Option<string>, Attempt))
    ensures reply.Threw? && reply.message == "" ==> r.2.error == Some("Login failed")
  {
    SignIn(s, storage, reply, LoginFallback)
  }

  function Register(s: State, storage: Option<string>, reply: Outcome<Credentials>): (r: (State, Option<string>, Attempt))
    ensures reply.Threw? && reply.message == "" ==> r.2.error == Some("Registration failed")
  {
    SignIn(s, storage, reply, RegisterFallback)
  }

  /** logout: both its paths remove the stored token and dispatch LOGOUT. */
  function LogoutFlow(s: State, storage: Option<string>): (r: (State, Option<string>))
    ensures r.1.None? && r.0.user.None? && r.0.token.None? && r.0.error.None?
    ensures r.0.loading == s.loading
  {
    (Reduce(s, Logout), None)
  }

  /** A sign-in whose response lacks a token leaves "undefined" in storage,
      which the next mount takes for a token and tries to use. */
  lemma MissingTokenIsStored(s: State, storage: Option<string>, user: Option<UserMap>, later: State, profile: Outcome<Option<UserMap>>)
    ensures SignIn(s, storage, Returned(Credentials(user, None)), LoginFallback).1 == Some("undefined")
    ensures profile.Returned? ==> CheckAuth(later, Some("undefined"), profile).0.token == Some("undefined")
  {
  }

  /** Signing in and then out returns to the signed-out state with storage
      cleared. */
  lemma LoginThenLogout(s: State, storage: Option<string>, c: Credentials)
    ensures var (t, st, _) := Login(s, storage, Returned(c));
            LogoutFlow(t, st) == (State(None, None, false, None), None)
  {
  }
}
