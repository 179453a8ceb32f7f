/** The session hook of the first frontend (frontend/src/hooks/useAuth.jsx):
    the signed-in user, the loading flag, the stored token and the location,
    and how mount, fetchProfile, login, register, updateProfile and logout
    change them. Each request's settled outcome, as the client's interceptor
    delivers it, is an input. */
module Session {
  import opened Common
  import opened ApiClient
  import SignupForm

  /** A user object as the server sends it, field name to value. */
  type UserMap = map<string, string>

  function RoleOf(u: UserMap): Option<string> {
    if "role" in u then Some(u["role"]) else None
  }

  /** `{ ...u, role: u.role || fallback }` */
  function WithRole(u: UserMap, fallback: string): (r: UserMap)
    ensures "role" in r && r["role"] == OrElse(RoleOf(u), fallback)
    ensures forall k | k in u && k != "role" :: k in r && r[k] == u[k]
    ensures forall k | k in r :: k in u || k == "role"
  {
    u["role" := OrElse(RoleOf(u), fallback)]
  }

  datatype ToastKind = Positive | Negative
  datatype Toast = Toast(title: string, kind: ToastKind)

  datatype State = State(
    user: Option<UserMap>,
    loading: bool,
    error: Option<string>,
    browser: Browser,
    toast: Option<Toast>)   // the latest toast shown

  const Start := State(None, true, None, Browser(None, "/"), None)

  predicate IsAuthenticated(s: State) {
    s.user.Some?
  }

  const SessionExpiredToast := "Your session has expired. Please log in again."

  /** What `/auth/profile` answers. */
  datatype ProfileReply = ProfileReply(success: bool, user: Option<UserMap>, message: Option<string>)

  /** fetchProfile: a successful answer with a user sets it, role defaulted;
      any other ending drops the token and the user. */
  function FetchProfile(s: State, reply: Settled<ProfileReply>): (r: State)
    ensures !r.loading && r.browser.path == s.browser.path
    ensures (reply.Resolved? && reply.body.success && reply.body.user.Some?) ==>
              r == s.(user := Some(WithRole(reply.body.user.value, "student")), loading := false)
    ensures !(reply.Resolved? && reply.body.success && reply.body.user.Some?) ==>
              r.user.None? && r.browser.token.None? && r.toast == Some(Toast(SessionExpiredToast, Negative))
  {
    match reply
    case Resolved(ProfileReply(true, Some(u), _)) => s.(user := Some(WithRole(u, "student")), loading := false)
    case _ =>
      s.(user := None, browser := s.browser.(token := None), toast := Some(Toast(SessionExpiredToast, Negative)),
         loading := false)
  }

  /** The effect on mount: a stored token triggers fetchProfile, otherwise
      loading just ends. */
  function Mount(s: State, reply: Settled<ProfileReply>): (r: State)
    ensures !r.loading
    ensures !Truthy(s.browser.token) ==> r == s.(loading := false)
    ensures Truthy(s.browser.token) ==> r == FetchProfile(s, reply)
  {
    if Truthy(s.browser.token) then FetchProfile(s, reply) else s.(loading := false)
  }

  /** What `/auth/login` answers. */
  datatype LoginReply = LoginReply(success: bool, token: Option<string>, user: Option<UserMap>,
                                   message: Option<string>)

  datatype CallResult = CallResult(success: bool, error: Option<string>)

  const LoginFailed := "Failed to log in. Please try again."

  /** login. The token is stored as soon as the answer has success and a
      token; a missing user object then throws, so the call fails with the
      token already stored. Every failure reads `err.response`, which no
      error reaching this handler has, so its message is always the
      default. */
  function Login(s: State, reply: Settled<LoginReply>): (r: (State, CallResult))
    ensures !r.0.loading && r.0.error.None?
    ensures r.1.success <==>
              reply.Resolved? && reply.body.success && Truthy(reply.body.token) && reply.body.user.Some?
    ensures r.1.success ==>
              && r.0.user == Some(WithRole(reply.body.user.value, "student"))
              && r.0.browser.token == reply.body.token
    ensures !r.1.success ==> r.1.error == Some(LoginFailed) && r.0.user == s.user
    ensures !r.1.success ==> r.0.toast == Some(Toast(LoginFailed, Negative))
    ensures (reply.Resolved? && reply.body.success && Truthy(reply.body.token)) ==>
              r.0.browser.token == reply.body.token
    ensures !(reply.Resolved? && reply.body.success && Truthy(reply.body.token)) ==>
              r.0.browser == s.browser
  {
    var started := s.(loading := true, error := None);
    var failed := (started.(loading := false, toast := Some(Toast(LoginFailed, Negative))),
                   CallResult(false, Some(LoginFailed)));
    match reply
    case Resolved(LoginReply(success, token, user, _)) =>
      if success && Truthy(token) then
        var stored := started.(browser := started.browser.(token := token));
        match user
        case Some(u) =>
          (stored.(user := Some(WithRole(u, "student")), loading := false,
                   toast := Some(Toast("Login successful!", Positive))),
           CallResult(true, None))
        case None =>
          (stored.(loading := false, toast := Some(Toast(LoginFailed, Negative))), CallResult(false, Some(LoginFailed)))
      else failed
    case Rejected(_) => failed
  }

  /** Whatever the server says, a failed login shows the same text: the
      server's message is never surfaced. */
  lemma LoginFailureIgnoresServerMessage(s: State, m1: Option<string>, m2: Option<string>)
    ensures Login(s, Resolved(LoginReply(false, None, None, m1))).1 ==
            Login(s, Resolved(LoginReply(false, None, None, m2))).1
    ensures Login(s, Rejected(Rejection("Invalid credentials", Some(400)))).1.error == Some(LoginFailed)
  {
  }

  /** A reply with success and a token but no user leaves the token stored
      while the login fails and no user is set. */
  lemma TokenStoredOnFailedLogin(s: State, token: string)
    requires token != "" && s.user.None?
    ensures var (t, res) := Login(s, Resolved(LoginReply(true, Some(token), None, None)));
            !res.success && t.browser.token == Some(token) && !IsAuthenticated(t)
  {
  }

  const RegisterFailed := "Failed to register. Please try again."

  /** register as written: it posts through `axios`, a name the hook never
      imports, so the call throws a ReferenceError before any request is sent
      and the handler returns the default failure. */
  function Register(s: State): (r: (State, CallResult))
    ensures r.1 == CallResult(false, Some(RegisterFailed))
    ensures !r.0.loading && r.0.user == s.user && r.0.browser == s.browser
  {
    (s.(loading := false, error := None, toast := Some(Toast(RegisterFailed, Negative))),
     CallResult(false, Some(RegisterFailed)))
  }

  /** As written, no registration from the first frontend succeeds: the
      sign-up page never reaches /login and always shows the default
      text. */
  lemma SignupNeverCompletes(s: State, f: SignupForm.Form)
    ensures var res := Register(s).1;
            var sub := SignupForm.HandleSubmit(f, res.success, res.error);
            sub.Blocked? || sub.after == SignupForm.ShowError(RegisterFailed)
  {
  }

  /** What a registration request ends in when it is really sent with a
      client that keeps the error response: the answer, or a refusal with the
      error body's message. */
  datatype RegisterResponse = Accepted(success: bool, message: Option<string>)
                            | Refused(responseMessage: Option<string>)

  /** register with the request actually sent. A resolved failure is thrown
      as an `Error` without a response, so it still shows the default; a
      refusal shows the server's message. */
  function RegisterSent(s: State, resp: RegisterResponse): (r: (State, CallResult))
    ensures r.1.success <==> resp.Accepted? && resp.success
    ensures resp.Refused? ==> r.1.error == Some(OrElse(resp.responseMessage, RegisterFailed))
    ensures resp.Accepted? && !resp.success ==> r.1.error == Some(RegisterFailed)
    ensures !r.0.loading && r.0.user == s.user && r.0.browser == s.browser
  {
    var started := s.(loading := true, error := None);
    match resp
    case Accepted(true, _) =>
      (started.(loading := false, toast := Some(Toast("Registration successful! Please log in.", Positive))),
       CallResult(true, None))
    case Accepted(false, _) =>
      (started.(loading := false, toast := Some(Toast(RegisterFailed, Negative))), CallResult(false, Some(RegisterFailed)))
    case Refused(m) =>
      var msg := OrElse(m, RegisterFailed);
      (started.(loading := false, toast := Some(Toast(msg, Negative))), CallResult(false, Some(msg)))
  }

  /** With the request sent, an accepted registration completes the sign-up
      page's flow. */
  lemma SentRegistrationCompletesSignup(s: State, f: SignupForm.Form, m: Option<string>)
    requires SignupForm.ValidateForm(f) == map[]
    ensures var res := RegisterSent(s, Accepted(true, m)).1;
            SignupForm.HandleSubmit(f, res.success, res.error).after == SignupForm.GoToLogin
  {
  }

  /** What `/auth/profile` answers to an update. */
  datatype UpdateReply = UpdateReply(success: bool, user: Option<UserMap>, message: Option<string>)

  /** The state updater of a successful update: the answer's fields over the
      previous user's, keeping the previous role when the answer's is falsy.
      None when the updater itself throws (no user in the answer, or no
      previous user to take a role from). */
  function MergeUser(prev: Option<UserMap>, incoming: Option<UserMap>): (r: Option<UserMap>)
    ensures r.Some? <==> incoming.Some? && (Truthy(RoleOf(incoming.value)) || prev.Some?)
    ensures r.Some? ==> forall k | k in incoming.value && k != "role" :: k in r.value && r.value[k] == incoming.value[k]
    ensures r.Some? && prev.Some? ==> forall k | k in prev.value && k !in incoming.value && k != "role" ::
              k in r.value && r.value[k] == prev.value[k]
    ensures r.Some? ==> RoleOf(r.value) == (if Truthy(RoleOf(incoming.value)) then RoleOf(incoming.value)
                                            else RoleOf(prev.value))
  {
    match incoming
    case None => None
    case Some(u) =>
      if Truthy(RoleOf(u)) then Some(prev.GetOr(map[]) + u)
      else match prev
        case None => None
        case Some(p) =>
          var merged := p + u;
          Some(if "role" in p then merged["role" := p["role"]] else merged - {"role"})
  }

  datatype UpdateEnd = Done(state: State, result: Outcome<()>) | UpdaterThrew

  /** updateProfile: success merges the answer into the user; failure shows
      the default toast and rethrows the error to the page. */
  function UpdateProfile(s: State, reply: Settled<UpdateReply>): (r: UpdateEnd)
    ensures reply.Resolved? && reply.body.success ==>
              (r.UpdaterThrew? <==> MergeUser(s.user, reply.body.user).None?)
    ensures r.Done? && r.result.Returned? ==> reply.Resolved? && r.state.user == MergeUser(s.user, reply.body.user)
    ensures r.Done? ==> !r.state.loading && r.state.browser == s.browser
    ensures r.Done? && r.result.Threw? ==> r.state.user == s.user
    ensures reply.Resolved? && !reply.body.success ==>
              r == Done(s.(loading := false, error := None,
                           toast := Some(Toast("Failed to update profile. Please try again.", Negative))),
                        Threw(OrElse(reply.body.message, "Failed to update profile")))
    ensures reply.Rejected? ==> r.Done? && r.result == Threw(reply.rejection.message)
  {
    var started := s.(loading := true, error := None);
    var failToast := Some(Toast("Failed to update profile. Please try again.", Negative));
    match reply
    case Resolved(UpdateReply(success, user, message)) =>
      if success then
        match MergeUser(s.user, user)
        case None => UpdaterThrew
        case Some(u) =>
          Done(started.(user := Some(u), loading := false, toast := Some(Toast("Profile updated successfully!", Positive))),
               Returned(()))
      else Done(started.(loading := false, toast := failToast), Threw(OrElse(message, "Failed to update profile")))
    case Rejected(j) => Done(started.(loading := false, toast := failToast), Threw(j.message))
  }

  /** A role-less answer keeps the signed-in user's role. */
  lemma UpdateKeepsRole(s: State, u: UserMap)
    requires s.user.Some? && "role" in s.user.value && "role" !in u
    ensures var r := UpdateProfile(s, Resolved(UpdateReply(true, Some(u), None)));
            r.Done? && r.state.user.Some? && RoleOf(r.state.user.value) == RoleOf(s.user.value)
  {
  }

  /** logout: token and user are dropped and the page goes to /login. */
  function Logout(s: State): (r: State)
    ensures !IsAuthenticated(r) && r.browser == Browser(None, "/login")
    ensures r.loading == s.loading && r.toast == s.toast
  {
    s.(user := None, browser := Browser(None, "/login"))
  }

  /** Logging in after logging out with a good answer authenticates again,
      and logging out twice is logging out once. */
  lemma LogoutLoginCycle(s: State, token: string, u: UserMap)
    requires token != ""
    ensures Logout(Logout(s)) == Logout(s)
    ensures IsAuthenticated(Login(Logout(s), Resolved(LoginReply(true, Some(token), Some(u), None))).0)
  {
  }
}
