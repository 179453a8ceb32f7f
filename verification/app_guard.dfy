/** The route table and `ProtectedRoute` of the first frontend
    (frontend/src/App.jsx). */
module AppGuard {
  import opened Common
  import opened Text
  import opened Paths

  /** The signed-in user as the guard sees it. */
  datatype Viewer = Viewer(role: Option<string>)

  datatype Decision = ShowLoading | RedirectTo(target: string) | RenderChildren

  /** ProtectedRoute: loading first, then sign-in, then the one required
      role when a truthy one is given. */
  function ProtectedRoute(loading: bool, user: Option<Viewer>, requiredRole: Option<string>): (r: Decision)
    ensures loading <==> r == ShowLoading
    ensures r == RedirectTo("/login") <==> !loading && user.None?
    ensures r == RedirectTo("/unauthorized") <==>
              !loading && user.Some? && Truthy(requiredRole) && user.value.role != requiredRole
    ensures r.ShowLoading? || r.RenderChildren? || r == RedirectTo("/login") || r == RedirectTo("/unauthorized")
  {
    if loading then ShowLoading
    else if user.None? then RedirectTo("/login")
    else if Truthy(requiredRole) && user.value.role != requiredRole then RedirectTo("/unauthorized")
    else RenderChildren
  }

  /** Without a required role any signed-in user passes; with one, exactly
      the users holding it. */
  lemma GuardAdmits(user: Viewer, requiredRole: Option<string>)
    ensures !Truthy(requiredRole) ==> ProtectedRoute(false, Some(user), requiredRole) == RenderChildren
    ensures Truthy(requiredRole) ==>
              (ProtectedRoute(false, Some(user), requiredRole) == RenderChildren <==> user.role == requiredRole)
  {
  }

  datatype Screen = LoginPage | SignupPage | ForgotPasswordPage | ResetPasswordPage(token: string)
                  | DashboardPage | AttendancePage | ScanPage | ReportsPage | ProfilePage
                  | TeacherDashboardPage | NotFoundPage

  datatype Access = Public | Protected(requiredRole: Option<string>)

  /** The declared route paths in order, the catch-all excepted. */
  const Patterns: seq<seq<Segment>> := [
    [Lit("login")],
    [Lit("signup")],
    [Lit("forgot-password")],
    [Lit("reset-password"), Param],
    [],
    [Lit("attendance")],
    [Lit("scan")],
    [Lit("reports")],
    [Lit("profile")],
    [Lit("teacher"), Lit("dashboard")]
  ]

  /** How the route at index `k` is wrapped. */
  function AccessOf(k: nat): Access
    requires k < |Patterns|
  {
    if k < 4 then Public
    else if k < 9 then Protected(None)
    else Protected(Some("teacher"))
  }

  /** No path matches two declared routes, so the router's ranking and the
      first match in declaration order choose the same route. */
  lemma RoutesDisjoint(i: nat, j: nat, path: seq<string>)
    requires i < j < |Patterns|
    ensures !(PatternMatches(Patterns[i], path) && PatternMatches(Patterns[j], path))
  {
    ApartDisjoint(Patterns[i], Patterns[j], path);
  }

  /** The page the route at index `k` renders for `path`. */
  function ScreenOf(k: nat, path: seq<string>): Screen
    requires k < |Patterns| && PatternMatches(Patterns[k], path)
  {
    match k
    case 0 => LoginPage
    case 1 => SignupPage
    case 2 => ForgotPasswordPage
    case 3 => ResetPasswordPage(path[1])
    case 4 => DashboardPage
    case 5 => AttendancePage
    case 6 => ScanPage
    case 7 => ReportsPage
    case 8 => ProfilePage
    case _ => TeacherDashboardPage
  }

  datatype View = Render(screen: Screen) | Loading | Redirect(target: string)

  /** What the application shows at `path`: a public page as is, a protected
      one through its guard, anything else the not-found page. */
  function Show(path: seq<string>, loading: bool, user: Option<Viewer>): (r: View)
    ensures (forall j | 0 <= j < |Patterns| :: !PatternMatches(Patterns[j], path)) ==> r == Render(NotFoundPage)
  {
    match MatchFrom(Patterns, path, 0)
    case None => Render(NotFoundPage)
    case Some(k) =>
      match AccessOf(k)
      case Public => Render(ScreenOf(k, path))
      case Protected(role) =>
        match ProtectedRoute(loading, user, role)
        case ShowLoading => Loading
        case RedirectTo(t) => Redirect(t)
        case RenderChildren => Render(ScreenOf(k, path))
  }

  /** The search from the start finds route `k` when it matches and no
      earlier one does. */
  lemma FirstMatchIs(path: seq<string>, k: nat)
    requires k < |Patterns| && PatternMatches(Patterns[k], path)
    requires forall j | 0 <= j < k :: !PatternMatches(Patterns[j], path)
    ensures MatchFrom(Patterns, path, 0) == Some(k)
  {
    NoEarlierMatch(Patterns, path, k);
  }

  /** Sign-in pages are shown whatever the session. */
  lemma LoginAndSignupUnguarded(loading: bool, user: Option<Viewer>)
    ensures Show(["login"], loading, user) == Render(LoginPage)
    ensures Show(["signup"], loading, user) == Render(SignupPage)
  {
    assert PatternMatches(Patterns[0], ["login"]);
    forall j | 0 <= j < 1 ensures !PatternMatches(Patterns[j], ["signup"]) {
      LitNeedsLength(Patterns[j][0].text, "signup");
    }
    FirstMatchIs(["signup"], 1);
  }

  /** The password-recovery pages are shown whatever the session. */
  lemma RecoveryPagesUnguarded(loading: bool, user: Option<Viewer>, token: string)
    requires token != ""
    ensures Show(["forgot-password"], loading, user) == Render(ForgotPasswordPage)
    ensures Show(["reset-password", token], loading, user) == Render(ResetPasswordPage(token))
  {
    forall j | 0 <= j < 2 ensures !PatternMatches(Patterns[j], ["forgot-password"]) {
      LitNeedsLength(Patterns[j][0].text, "forgot-password");
    }
    FirstMatchIs(["forgot-password"], 2);
    FirstMatchIs(["reset-password", token], 3);
  }

  /** The teacher dashboard admits exactly role "teacher"; anyone else
      signed in is sent to /unauthorized. */
  lemma TeacherDashboardTeacherOnly(user: Viewer)
    ensures Show(["teacher", "dashboard"], false, Some(user)) ==
            (if user.role == Some("teacher") then Render(TeacherDashboardPage) else Redirect("/unauthorized"))
  {
    var p := ["teacher", "dashboard"];
    assert PatternMatches(Patterns[9], p);
    forall k | 0 <= k < 9 ensures !PatternMatches(Patterns[k], p) {
      if k == 3 {
        LitNeedsLength("reset-password", "teacher");
        assert !SegmentMatches(Patterns[3][0], p[0]);
      }
    }
    FirstMatchIs(p, 9);
  }

  /** No route declares /unauthorized, so the redirect target shows the
      not-found page. */
  lemma UnauthorizedShowsNotFound(loading: bool, user: Option<Viewer>)
    ensures Show(["unauthorized"], loading, user) == Render(NotFoundPage)
  {
    var u := ["unauthorized"];
    forall k | 0 <= k < |Patterns| ensures !PatternMatches(Patterns[k], u) {
      if |Patterns[k]| == 1 {
        LitNeedsLength(Patterns[k][0].text, u[0]);
      }
    }
  }
}
