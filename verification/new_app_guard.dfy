/** The route table and `ProtectedRoute` of the second frontend
    (frontend_new/src/App.jsx), where a guard lists the roles it admits. */
module NewAppGuard {
  import opened Common
  import opened Paths

  /** The signed-in user as the guard sees it; `role` may be missing. */
  datatype Viewer = Viewer(role: Option<string>)

  datatype Decision = LoadingScreen | RedirectTo(target: string) | RenderChildren

  /** `allowedRoles.includes(user.role)`: a missing role is in no list. */
  predicate Includes(allowedRoles: seq<string>, role: Option<string>) {
    role.Some? && role.value in allowedRoles
  }

  /** ProtectedRoute: loading first, then sign-in, then the role list when it
      is non-empty. */
  function ProtectedRoute(loading: bool, user: Option<Viewer>, allowedRoles: seq<string>): (r: Decision)
    ensures loading <==> r == LoadingScreen
    ensures r == RedirectTo("/login") <==> !loading && user.None?
    ensures r == RedirectTo("/dashboard") <==>
              !loading && user.Some? && |allowedRoles| > 0 && !Includes(allowedRoles, user.value.role)
    ensures r.LoadingScreen? || r.RenderChildren? || r == RedirectTo("/login") || r == RedirectTo("/dashboard")
  {
    if loading then LoadingScreen
    else if user.None? then RedirectTo("/login")
    else if |allowedRoles| > 0 && !Includes(allowedRoles, user.value.role) then RedirectTo("/dashboard")
    else RenderChildren
  }

  /** An empty list admits every signed-in user; a non-empty one exactly
      those whose role it lists. */
  lemma GuardAdmits(user: Viewer, allowedRoles: seq<string>)
    ensures allowedRoles == [] ==> ProtectedRoute(false, Some(user), allowedRoles) == RenderChildren
    ensures allowedRoles != [] ==>
              (ProtectedRoute(false, Some(user), allowedRoles) == RenderChildren <==> Includes(allowedRoles, user.role))
  {
  }

  datatype Screen = LoginPage | SignupPage | DashboardPage | AttendancePage | TeacherPage | ReportPage

  /** What a route renders: a page as is, a page behind a guard, or a
      redirect. */
  datatype Element = Page(screen: Screen) | Guarded(allowedRoles: seq<string>, page: Screen) | Navigate(to: string)

  /** The declared route paths in order. */
  const Patterns: seq<seq<Segment>> := [
    [Lit("login")],
    [Lit("signup")],
    [Lit("dashboard")],
    [Lit("attendance")],
    [Lit("teacher")],
    [Lit("report")],
    []
  ]

  /** No path matches two declared routes, so the router's ranking and the
      first match in declaration order choose the same route. */
  lemma RoutesDisjoint(i: nat, j: nat, path: seq<string>)
    requires i < j < |Patterns|
    ensures !(PatternMatches(Patterns[i], path) && PatternMatches(Patterns[j], path))
  {
    ApartDisjoint(Patterns[i], Patterns[j], path);
  }

  /** The element of the route at index `k`. */
  function ElementOf(k: nat): Element
    requires k < |Patterns|
  {
    match k
    case 0 => Page(LoginPage)
    case 1 => Page(SignupPage)
    case 2 => Guarded([], DashboardPage)
    case 3 => Guarded(["student"], AttendancePage)
    case 4 => Guarded(["teacher", "admin"], TeacherPage)
    case 5 => Guarded([], ReportPage)
    case _ => Navigate("/login")
  }

  /** What the application shows; with no catch-all route an unmatched path
      renders nothing inside the layout. */
  datatype View = Render(screen: Screen) | Loading | Redirect(target: string) | Blank

  function Show(path: seq<string>, loading: bool, user: Option<Viewer>): (r: View)
    ensures r == Blank <==> forall j | 0 <= j < |Patterns| :: !PatternMatches(Patterns[j], path)
    ensures r.Redirect? ==> r.target == "/login" || (r.target == "/dashboard" && user.Some?)
  {
    match MatchFrom(Patterns, path, 0)
    case None => Blank
    case Some(k) =>
      match ElementOf(k)
      case Page(s) => Render(s)
      case Navigate(t) => Redirect(t)
      case Guarded(roles, s) =>
        match ProtectedRoute(loading, user, roles)
        case LoadingScreen => Loading
        case RedirectTo(t) => Redirect(t)
        case RenderChildren => Render(s)
  }

  /** The search from the start finds route `k` when it matches and no
      earlier one does. */
  lemma FirstMatchIs(path: seq<string>, k: nat)
    requires k < |Patterns| && PatternMatches(Patterns[k], path)
    requires forall j | 0 <= j < k :: !PatternMatches(Patterns[j], path)
    ensures MatchFrom(Patterns, path, 0) == Some(k)
  {
    NoEarlierMatch(Patterns, path, k);
  }

  /** A one-segment path picks the single literal route that spells it. */
  lemma LiteralRoute(x: string, k: nat)
    requires k < 6 && Patterns[k] == [Lit(x)]
    ensures MatchFrom(Patterns, [x], 0) == Some(k)
  {
    forall j | 0 <= j < k ensures !PatternMatches(Patterns[j], [x]) {
      LitNeedsLength(Patterns[j][0].text, x);
      LitNeedsFirst(Patterns[j][0].text, x);
    }
    FirstMatchIs([x], k);
  }

  /** The sign-in pages and the dashboard: the two redirect targets. */
  lemma RedirectTargetsShow(loading: bool, user: Option<Viewer>)
    ensures Show(["login"], loading, user) == Render(LoginPage)
    ensures !loading && user.Some? ==> Show(["dashboard"], loading, user) == Render(DashboardPage)
  {
    LiteralRoute("login", 0);
    LiteralRoute("dashboard", 2);
  }

  /** Following a redirect never leads to another one: /login always
      renders, and /dashboard renders for the signed-in user who was sent
      there. */
  lemma NoRedirectLoop(path: seq<string>, user: Option<Viewer>)
    requires Show(path, false, user).Redirect?
    ensures Show(path, false, user).target == "/login" ==> Show(["login"], false, user).Render?
    ensures Show(path, false, user).target == "/dashboard" ==> Show(["dashboard"], false, user).Render?
  {
    RedirectTargetsShow(false, user);
  }

  /** /attendance is for students only; anyone else goes to /dashboard. */
  lemma AttendanceStudentOnly(user: Viewer)
    ensures Show(["attendance"], false, Some(user)) ==
            (if user.role == Some("student") then Render(AttendancePage) else Redirect("/dashboard"))
  {
    LiteralRoute("attendance", 3);
    assert Includes(["student"], user.role) <==> user.role == Some("student");
  }

  /** /teacher admits teachers and admins and sends students to /dashboard. */
  lemma TeacherPageForStaff(user: Viewer)
    ensures Show(["teacher"], false, Some(user)) ==
            (if user.role == Some("teacher") || user.role == Some("admin") then Render(TeacherPage)
             else Redirect("/dashboard"))
  {
    LiteralRoute("teacher", 4);
    assert Includes(["teacher", "admin"], user.role) <==> user.role == Some("teacher") || user.role == Some("admin");
  }

  /** /report renders for any signed-in user. */
  lemma ReportForSignedIn(user: Viewer)
    ensures Show(["report"], false, Some(user)) == Render(ReportPage)
  {
    LiteralRoute("report", 5);
  }

  /** "/" is declared as a redirect to /login, whatever the session. */
  lemma RootRedirectsToLogin(loading: bool, user: Option<Viewer>)
    ensures Show([], loading, user) == Redirect("/login")
  {
    forall j | 0 <= j < 6 ensures !PatternMatches(Patterns[j], []) {
    }
    FirstMatchIs([], 6);
  }
}
