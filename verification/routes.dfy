/** The attendance router of backend/routes/attendance.js. Express tries the
    routes in declaration order and runs the first whose method and path
    pattern match; every route runs `protect` before its handler. A path is
    given as its segments (see Paths). */
module AttendanceRoutes {
  import opened Common
  import opened Text
  import opened Paths

  datatype Method = Get | Post | Put | Delete

  /** The handler a route leads to, with the parameter it binds. */
  datatype Handler =
    | MarkAttendance
    | GetAllAttendance
    | GetAttendanceById(id: string)
    | GetUserAttendanceHistory(userId: string)
    | GetTodayAttendance
    | UpdateAttendance(id: string)
    | DeleteAttendance(id: string)

  datatype HandlerKind = MarkKind | AllKind | ByIdKind | HistoryKind | TodayKind | UpdateKind | DeleteKind

  datatype Route = Route(verb: Method, pattern: seq<Segment>, kind: HandlerKind)

  /** What happens to a request: a handler runs, `protect` refuses it, or no
      route matches and the not-found middleware answers. */
  datatype Outcome = Dispatch(handler: Handler) | Unauthorized | NotFound

  /** The table in declaration order. */
  const Table: seq<Route> := [
    Route(Post, [Lit("mark")], MarkKind),
    Route(Get, [], AllKind),
    Route(Get, [Param], ByIdKind),
    Route(Get, [Lit("user"), Param], HistoryKind),
    Route(Get, [Lit("today")], TodayKind),
    Route(Put, [Param], UpdateKind),
    Route(Delete, [Param], DeleteKind)
  ]

  predicate RouteMatches(r: Route, m: Method, path: seq<string>) {
    r.verb == m && PatternMatches(r.pattern, path)
  }

  /** The handler a matched route runs. */
  function Bind(r: Route, path: seq<string>): Handler
    requires PatternMatches(r.pattern, path)
  {
    var ps := Params(r.pattern, path);
    match r.kind
    case MarkKind => MarkAttendance
    case AllKind => GetAllAttendance
    case ByIdKind => if |ps| == 1 then GetAttendanceById(ps[0]) else GetAttendanceById("")
    case HistoryKind => if |ps| == 1 then GetUserAttendanceHistory(ps[0]) else GetUserAttendanceHistory("")
    case TodayKind => GetTodayAttendance
    case UpdateKind => if |ps| == 1 then UpdateAttendance(ps[0]) else UpdateAttendance("")
    case DeleteKind => if |ps| == 1 then DeleteAttendance(ps[0]) else DeleteAttendance("")
  }

  /** The index of the first route of `routes` that matches, if any. */
  function FirstMatch(routes: seq<Route>, m: Method, path: seq<string>): (r: Option<nat>)
    ensures r.Some? ==> r.value < |routes| && RouteMatches(routes[r.value], m, path)
    ensures r.Some? ==> forall k | 0 <= k < r.value :: !RouteMatches(routes[k], m, path)
    ensures r.None? ==> forall k | 0 <= k < |routes| :: !RouteMatches(routes[k], m, path)
  {
    if routes == [] then None
    else if RouteMatches(routes[0], m, path) then Some(0)
    else match FirstMatch(routes[1..], m, path)
      case None => None
      case Some(k) => Some(k + 1)
  }

  /** Dispatching a request; `authenticated` is what `protect` decides from
      the bearer token. */
  function Resolve(m: Method, path: seq<string>, authenticated: bool): (r: Outcome)
    ensures r.Dispatch? ==> authenticated
    ensures r == NotFound <==> forall k | 0 <= k < |Table| :: !RouteMatches(Table[k], m, path)
    ensures r.Dispatch? ==> exists k | 0 <= k < |Table| :: RouteMatches(Table[k], m, path)
                                                         && r.handler == Bind(Table[k], path)
  {
    match FirstMatch(Table, m, path)
    case None => NotFound
    case Some(k) => if !authenticated then Unauthorized else Dispatch(Bind(Table[k], path))
  }

  /** GET /today is caught by '/:id' with the id "today". */
  lemma TodayIsShadowed()
    ensures Resolve(Get, ["today"], true) == Dispatch(GetAttendanceById("today"))
  {
    assert RouteMatches(Table[2], Get, ["today"]);
    assert !RouteMatches(Table[1], Get, ["today"]);
  }

  /** No request at all reaches getTodayAttendance. */
  lemma {:induction false} TodayUnreachable(m: Method, path: seq<string>, authenticated: bool)
    ensures Resolve(m, path, authenticated) != Dispatch(GetTodayAttendance)
  {
    var first := FirstMatch(Table, m, path);
    if RouteMatches(Table[4], m, path) {
      TodayRouteMatchesIdRoute(m, path);
    }
    assert first != Some(4);
    if first.Some? {
      BindsTodayOnlyForTodayRoute(Table[first.value], path);
      assert Table[first.value].kind != TodayKind;
    }
  }

  lemma BindsTodayOnlyForTodayRoute(r: Route, path: seq<string>)
    requires PatternMatches(r.pattern, path)
    ensures Bind(r, path) == GetTodayAttendance <==> r.kind == TodayKind
  {
  }

  /** Whatever '/today' matches, the earlier '/:id' matches too. */
  lemma TodayRouteMatchesIdRoute(m: Method, path: seq<string>)
    requires RouteMatches(Table[4], m, path)
    ensures RouteMatches(Table[2], m, path)
  {
    assert SegmentMatches(Lit("today"), path[0]);
    assert |Lower(path[0])| == |Lower("today")| == 5;
  }

  /** GET /user/X reaches the history handler, since '/:id' takes one
      segment only. */
  lemma UserHistoryReached(x: string)
    requires x != ""
    ensures Resolve(Get, ["user", x], true) == Dispatch(GetUserAttendanceHistory(x))
  {
    assert RouteMatches(Table[3], Get, ["user", x]);
    assert Params(Table[3].pattern, ["user", x]) == [x];
  }

  lemma MarkAndListReached()
    ensures Resolve(Post, ["mark"], true) == Dispatch(MarkAttendance)
    ensures Resolve(Get, [], true) == Dispatch(GetAllAttendance)
  {
    assert RouteMatches(Table[0], Post, ["mark"]);
    assert RouteMatches(Table[1], Get, []);
  }

  /** PUT and DELETE on one segment reach update and delete, even for the
      segment "mark". */
  lemma UpdateAndDeleteReached(x: string)
    requires x != ""
    ensures Resolve(Put, [x], true) == Dispatch(UpdateAttendance(x))
    ensures Resolve(Delete, [x], true) == Dispatch(DeleteAttendance(x))
  {
    assert RouteMatches(Table[5], Put, [x]);
    assert Params(Table[5].pattern, [x]) == [x];
    assert RouteMatches(Table[6], Delete, [x]);
    assert Params(Table[6].pattern, [x]) == [x];
  }

  /** Without a valid token every matched route is refused by `protect`. */
  lemma ProtectGuardsEveryRoute(m: Method, path: seq<string>)
    requires exists k | 0 <= k < |Table| :: RouteMatches(Table[k], m, path)
    ensures Resolve(m, path, false) == Unauthorized
  {
  }
}
