/** The landing page of the second frontend
    (frontend_new/src/pages/Dashboard.jsx): a student sees counts and a
    rate over their whole history and its first ten records; anyone else
    sees today's records. The counting and the colours are the report's. */
module Dashboard {
  import opened Common
  import opened Report
  import Mongo
  import AttendanceController
  import AttendanceRoutes

  datatype Summary = Summary(totalDays: nat, presentDays: nat, absentDays: nat, lateDays: nat,
                             percentage: nat)

  const EmptySummary := Summary(0, 0, 0, 0, 0)

  datatype Page = Page(stats: Summary, recent: seq<Record>, loading: bool)

  const Initial := Page(EmptySummary, [], true)

  /** The number of records `slice(0, 10)` keeps. */
  const RecentLimit := 10

  /** The summary of a student's history. */
  function Summarize(history: seq<Record>): (r: Summary)
    ensures r.totalDays == |history|
    ensures r.presentDays == CountStatus(history, "present")
    ensures r.absentDays == CountStatus(history, "absent")
    ensures r.lateDays == CountStatus(history, "late")
    ensures r.presentDays + r.absentDays + r.lateDays <= r.totalDays
    ensures r.percentage == Rate(r.presentDays, r.totalDays)
    ensures r.percentage <= 100 && (history == [] ==> r.percentage == 0)
  {
    CountsWithinTotal(history);
    var present := CountStatus(history, "present");
    Summary(|history|, present, CountStatus(history, "absent"), CountStatus(history, "late"),
            Rate(present, |history|))
  }

  /** `attendanceData.slice(0, 10)`. */
  function Recent(history: seq<Record>): (r: seq<Record>)
    ensures |r| == if |history| < RecentLimit then |history| else RecentLimit
    ensures r <= history
  {
    if |history| < RecentLimit then history else history[..RecentLimit]
  }

  /** fetchAttendanceData: a student's page is filled from the history
      request, anyone else's from today's records; a failed request leaves
      the page as it was. Loading ends in every case. */
  function Fetch(p: Page, role: Option<string>, history: Outcome<seq<Record>>,
                 today: Outcome<seq<Record>>): (r: Page)
    ensures !r.loading
    ensures role == Some("student") && history.Returned? ==>
              r.stats.totalDays == |history.value| && r.recent <= history.value
    ensures role == Some("student") && history.Threw? ==> r == p.(loading := false)
    ensures role != Some("student") ==> r.stats == p.stats
    ensures role != Some("student") && today.Returned? ==> r.recent == today.value
    ensures role != Some("student") && today.Threw? ==> r == p.(loading := false)
  {
    if role == Some("student") then
      match history
      case Returned(h) => Page(Summarize(h), Recent(h), false)
      case Threw(_) => p.(loading := false)
    else
      match today
      case Returned(t) => p.(recent := t, loading := false)
      case Threw(_) => p.(loading := false)
  }

  /** The dashboard's figures for a student are the report's figures over
      the same records. */
  lemma SameFiguresAsReport(history: seq<Record>)
    ensures var s := Summarize(history);
            var t := CalculateStats(history);
            s.totalDays == t.totalRecords && s.presentDays == t.presentCount
            && s.absentDays == t.absentCount && s.lateDays == t.lateCount
            && s.percentage == t.attendanceRate
  {
  }

  /** A student with at most ten records sees all of them; with more, the
      first ten in the order the server sent. */
  lemma RecentShowsFirstTen(history: seq<Record>)
    ensures |history| <= RecentLimit ==> Recent(history) == history
    ensures |history| > RecentLimit ==>
              |Recent(history)| == RecentLimit
              && forall i | 0 <= i < RecentLimit :: Recent(history)[i] == history[i]
  {
  }

  /** A student whose every record is present has a perfect score. */
  lemma AllPresentIsHundred(history: seq<Record>)
    requires history != []
    requires forall i | 0 <= i < |history| :: history[i].status == "present"
    ensures Summarize(history).percentage == 100
    ensures Summarize(history).absentDays == 0 && Summarize(history).lateDays == 0
  {
    SelectEverything(history, (x: Record) => x.status == "present");
    RateExtremes(|history|);
    CountsWithinTotal(history);
  }

  /** Fetching again with the same replies gives the same page. */
  lemma FetchIdempotent(p: Page, role: Option<string>, history: Outcome<seq<Record>>,
                        today: Outcome<seq<Record>>)
    ensures Fetch(Fetch(p, role, history, today), role, history, today) == Fetch(p, role, history, today)
  {
  }

  /** The body of the history reply: the server wraps the list as
      `{ success, attendanceHistory }`. */
  datatype HistoryBody = HistoryBody(success: bool, attendanceHistory: seq<Record>)

  /** The page as written takes `response.data` itself for the list; calling
      `filter` on the wrapper object throws a TypeError, which the page
      catches. */
  function ReadAsWritten(reply: Outcome<HistoryBody>): (r: Outcome<seq<Record>>)
    ensures r.Threw?
    ensures reply.Threw? ==> r.message == reply.message
  {
    match reply
    case Returned(_) => Threw("attendanceData.filter is not a function")
    case Threw(m) => Threw(m)
  }

  /** Reading the list out of the wrapper. */
  function ReadHistory(reply: Outcome<HistoryBody>): (r: Outcome<seq<Record>>)
    ensures r.Returned? <==> reply.Returned?
    ensures r.Returned? ==> r.value == reply.value.attendanceHistory
  {
    match reply
    case Returned(b) => Returned(b.attendanceHistory)
    case Threw(m) => Threw(m)
  }

  /** As written, a student's dashboard never shows figures: whatever the
      server returns, the page keeps its previous counts and list. */
  lemma WrappedHistoryShowsNothing(p: Page, reply: Outcome<HistoryBody>, today: Outcome<seq<Record>>)
    ensures Fetch(p, Some("student"), ReadAsWritten(reply), today) == p.(loading := false)
  {
  }

  /** Reading the wrapped list, a student sees the figures and the first
      records of exactly the history the server sent. */
  lemma HistoryShowsFigures(p: Page, body: HistoryBody, today: Outcome<seq<Record>>)
    ensures var r := Fetch(p, Some("student"), ReadHistory(Returned(body)), today);
            r.stats == Summarize(body.attendanceHistory) && r.recent == Recent(body.attendanceHistory)
            && r.stats.totalDays == |body.attendanceHistory|
  {
  }

  /** The staff view asks for GET /attendance/today, which the router hands
      to getAttendanceById with the id "today"; that id is no ObjectId, so
      the reply is a server error and the page keeps its list. */
  lemma TodayListNeverArrives(l: AttendanceController.Ledger, p: Page, role: Option<string>,
                              history: Outcome<seq<Record>>, message: string)
    requires role != Some("student")
    ensures AttendanceRoutes.Resolve(AttendanceRoutes.Get, ["today"], true)
            == AttendanceRoutes.Dispatch(AttendanceRoutes.GetAttendanceById("today"))
    ensures AttendanceController.GetAttendanceById(l, "today") == Mongo.Err(500, Mongo.ServerError)
    ensures Fetch(p, role, history, Threw(message)) == p.(loading := false)
  {
    AttendanceRoutes.TodayIsShadowed();
  }
}
