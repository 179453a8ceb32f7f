/** The attendance report of the second frontend
    (frontend_new/src/pages/Report.jsx): conjunctive filters over the fetched
    records, per-status counts with a rounded attendance rate, the status
    colour classes, and the CSV export. Dates are millisecond timestamps;
    parsing the filter dates and formatting dates for display are given as
    functions. */
module Report {
  import opened Common
  import opened Text
  import opened Delimited

  /** A fetched attendance record, as the page reads it. `studentName` is
      the populated `userId.name`. */
  datatype Record = Record(date: int, className: string, status: string, studentName: Option<string>,
                           qrCodeUsed: string, verified: bool)

  // ------------------------------------------------------------- selection

  /** `s.filter(p)`. */
  function Select(s: seq<Record>, p: Record -> bool): (r: seq<Record>)
    ensures |r| <= |s|
    ensures forall x | x in r :: x in s && p(x)
    ensures forall x | x in s && p(x) :: x in r
    decreases |s|
  {
    if s == [] then [] else (if p(s[0]) then [s[0]] else []) + Select(s[1..], p)
  }

  /** Predicates that agree on the elements select the same records. */
  lemma {:induction false} SelectCongruent(s: seq<Record>, p: Record -> bool, q: Record -> bool)
    requires forall x | x in s :: p(x) == q(x)
    ensures Select(s, p) == Select(s, q)
    decreases |s|
  {
    if s != [] {
      assert s[0] in s;
      forall x | x in s[1..] ensures p(x) == q(x) {
        assert x in s;
      }
      SelectCongruent(s[1..], p, q);
    }
  }

  /** Filtering twice is filtering once by both conditions. */
  lemma {:induction false} SelectTwice(s: seq<Record>, p: Record -> bool, q: Record -> bool)
    ensures Select(Select(s, p), q) == Select(s, (x: Record) => p(x) && q(x))
    decreases |s|
  {
    if s != [] {
      var rest := Select(s[1..], p);
      SelectTwice(s[1..], p, q);
      if p(s[0]) {
        assert Select(s, p) == [s[0]] + rest;
        assert ([s[0]] + rest)[1..] == rest;
      } else {
        assert Select(s, p) == rest;
      }
    }
  }

  /** A condition every record meets keeps them all, in order. */
  lemma {:induction false} SelectEverything(s: seq<Record>, p: Record -> bool)
    requires forall x | x in s :: p(x)
    ensures Select(s, p) == s
    decreases |s|
  {
    if s != [] {
      assert s[0] in s;
      forall x | x in s[1..] ensures p(x) {
        assert x in s;
      }
      SelectEverything(s[1..], p);
    }
  }

  // --------------------------------------------------------------- filters

  datatype Filters = Filters(dateFrom: string, dateTo: string, className: string, status: string)

  /** `new Date(record.date) >= new Date(filters.dateFrom)`: an unparseable
      bound compares false. */
  predicate OnOrAfter(x: Record, bound: Option<int>) {
    bound.Some? && x.date >= bound.value
  }

  predicate OnOrBefore(x: Record, bound: Option<int>) {
    bound.Some? && x.date <= bound.value
  }

  /** applyFilters: each non-empty filter in turn narrows the records. */
  function ApplyFilters(data: seq<Record>, f: Filters, parseDate: string -> Option<int>): seq<Record> {
    var from := parseDate(f.dateFrom);
    var until := parseDate(f.dateTo);
    var a := if f.dateFrom != "" then Select(data, (x: Record) => OnOrAfter(x, from)) else data;
    var b := if f.dateTo != "" then Select(a, (x: Record) => OnOrBefore(x, until)) else a;
    var c := if f.className != "" then Select(b, (x: Record) => x.className == f.className) else b;
    if f.status != "" then Select(c, (x: Record) => x.status == f.status) else c
  }

  /** The record passes every filter that is set. */
  predicate Keep(x: Record, f: Filters, parseDate: string -> Option<int>) {
    && (f.dateFrom != "" ==> OnOrAfter(x, parseDate(f.dateFrom)))
    && (f.dateTo != "" ==> OnOrBefore(x, parseDate(f.dateTo)))
    && (f.className != "" ==> x.className == f.className)
    && (f.status != "" ==> x.status == f.status)
  }

  /** A filter that only applies when `on` selects by `on ==> q`. */
  lemma OptionalFilter(s: seq<Record>, on: bool, q: Record -> bool, p: Record -> bool)
    requires forall x :: p(x) == (on ==> q(x))
    ensures (if on then Select(s, q) else s) == Select(s, p)
  {
    if on { SelectCongruent(s, q, p); } else { SelectEverything(s, p); }
  }

  /** Filtering step by step is one pass with the conjunction of the set
      filters: the result is the records meeting all of them, in their
      original order. */
  lemma FiltersAreConjunctive(data: seq<Record>, f: Filters, parseDate: string -> Option<int>)
    ensures ApplyFilters(data, f, parseDate) == Select(data, (x: Record) => Keep(x, f, parseDate))
  {
    var from := parseDate(f.dateFrom);
    var until := parseDate(f.dateTo);
    var p1: Record -> bool := (x: Record) => f.dateFrom != "" ==> OnOrAfter(x, from);
    var p2: Record -> bool := (x: Record) => f.dateTo != "" ==> OnOrBefore(x, until);
    var p3: Record -> bool := (x: Record) => f.className != "" ==> x.className == f.className;
    var p4: Record -> bool := (x: Record) => f.status != "" ==> x.status == f.status;
    var a := if f.dateFrom != "" then Select(data, (x: Record) => OnOrAfter(x, from)) else data;
    var b := if f.dateTo != "" then Select(a, (x: Record) => OnOrBefore(x, until)) else a;
    var c := if f.className != "" then Select(b, (x: Record) => x.className == f.className) else b;
    var d := if f.status != "" then Select(c, (x: Record) => x.status == f.status) else c;
    assert a == Select(data, p1) by {
      OptionalFilter(data, f.dateFrom != "", (x: Record) => OnOrAfter(x, from), p1);
    }
    assert b == Select(a, p2) by {
      OptionalFilter(a, f.dateTo != "", (x: Record) => OnOrBefore(x, until), p2);
    }
    assert c == Select(b, p3) by {
      OptionalFilter(b, f.className != "", (x: Record) => x.className == f.className, p3);
    }
    assert d == Select(c, p4) by {
      OptionalFilter(c, f.status != "", (x: Record) => x.status == f.status, p4);
    }
    var p12: Record -> bool := (x: Record) => p1(x) && p2(x);
    var p123: Record -> bool := (x: Record) => p12(x) && p3(x);
    assert d == Select(data, (x: Record) => p123(x) && p4(x)) by {
      SelectTwice(data, p1, p2);
      SelectTwice(data, p12, p3);
      SelectTwice(data, p123, p4);
    }
    var keep: Record -> bool := (x: Record) => Keep(x, f, parseDate);
    assert Select(data, (x: Record) => p123(x) && p4(x)) == Select(data, keep) by {
      forall x | x in data ensures (p123(x) && p4(x)) == keep(x) {
        assert p12(x) == (p1(x) && p2(x));
        assert p123(x) == (p12(x) && p3(x));
      }
      SelectCongruent(data, (x: Record) => p123(x) && p4(x), keep);
    }
  }

  /** clearFilters. */
  function ClearFilters(): (r: Filters)
    ensures r.dateFrom == r.dateTo == r.className == r.status == ""
  {
    Filters("", "", "", "")
  }

  /** With every filter cleared, the report shows the records as fetched. */
  lemma ClearedFiltersKeepAll(data: seq<Record>, parseDate: string -> Option<int>)
    ensures ApplyFilters(data, ClearFilters(), parseDate) == data
  {
  }

  datatype FilterName = DateFrom | DateTo | ClassName | Status

  /** handleFilterChange: only the named filter takes the new value. */
  function ChangeFilter(f: Filters, name: FilterName, value: string): (r: Filters)
    ensures (name == DateFrom ==> r.dateFrom == value) && (name != DateFrom ==> r.dateFrom == f.dateFrom)
    ensures (name == DateTo ==> r.dateTo == value) && (name != DateTo ==> r.dateTo == f.dateTo)
    ensures (name == ClassName ==> r.className == value) && (name != ClassName ==> r.className == f.className)
    ensures (name == Status ==> r.status == value) && (name != Status ==> r.status == f.status)
  {
    match name
    case DateFrom => f.(dateFrom := value)
    case DateTo => f.(dateTo := value)
    case ClassName => f.(className := value)
    case Status => f.(status := value)
  }

  // ----------------------------------------------------------------- stats

  /** The number of records with the given status. */
  function CountStatus(s: seq<Record>, status: string): (n: nat)
    ensures n <= |s|
    ensures n == 0 <==> forall i | 0 <= i < |s| :: s[i].status != status
    ensures |s| == 1 ==> n == if s[0].status == status then 1 else 0
  {
    var p := (x: Record) => x.status == status;
    SelectEmptyIff(s, p);
    |Select(s, p)|
  }

  /** Nothing is selected exactly when no element satisfies the predicate. */
  lemma SelectEmptyIff(s: seq<Record>, p: Record -> bool)
    ensures Select(s, p) == [] <==> forall i | 0 <= i < |s| :: !p(s[i])
  {
    var r := Select(s, p);
    if r != [] {
      assert r[0] in r;
    } else {
      forall i | 0 <= i < |s| ensures !p(s[i]) {
        assert s[i] in s;
      }
    }
  }

  /** Selecting from a concatenation selects from each part. */
  lemma {:induction false} SelectAppend(a: seq<Record>, b: seq<Record>, p: Record -> bool)
    ensures Select(a + b, p) == Select(a, p) + Select(b, p)
    decreases |a|
  {
    if a == [] {
      assert a + b == b;
    } else {
      assert (a + b)[0] == a[0];
      assert (a + b)[1..] == a[1..] + b;
      SelectAppend(a[1..], b, p);
    }
  }

  /** Counting is additive: together with the count of a single record, this
      fixes the count of every list as the number of its records with the
      status. */
  lemma CountStatusAppend(a: seq<Record>, b: seq<Record>, status: string)
    ensures CountStatus(a + b, status) == CountStatus(a, status) + CountStatus(b, status)
  {
    SelectAppend(a, b, (x: Record) => x.status == status);
  }

  /** The three named counts never exceed the number of records, whatever
      other statuses the records hold. */
  lemma {:induction false} CountsWithinTotal(s: seq<Record>)
    ensures CountStatus(s, "present") + CountStatus(s, "absent") + CountStatus(s, "late") <= |s|
    decreases |s|
  {
    if s != [] {
      CountsWithinTotal(s[1..]);
      assert Select(s, (x: Record) => x.status == "present") ==
             (if s[0].status == "present" then [s[0]] else []) + Select(s[1..], (x: Record) => x.status == "present");
      assert Select(s, (x: Record) => x.status == "absent") ==
             (if s[0].status == "absent" then [s[0]] else []) + Select(s[1..], (x: Record) => x.status == "absent");
      assert Select(s, (x: Record) => x.status == "late") ==
             (if s[0].status == "late" then [s[0]] else []) + Select(s[1..], (x: Record) => x.status == "late");
    }
  }

  /** `Math.round(present / total * 100)`, or 0 without records, rounding
      halves up on exact rationals. */
  function Rate(present: nat, total: nat): (r: nat)
    requires present <= total
    ensures total == 0 ==> r == 0
    ensures total > 0 ==> 2 * total * r <= 200 * present + total < 2 * total * r + 2 * total
    ensures r <= 100
  {
    if total == 0 then 0
    else
      var r := (200 * present + total) / (2 * total);
      RoundingBounds(200 * present + total, 2 * total);
      AtMostHundred(present, total, r);
      r
  }

  /** The floor-division facts behind Rate. */
  lemma RoundingBounds(a: nat, b: nat)
    requires b > 0
    ensures b * (a / b) <= a < b * (a / b) + b
  {
    var q := a / b;
    var m := a % b;
    assert a == b * q + m;
  }

  lemma MulMono(a: nat, b: nat, c: nat)
    requires b <= c
    ensures a * b <= a * c
  {
  }

  lemma AtMostHundred(present: nat, total: nat, r: nat)
    requires 0 < total && present <= total && 2 * total * r <= 200 * present + total
    ensures r <= 100
  {
    if r > 100 {
      MulMono(200, present, total);
      MulMono(2 * total, 101, r);
    }
  }

  /** Everyone present is 100 per cent and nobody present is 0. */
  lemma RateExtremes(total: nat)
    requires total > 0
    ensures Rate(total, total) == 100 && Rate(0, total) == 0
  {
    var r := Rate(total, total);
    if r < 100 {
      assert 2 * total * r + 2 * total == 2 * total * (r + 1);
      MulMono(2 * total, r + 1, 100);
    }
    var z := Rate(0, total);
    if z > 0 {
      MulMono(2 * total, 1, z);
    }
  }

  datatype Stats = Stats(totalRecords: nat, presentCount: nat, absentCount: nat, lateCount: nat,
                         attendanceRate: nat)

  /** calculateStats over the filtered records. */
  function CalculateStats(data: seq<Record>): (r: Stats)
    ensures r.totalRecords == |data|
    ensures r.presentCount == CountStatus(data, "present")
    ensures r.absentCount == CountStatus(data, "absent")
    ensures r.lateCount == CountStatus(data, "late")
    ensures r.presentCount + r.absentCount + r.lateCount <= r.totalRecords
    ensures r.attendanceRate == Rate(r.presentCount, r.totalRecords)
    ensures r.attendanceRate <= 100 && (data == [] ==> r.attendanceRate == 0)
  {
    CountsWithinTotal(data);
    var present := CountStatus(data, "present");
    Stats(|data|, present, CountStatus(data, "absent"), CountStatus(data, "late"), Rate(present, |data|))
  }

  // ---------------------------------------------------------------- colour

  /** getStatusColor, in both the report and the dashboard. */
  function StatusColor(status: string): (r: string)
    ensures status in {"present", "absent", "late"} ==> r == "status-" + status
    ensures status !in {"present", "absent", "late"} ==> r == "status-unknown"
  {
    match status
    case "present" => "status-present"
    case "absent" => "status-absent"
    case "late" => "status-late"
    case _ => "status-unknown"
  }

  /** Distinct known statuses get distinct classes, and no known status
      shares the fallback class. */
  lemma StatusColorSeparates(s: string, t: string)
    requires s in {"present", "absent", "late"}
    ensures StatusColor(s) != "status-unknown"
    ensures StatusColor(s) == StatusColor(t) <==> s == t
  {
    if t !in {"present", "absent", "late"} {
      assert StatusColor(s)[7..] == s;
      assert "status-unknown"[7..] == "unknown";
    } else if s != t {
      assert StatusColor(s)[7..] == s && StatusColor(t)[7..] == t;
    }
  }

  // ------------------------------------------------------------------- CSV

  const Header: seq<string> := ["Date", "Class", "Student", "Status", "QR Code", "Verified"]

  /** The cells of one exported row, before joining. */
  function RowCells(x: Record, formatDate: int -> string): (r: seq<string>)
    ensures |r| == |Header|
    ensures r[0] == formatDate(x.date) && r[1] == x.className
    ensures Truthy(x.studentName) ==> r[2] == x.studentName.value
    ensures !Truthy(x.studentName) ==> r[2] == "Unknown"
    ensures r[3] == x.status && r[4] == x.qrCodeUsed
    ensures r[5] in {"Yes", "No"} && (r[5] == "Yes" <==> x.verified)
  {
    [formatDate(x.date), x.className, OrElse(x.studentName, "Unknown"), x.status, x.qrCodeUsed,
     if x.verified then "Yes" else "No"]
  }

  /** The lines of exportToCSV, each cell joined by commas as written. */
  function CsvLines(data: seq<Record>, formatDate: int -> string): (r: seq<string>)
    ensures |r| == |data| + 1 && r[0] == Join(Header, ',')
    ensures forall i | 0 <= i < |data| :: r[i + 1] == Join(RowCells(data[i], formatDate), ',')
  {
    [Join(Header, ',')] + seq(|data|, i requires 0 <= i < |data| => Join(RowCells(data[i], formatDate), ','))
  }

  /** exportToCSV's file content. */
  function ExportCsv(data: seq<Record>, formatDate: int -> string): string {
    Join(CsvLines(data, formatDate), '\n')
  }

  /** No cell holds a line break. */
  predicate SingleLine(x: Record, formatDate: int -> string) {
    forall i | 0 <= i < |Header| :: '\n' !in RowCells(x, formatDate)[i]
  }

  lemma {:induction false} JoinKeepsOut(parts: seq<string>, sep: char, c: char)
    requires c != sep && forall i | 0 <= i < |parts| :: c !in parts[i]
    ensures c !in Join(parts, sep)
    decreases |parts|
  {
    if |parts| > 1 {
      JoinKeepsOut(parts[1..], sep, c);
    }
  }

  /** The file has the header line and then one line per record, in order. */
  lemma CsvLineStructure(data: seq<Record>, formatDate: int -> string)
    requires forall i | 0 <= i < |data| :: SingleLine(data[i], formatDate)
    ensures Split(ExportCsv(data, formatDate), '\n') == CsvLines(data, formatDate)
    ensures |Split(ExportCsv(data, formatDate), '\n')| == |data| + 1
  {
    var lines := CsvLines(data, formatDate);
    forall i | 0 <= i < |lines| ensures '\n' !in lines[i] {
      if i == 0 {
        JoinKeepsOut(Header, ',', '\n');
      } else {
        assert SingleLine(data[i - 1], formatDate);
        JoinKeepsOut(RowCells(data[i - 1], formatDate), ',', '\n');
      }
    }
    SplitJoin(lines, '\n');
  }

  // ------------------------------------------------- the date cell's comma

  const MonthAbbrev: seq<string> :=
    ["Jan", "Feb", "Mar", "Apr", "May", "Jun", "Jul", "Aug", "Sep", "Oct", "Nov", "Dec"]

  /** `toLocaleDateString('en-US', { year: 'numeric', month: 'short',
      day: 'numeric' })` of a date whose calendar fields are given. */
  function EnUsDate(month: nat, day: nat, year: nat): string
    requires 1 <= month <= 12
  {
    MonthAbbrev[month - 1] + " " + NatToDecimal(day) + ", " + NatToDecimal(year)
  }

  /** The quote-aware reading of the header gives its six columns. */
  lemma HeaderHasSixColumns()
    ensures Cells(Join(Header, ',')) == Header
  {
    forall i | 0 <= i < |Header| ensures Plain(Header[i]) {
    }
    PlainCellsReadBack(Header);
  }

  lemma DigitsArePlain(s: string)
    requires AllDigits(s)
    ensures Plain(s)
  {
  }

  /** As exported, a row whose other cells are plain reads back as seven
      cells under a six-column header: the en-US date's comma splits the
      date in two and shifts every later column. */
  lemma DateSplitsRow(x: Record, formatDate: int -> string, month: nat, day: nat, year: nat)
    requires 1 <= month <= 12 && formatDate(x.date) == EnUsDate(month, day, year)
    requires forall i | 1 <= i < |Header| :: Plain(RowCells(x, formatDate)[i])
    ensures |Cells(Join(RowCells(x, formatDate), ','))| == 7
    ensures Cells(Join(RowCells(x, formatDate), ','))[0] == MonthAbbrev[month - 1] + " " + NatToDecimal(day)
  {
    var cells := RowCells(x, formatDate);
    var a := MonthAbbrev[month - 1] + " " + NatToDecimal(day);
    var b := " " + NatToDecimal(year);
    DigitsArePlain(NatToDecimal(day));
    DigitsArePlain(NatToDecimal(year));
    assert Plain(MonthAbbrev[month - 1]);
    assert Plain(a);
    assert Plain(b);
    assert cells[0] == a + [','] + b;
    var split := [a, b] + cells[1..];
    assert Join(cells, ',') == Join(split, ',') by {
      JoinSplitsFirst(a, b, cells[1..], ',');
      assert cells == [a + [','] + b] + cells[1..];
    }
    forall i | 0 <= i < |split| ensures Plain(split[i]) {
      if i >= 2 { assert split[i] == cells[i - 1]; }
    }
    PlainCellsReadBack(split);
  }

  /** A row with every cell quoted, the form a CSV reader expects. */
  function QuotedRow(x: Record, formatDate: int -> string): string {
    Join(QuoteAll(RowCells(x, formatDate)), ',')
  }

  /** Quoted, every row reads back as its six cells, date included. */
  lemma QuotedRowReadsBack(x: Record, formatDate: int -> string)
    requires forall i | 0 <= i < |Header| :: '"' !in RowCells(x, formatDate)[i]
    ensures Cells(QuotedRow(x, formatDate)) == RowCells(x, formatDate)
    ensures |Cells(QuotedRow(x, formatDate))| == |Header|
  {
    QuotedCellsReadBack(RowCells(x, formatDate));
  }
}
