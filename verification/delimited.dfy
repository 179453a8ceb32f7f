/** Delimited text: `Array.prototype.join` with a one-character separator,
    splitting text back at a separator, and reading the cells of a CSV line
    the way spreadsheet programs do (a comma inside double quotes belongs to
    the cell). */
module Delimited {

  /** `parts.join(sep)`. */
  function Join(parts: seq<string>, sep: char): (r: string)
    ensures parts == [] ==> r == []
    decreases |parts|
  {
    if parts == [] then []
    else if |parts| == 1 then parts[0]
    else parts[0] + [sep] + Join(parts[1..], sep)
  }

  /** Joining a first part onto the join of the rest. */
  lemma JoinCons(x: string, rest: seq<string>, sep: char)
    requires |rest| >= 1
    ensures Join([x] + rest, sep) == x + [sep] + Join(rest, sep)
  {
    assert ([x] + rest)[1..] == rest;
  }

  lemma Regroup(a: string, b: string, t: string, sep: char)
    ensures a + [sep] + b + [sep] + t == a + [sep] + (b + [sep] + t)
  {
  }

  /** A first part that holds the separator joins like the two parts it
      separates. */
  lemma JoinSplitsFirst(a: string, b: string, rest: seq<string>, sep: char)
    requires |rest| >= 1
    ensures Join([a + [sep] + b] + rest, sep) == Join([a, b] + rest, sep)
  {
    var tail := Join(rest, sep);
    var x := a + [sep] + b;
    var bt := Join([b] + rest, sep);
    assert Join([x] + rest, sep) == x + [sep] + tail by { JoinCons(x, rest, sep); }
    assert bt == b + [sep] + tail by { JoinCons(b, rest, sep); }
    assert Join([a, b] + rest, sep) == a + [sep] + bt by {
      JoinCons(a, [b] + rest, sep);
      assert [a, b] + rest == [a] + ([b] + rest);
    }
    Regroup(a, b, tail, sep);
  }

  /** The pieces of `s` between occurrences of `sep`, the current piece
      starting with `cur`. */
  function SplitFrom(s: string, sep: char, cur: string): (r: seq<string>)
    ensures |r| >= 1
    decreases |s|
  {
    if s == [] then [cur]
    else if s[0] == sep then [cur] + SplitFrom(s[1..], sep, [])
    else SplitFrom(s[1..], sep, cur + [s[0]])
  }

  function Split(s: string, sep: char): seq<string> {
    SplitFrom(s, sep, [])
  }

  lemma {:induction false} SplitSkipsPlain(f: string, rest: string, sep: char, cur: string)
    requires sep !in f
    ensures SplitFrom(f + rest, sep, cur) == SplitFrom(rest, sep, cur + f)
    decreases |f|
  {
    if f != [] {
      assert (f + rest)[0] == f[0];
      assert (f + rest)[1..] == f[1..] + rest;
      SplitSkipsPlain(f[1..], rest, sep, cur + [f[0]]);
      assert cur + [f[0]] + f[1..] == cur + f;
    } else {
      assert f + rest == rest;
      assert cur + f == cur;
    }
  }

  /** Splitting a join gives the parts back when no part holds the
      separator. */
  lemma {:induction false} SplitJoin(parts: seq<string>, sep: char)
    requires |parts| >= 1
    requires forall i | 0 <= i < |parts| :: sep !in parts[i]
    ensures Split(Join(parts, sep), sep) == parts
    decreases |parts|
  {
    if |parts| == 1 {
      SplitSkipsPlain(parts[0], [], sep, []);
      assert parts[0] + [] == parts[0];
      assert [] + parts[0] == parts[0];
    } else {
      var tail := Join(parts[1..], sep);
      SplitSkipsPlain(parts[0], [sep] + tail, sep, []);
      assert parts[0] + [sep] + tail == parts[0] + ([sep] + tail);
      assert [] + parts[0] == parts[0];
      assert ([sep] + tail)[1..] == tail;
      SplitJoin(parts[1..], sep);
      assert parts == [parts[0]] + parts[1..];
    }
  }

  /** The cells of a CSV line: double quotes switch quoting on and off and
      are dropped; a comma outside quotes ends a cell. */
  function CellsFrom(s: string, cur: string, quoted: bool): (r: seq<string>)
    ensures |r| >= 1
    decreases |s|
  {
    if s == [] then [cur]
    else if s[0] == '"' then CellsFrom(s[1..], cur, !quoted)
    else if s[0] == ',' && !quoted then [cur] + CellsFrom(s[1..], [], false)
    else CellsFrom(s[1..], cur + [s[0]], quoted)
  }

  function Cells(line: string): seq<string> {
    CellsFrom(line, [], false)
  }

  /** Text with no double quote is copied into the current cell, commas
      included when inside quotes. */
  lemma {:induction false} CellsSkipText(f: string, rest: string, cur: string, quoted: bool)
    requires '"' !in f && (quoted || ',' !in f)
    ensures CellsFrom(f + rest, cur, quoted) == CellsFrom(rest, cur + f, quoted)
    decreases |f|
  {
    if f != [] {
      assert (f + rest)[0] == f[0];
      assert (f + rest)[1..] == f[1..] + rest;
      CellsSkipText(f[1..], rest, cur + [f[0]], quoted);
      assert cur + [f[0]] + f[1..] == cur + f;
    } else {
      assert f + rest == rest;
      assert cur + f == cur;
    }
  }

  /** A cell no reader can misplace: no comma and no double quote. */
  predicate Plain(f: string) {
    ',' !in f && '"' !in f
  }

  /** Joining plain cells with commas reads back as those cells. */
  lemma {:induction false} PlainCellsReadBack(parts: seq<string>)
    requires |parts| >= 1
    requires forall i | 0 <= i < |parts| :: Plain(parts[i])
    ensures Cells(Join(parts, ',')) == parts
    decreases |parts|
  {
    if |parts| == 1 {
      CellsSkipText(parts[0], [], [], false);
      assert parts[0] + [] == parts[0];
      assert [] + parts[0] == parts[0];
    } else {
      var tail := Join(parts[1..], ',');
      CellsSkipText(parts[0], [','] + tail, [], false);
      assert parts[0] + [','] + tail == parts[0] + ([','] + tail);
      assert [] + parts[0] == parts[0];
      assert ([','] + tail)[1..] == tail;
      PlainCellsReadBack(parts[1..]);
      assert parts == [parts[0]] + parts[1..];
    }
  }

  /** A cell wrapped in double quotes. */
  function Quote(f: string): (r: string)
    ensures |r| == |f| + 2 && r[0] == '"' && r[|r| - 1] == '"'
  {
    ['"'] + f + ['"']
  }

  function QuoteAll(parts: seq<string>): (r: seq<string>)
    ensures |r| == |parts| && forall i | 0 <= i < |parts| :: r[i] == Quote(parts[i])
  {
    if parts == [] then [] else [Quote(parts[0])] + QuoteAll(parts[1..])
  }

  /** One quoted cell is read back whole, commas and all. */
  lemma QuotedCellReadBack(f: string, rest: string, cur: string)
    requires '"' !in f
    ensures CellsFrom(Quote(f) + rest, cur, false) == CellsFrom(rest, cur + f, false)
  {
    var s := Quote(f) + rest;
    assert s[0] == '"' && s[1..] == f + (['"'] + rest);
    CellsSkipText(f, ['"'] + rest, cur, true);
    assert (['"'] + rest)[1..] == rest;
  }

  /** Joining quoted cells with commas reads back as the cells, whatever
      commas they hold, as long as none holds a double quote. */
  lemma {:induction false} QuotedCellsReadBack(parts: seq<string>)
    requires |parts| >= 1
    requires forall i | 0 <= i < |parts| :: '"' !in parts[i]
    ensures Cells(Join(QuoteAll(parts), ',')) == parts
    decreases |parts|
  {
    var q := QuoteAll(parts);
    if |parts| == 1 {
      QuotedCellReadBack(parts[0], [], []);
      assert q[0] + [] == q[0];
      assert [] + parts[0] == parts[0];
    } else {
      assert q[1..] == QuoteAll(parts[1..]);
      var tail := Join(q[1..], ',');
      QuotedCellReadBack(parts[0], [','] + tail, []);
      assert q[0] + [','] + tail == q[0] + ([','] + tail);
      assert [] + parts[0] == parts[0];
      assert ([','] + tail)[1..] == tail;
      QuotedCellsReadBack(parts[1..]);
      assert parts == [parts[0]] + parts[1..];
    }
  }
}
