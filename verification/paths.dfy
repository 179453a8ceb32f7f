/** Path patterns as both routers here use them: a request path is given as
    its segments, a literal segment matches without regard to ASCII letter
    case, and a parameter matches any one non-empty segment. */
module Paths {
  import opened Common
  import opened Text

  datatype Segment = Lit(text: string) | Param

  predicate SegmentMatches(s: Segment, text: string) {
    match s
    case Lit(t) => Lower(t) == Lower(text)
    case Param => text != ""
  }

  predicate PatternMatches(pattern: seq<Segment>, path: seq<string>) {
    |pattern| == |path| && forall i | 0 <= i < |path| :: SegmentMatches(pattern[i], path[i])
  }

  /** The values bound by the pattern's parameters, in order. */
  function Params(pattern: seq<Segment>, path: seq<string>): (r: seq<string>)
    requires |pattern| == |path|
    ensures |r| <= |path|
  {
    if pattern == [] then []
    else (if pattern[0].Param? then [path[0]] else []) + Params(pattern[1..], path[1..])
  }

  /** A literal segment only matches text of its own length. */
  lemma LitNeedsLength(t: string, x: string)
    ensures SegmentMatches(Lit(t), x) ==> |t| == |x|
  {
    if SegmentMatches(Lit(t), x) {
      assert |Lower(t)| == |Lower(x)|;
    }
  }

  /** A literal segment only matches text that starts with the same letter,
      up to case. */
  lemma LitNeedsFirst(t: string, x: string)
    ensures SegmentMatches(Lit(t), x) && t != [] ==> |x| > 0 && LowerChar(t[0]) == LowerChar(x[0])
  {
    if SegmentMatches(Lit(t), x) && t != [] {
      assert |Lower(t)| == |Lower(x)|;
      assert Lower(t)[0] == Lower(x)[0];
    }
  }

  /** Two literals of different lengths, or with different first letters,
      never match the same segment. */
  lemma LitsApart(t: string, u: string, x: string)
    requires |t| != |u| || (t != [] && u != [] && LowerChar(t[0]) != LowerChar(u[0]))
    ensures !(SegmentMatches(Lit(t), x) && SegmentMatches(Lit(u), x))
  {
    LitNeedsLength(t, x);
    LitNeedsLength(u, x);
    LitNeedsFirst(t, x);
    LitNeedsFirst(u, x);
  }

  /** Two patterns no path can match together: they differ in length, or
      both start with literals that differ in length or in first letter. */
  predicate Apart(p: seq<Segment>, q: seq<Segment>) {
    || |p| != |q|
    || (&& |p| > 0 && p[0].Lit? && q[0].Lit?
        && (|p[0].text| != |q[0].text|
            || (p[0].text != [] && q[0].text != [] && LowerChar(p[0].text[0]) != LowerChar(q[0].text[0]))))
  }

  lemma ApartDisjoint(p: seq<Segment>, q: seq<Segment>, path: seq<string>)
    requires Apart(p, q)
    ensures !(PatternMatches(p, path) && PatternMatches(q, path))
  {
    if |p| == |q| == |path| {
      LitsApart(p[0].text, q[0].text, path[0]);
    }
  }

  /** The index of the first of `patterns`, from `k` on, that matches
      `path`: the client routers' choice among their declared routes. */
  function MatchFrom(patterns: seq<seq<Segment>>, path: seq<string>, k: nat): (r: Option<nat>)
    requires k <= |patterns|
    ensures r.Some? ==> k <= r.value < |patterns| && PatternMatches(patterns[r.value], path)
    ensures r.Some? ==> forall j | k <= j < r.value :: !PatternMatches(patterns[j], path)
    ensures r.None? ==> forall j | k <= j < |patterns| :: !PatternMatches(patterns[j], path)
    decreases |patterns| - k
  {
    if k == |patterns| then None
    else if PatternMatches(patterns[k], path) then Some(k)
    else MatchFrom(patterns, path, k + 1)
  }

  /** When no pattern before `k` matches, the search from the start lands on
      the first match from `k`. */
  lemma {:induction false} NoEarlierMatch(patterns: seq<seq<Segment>>, path: seq<string>, k: nat)
    requires k <= |patterns|
    requires forall j | 0 <= j < k :: !PatternMatches(patterns[j], path)
    ensures MatchFrom(patterns, path, 0) == MatchFrom(patterns, path, k)
    decreases k
  {
    if k > 0 {
      NoEarlierMatch(patterns, path, k - 1);
    }
  }
}
