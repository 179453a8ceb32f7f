/** Reference semantics for the fragment of JavaScript regular expressions that
    the input validators are written in: a concatenation of character classes,
    each repeated between a minimum and an optional maximum number of times. */
module Regex {
  import opened Common
  import opened Text

  datatype CharClass =
    | Lit(c: char)             // a literal character, such as `@` or `\.`
    | NotSpace                 // `\S`
    | NotSpaceNorAt            // `[^\s@]`
    | LetterOrSpace            // `[A-Za-z ]`
    | Alnum                    // `[A-Za-z0-9]`
    | Digit                    // `[0-9]` and `\d`
    | Lowercase                // `[a-z]`
    | Uppercase                // `[A-Z]`
    | AnyButLineTerminator     // `.`

  predicate InClass(c: char, k: CharClass) {
    match k
    case Lit(d) => c == d
    case NotSpace => !IsWhitespace(c)
    case NotSpaceNorAt => !IsWhitespace(c) && c != '@'
    case LetterOrSpace => IsAsciiLetter(c) || c == ' '
    case Alnum => IsAsciiAlnum(c)
    case Digit => IsDigit(c)
    case Lowercase => IsLower(c)
    case Uppercase => IsUpper(c)
    case AnyButLineTerminator => !IsLineTerminator(c)
  }

  /** `cls{min,max}`; an absent `max` is an open upper bound (`{min,}`, `+`, `*`). */
  datatype Piece = Piece(cls: CharClass, min: nat, max: Option<nat>)

  function One(c: char): Piece { Piece(Lit(c), 1, Some(1)) }

  predicate Fits(p: Piece, n: int) {
    p.min <= n && (p.max.None? || n <= p.max.value)
  }

  /** Every character of `s[from..to]` belongs to class `k`. */
  predicate AllInRange(s: string, from: int, to: int, k: CharClass)
    requires 0 <= from <= to <= |s|
  {
    forall i :: from <= i < to ==> InClass(s[i], k)
  }

  /** `s[from..to]` matches the concatenation `ps`, each piece taking a
      contiguous run of the characters. */
  ghost predicate MatchesAt(ps: seq<Piece>, s: string, from: int, to: int)
    requires 0 <= from <= to <= |s|
    decreases |ps|
  {
    if ps == [] then from == to
    else exists n :: from <= n <= to && Fits(ps[0], n - from)
                     && AllInRange(s, from, n, ps[0].cls) && MatchesAt(ps[1..], s, n, to)
  }

  /** An anchored pattern `^...$`: the whole string matches. */
  ghost predicate Matches(ps: seq<Piece>, s: string) {
    MatchesAt(ps, s, 0, |s|)
  }

  /** `RegExp.prototype.test` of an unanchored pattern: some infix of `s` matches. */
  ghost predicate Search(ps: seq<Piece>, s: string) {
    exists a, b :: 0 <= a <= b <= |s| && MatchesAt(ps, s, a, b)
  }

  /** A lookahead `(?=...)` at the start of the string: some prefix matches. */
  ghost predicate LookaheadAtStart(ps: seq<Piece>, s: string) {
    exists m :: 0 <= m <= |s| && MatchesAt(ps, s, 0, m)
  }

  /** Introduces a match by naming where the first piece ends. */
  lemma MatchCons(p: Piece, ps: seq<Piece>, s: string, from: int, n: int, to: int)
    requires 0 <= from <= n <= to <= |s|
    requires Fits(p, n - from) && AllInRange(s, from, n, p.cls) && MatchesAt(ps, s, n, to)
    ensures MatchesAt([p] + ps, s, from, to)
  {
    assert ([p] + ps)[0] == p && ([p] + ps)[1..] == ps;
  }

  /** Eliminates a match: where its first piece ends. */
  lemma MatchUncons(ps: seq<Piece>, s: string, from: int, to: int) returns (n: int)
    requires 0 <= from <= to <= |s| && ps != [] && MatchesAt(ps, s, from, to)
    ensures from <= n <= to && Fits(ps[0], n - from)
    ensures AllInRange(s, from, n, ps[0].cls) && MatchesAt(ps[1..], s, n, to)
  {
    n :| from <= n <= to && Fits(ps[0], n - from)
         && AllInRange(s, from, n, ps[0].cls) && MatchesAt(ps[1..], s, n, to);
  }

  /** A single piece matches exactly the runs of its class whose length fits. */
  lemma MatchSingle(p: Piece, s: string, from: int, to: int)
    requires 0 <= from <= to <= |s|
    ensures MatchesAt([p], s, from, to) <==> Fits(p, to - from) && AllInRange(s, from, to, p.cls)
  {
    var ps := [p];
    assert ps[0] == p && ps[1..] == [];
    if Fits(p, to - from) && AllInRange(s, from, to, p.cls) {
      assert MatchesAt(ps[1..], s, to, to);
    }
  }
}
