/** The input validators of frontend/src/utils/validateInput.js, and the
    unanchored email test `/\S+@\S+\.\S+/` that the sign-up, login and
    forgot-password pages use. Each validator is stated as a direct
    characterisation and proved equal to the regular expression it is written
    with, read through the reference semantics of module Regex. */
module Validators {
  import opened Common
  import opened Text
  import opened Regex

  predicate NoWhitespace(s: string) {
    forall i :: 0 <= i < |s| ==> !IsWhitespace(s[i])
  }

  /** `X+@X+\.X+` for a character class X. */
  function AtDotPattern(cls: CharClass): seq<Piece> {
    [Piece(cls, 1, None), One('@'), Piece(cls, 1, None), One('.'), Piece(cls, 1, None)]
  }

  /** `s[a..b]` splits at an '@' at index `j` and a '.' at index `k` into
      three non-empty runs of class `cls`. */
  predicate AtDotSplit(cls: CharClass, s: string, a: int, j: int, k: int, b: int) {
    && 0 <= a < j && j + 1 < k && k + 1 < b <= |s|
    && s[j] == '@' && s[k] == '.'
    && AllInRange(s, a, j, cls) && AllInRange(s, j + 1, k, cls) && AllInRange(s, k + 1, b, cls)
  }

  lemma AtDotIntro(cls: CharClass, s: string, a: int, j: int, k: int, b: int)
    requires AtDotSplit(cls, s, a, j, k, b)
    ensures MatchesAt(AtDotPattern(cls), s, a, b)
  {
    var run := Piece(cls, 1, None);
    MatchSingle(run, s, k + 1, b);
    MatchCons(One('.'), [run], s, k, k + 1, b);
    assert [One('.')] + [run] == [One('.'), run];
    MatchCons(run, [One('.'), run], s, j + 1, k, b);
    assert [run] + [One('.'), run] == [run, One('.'), run];
    MatchCons(One('@'), [run, One('.'), run], s, j, j + 1, b);
    assert [One('@')] + [run, One('.'), run] == AtDotPattern(cls)[1..];
    MatchCons(run, AtDotPattern(cls)[1..], s, a, j, b);
    assert [run] + AtDotPattern(cls)[1..] == AtDotPattern(cls);
  }

  lemma AtDotElim(cls: CharClass, s: string, a: int, b: int) returns (j: int, k: int)
    requires 0 <= a <= b <= |s| && MatchesAt(AtDotPattern(cls), s, a, b)
    ensures AtDotSplit(cls, s, a, j, k, b)
  {
    var run := Piece(cls, 1, None);
    var P0, P1, P2, P3, P4 := AtDotPattern(cls), [One('@'), run, One('.'), run],
                              [run, One('.'), run], [One('.'), run], [run];
    assert P0[1..] == P1 && P1[1..] == P2 && P2[1..] == P3 && P3[1..] == P4;
    j := MatchUncons(P0, s, a, b);
    var j1 := MatchUncons(P1, s, j, b);
    assert InClass(s[j], Lit('@'));
    k := MatchUncons(P2, s, j1, b);
    var k1 := MatchUncons(P3, s, k, b);
    assert InClass(s[k], Lit('.'));
    MatchSingle(run, s, k1, b);
  }

  // ------------------------------------------------------------ validateEmail

  /** `^[^\s@]+@[^\s@]+\.[^\s@]+$` */
  function EmailPattern(): seq<Piece> { AtDotPattern(NotSpaceNorAt) }

  /** validateEmail: no whitespace; exactly one '@', which is not the first
      character; and a '.' in the domain after the '@' that is neither the
      domain's first nor its last character. */
  predicate ValidateEmail(s: string) {
    && NoWhitespace(s)
    && exists j | 0 < j < |s| ::
         && s[j] == '@'
         && (forall i | 0 <= i < |s| && i != j :: s[i] != '@')
         && exists k | j + 1 < k < |s| - 1 :: s[k] == '.'
  }

  lemma ValidateEmailIsPattern(s: string)
    ensures ValidateEmail(s) <==> Matches(EmailPattern(), s)
  {
    if ValidateEmail(s) {
      var j :| 0 < j < |s| && s[j] == '@' && (forall i | 0 <= i < |s| && i != j :: s[i] != '@')
               && exists k | j + 1 < k < |s| - 1 :: s[k] == '.';
      var k :| j + 1 < k < |s| - 1 && s[k] == '.';
      AtDotIntro(NotSpaceNorAt, s, 0, j, k, |s|);
    }
    if Matches(EmailPattern(), s) {
      var j, k := AtDotElim(NotSpaceNorAt, s, 0, |s|);
      assert forall i | 0 <= i < |s| :: i == j || i == k || InClass(s[i], NotSpaceNorAt);
    }
  }

  // ------------------------------------------------------- /\S+@\S+\.\S+/.test

  /** `\S+@\S+\.\S+`, searched for anywhere in the string. */
  function EmailShapePattern(): seq<Piece> { AtDotPattern(NotSpace) }

  /** The unanchored email test of the sign-up, login and forgot-password
      pages: somewhere in `s` a non-whitespace character, an '@', at least one
      non-whitespace character, a '.' and a non-whitespace character follow
      each other with no whitespace in between. */
  predicate HasEmailShape(s: string) {
    exists j | 1 <= j < |s| ::
      exists k | j + 1 < k < |s| - 1 ::
        && s[j] == '@' && s[k] == '.'
        && forall i | j - 1 <= i < k + 2 :: !IsWhitespace(s[i])
  }

  lemma HasEmailShapeIsSearch(s: string)
    ensures HasEmailShape(s) <==> Search(EmailShapePattern(), s)
  {
    if HasEmailShape(s) {
      var j, k :| 1 <= j < |s| && j + 1 < k < |s| - 1 && s[j] == '@' && s[k] == '.'
                  && forall i | j - 1 <= i < k + 2 :: !IsWhitespace(s[i]);
      AtDotIntro(NotSpace, s, j - 1, j, k, k + 2);
    }
    if Search(EmailShapePattern(), s) {
      var a, b :| 0 <= a <= b <= |s| && MatchesAt(EmailShapePattern(), s, a, b);
      var j, k := AtDotElim(NotSpace, s, a, b);
      assert forall i | a <= i < b :: i == j || i == k || InClass(s[i], NotSpace);
    }
  }

  /** Every address validateEmail accepts also passes the pages' looser test. */
  lemma ValidEmailHasEmailShape(s: string)
    requires ValidateEmail(s)
    ensures HasEmailShape(s)
  {
    var j :| 0 < j < |s| && s[j] == '@' && (forall i | 0 <= i < |s| && i != j :: s[i] != '@')
             && exists k | j + 1 < k < |s| - 1 :: s[k] == '.';
    var k :| j + 1 < k < |s| - 1 && s[k] == '.';
    assert s[j] == '@' && s[k] == '.' && forall i | j - 1 <= i < k + 2 :: !IsWhitespace(s[i]);
  }

  /** The looser test accepts strings validateEmail rejects: two '@' signs. */
  lemma EmailShapeIsLooser()
    ensures HasEmailShape("a@b@c.d") && !ValidateEmail("a@b@c.d")
  {
    var s := "a@b@c.d";
    assert s[3] == '@' && s[5] == '.';
    assert forall i | 2 <= i < 7 :: !IsWhitespace(s[i]);
    assert s[1] == '@';
  }

  // --------------------------------------------------------- validatePassword

  /** `.*` */
  function AnyRun(): Piece { Piece(AnyButLineTerminator, 0, None) }

  /** `(?=.*X)` for a one-character class X. */
  function Contains(cls: CharClass): seq<Piece> { [AnyRun(), Piece(cls, 1, Some(1))] }

  /** `^(?=.*[a-z])(?=.*[A-Z])(?=.*\d).{8,}$` */
  ghost predicate PasswordRegex(s: string) {
    && LookaheadAtStart(Contains(Lowercase), s)
    && LookaheadAtStart(Contains(Uppercase), s)
    && LookaheadAtStart(Contains(Digit), s)
    && Matches([Piece(AnyButLineTerminator, 8, None)], s)
  }

  /** validatePassword: at least eight characters, none a line terminator,
      with an ASCII lower-case letter, an upper-case letter and a digit. */
  predicate ValidatePassword(s: string) {
    && |s| >= 8
    && (forall i | 0 <= i < |s| :: !IsLineTerminator(s[i]))
    && (exists i | 0 <= i < |s| :: IsLower(s[i]))
    && (exists i | 0 <= i < |s| :: IsUpper(s[i]))
    && (exists i | 0 <= i < |s| :: IsDigit(s[i]))
  }

  /** On a string without line terminators, `(?=.*X)` holds at the start iff
      some character is of class X. */
  lemma LookaheadContains(cls: CharClass, s: string)
    requires forall i | 0 <= i < |s| :: !IsLineTerminator(s[i])
    ensures LookaheadAtStart(Contains(cls), s) <==> exists i | 0 <= i < |s| :: InClass(s[i], cls)
  {
    var one := Piece(cls, 1, Some(1));
    assert Contains(cls)[1..] == [one];
    if LookaheadAtStart(Contains(cls), s) {
      var m :| 0 <= m <= |s| && MatchesAt(Contains(cls), s, 0, m);
      var n := MatchUncons(Contains(cls), s, 0, m);
      MatchSingle(one, s, n, m);
      assert InClass(s[n], cls);
    }
    if exists i | 0 <= i < |s| :: InClass(s[i], cls) {
      var i :| 0 <= i < |s| && InClass(s[i], cls);
      MatchSingle(one, s, i, i + 1);
      MatchCons(AnyRun(), [one], s, 0, i, i + 1);
      assert [AnyRun()] + [one] == Contains(cls);
    }
  }

  lemma ValidatePasswordIsPattern(s: string)
    ensures ValidatePassword(s) <==> PasswordRegex(s)
  {
    MatchSingle(Piece(AnyButLineTerminator, 8, None), s, 0, |s|);
    if forall i | 0 <= i < |s| :: !IsLineTerminator(s[i]) {
      LookaheadContains(Lowercase, s);
      LookaheadContains(Uppercase, s);
      LookaheadContains(Digit, s);
    }
  }

  // ------------------------------------------------ single-class validators

  /** validateName: at least two characters, each an ASCII letter or a space. */
  predicate ValidateName(s: string) {
    |s| >= 2 && forall i | 0 <= i < |s| :: IsAsciiLetter(s[i]) || s[i] == ' '
  }

  lemma ValidateNameIsPattern(s: string)
    ensures ValidateName(s) <==> Matches([Piece(LetterOrSpace, 2, None)], s)
  {
    MatchSingle(Piece(LetterOrSpace, 2, None), s, 0, |s|);
  }

  /** validateName accepts a name of spaces only, which trims to nothing. */
  lemma ValidateNameAcceptsBlank()
    ensures ValidateName("  ") && Trim("  ") == ""
  {
    assert AllWhitespace("  ");
  }

  /** validateQRCode: 6 to 12 ASCII letters or digits. */
  predicate ValidateQRCode(s: string) {
    6 <= |s| <= 12 && forall i | 0 <= i < |s| :: IsAsciiAlnum(s[i])
  }

  lemma ValidateQRCodeIsPattern(s: string)
    ensures ValidateQRCode(s) <==> Matches([Piece(Alnum, 6, Some(12))], s)
  {
    MatchSingle(Piece(Alnum, 6, Some(12)), s, 0, |s|);
  }

  /** validateRollNumber: 1 to 10 ASCII digits. */
  predicate ValidateRollNumber(s: string) {
    1 <= |s| <= 10 && AllDigits(s)
  }

  lemma ValidateRollNumberIsPattern(s: string)
    ensures ValidateRollNumber(s) <==> Matches([Piece(Digit, 1, Some(10))], s)
  {
    MatchSingle(Piece(Digit, 1, Some(10)), s, 0, |s|);
  }

  /** validatePhone, and the `^\d{10}$` test of the student sign-up page:
      exactly ten ASCII digits. */
  predicate ValidatePhone(s: string) {
    |s| == 10 && AllDigits(s)
  }

  lemma ValidatePhoneIsPattern(s: string)
    ensures ValidatePhone(s) <==> Matches([Piece(Digit, 10, Some(10))], s)
  {
    MatchSingle(Piece(Digit, 10, Some(10)), s, 0, |s|);
  }

  /** Every accepted phone number is also an accepted roll number. */
  lemma PhoneIsRollNumber(s: string)
    requires ValidatePhone(s)
    ensures ValidateRollNumber(s)
  {
  }

  /** isEmpty: the value is absent, or trimming leaves nothing. */
  function IsEmpty(value: Option<string>): (r: bool)
    ensures r <==> value.None? || AllWhitespace(value.value)
  {
    value.None? || Trim(value.value) == ""
  }
}
