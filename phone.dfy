/** The phone-number check of the careers form: the pattern `^\+?[\d\s-]{10,15}$`. */
module Phone {

  /** `\d`: an ASCII decimal digit. */
  predicate IsDigit(c: char) {
    '0' <= c <= '9'
  }

  /** `\s`: the WhiteSpace and LineTerminator code points of ECMAScript. */
  predicate IsWhitespace(c: char) {
    c == '\t' || c == '\n' || c == '\U{000B}' || c == '\U{000C}' || c == '\r' ||
    c == ' ' || c == '\U{00A0}' || c == '\U{1680}' ||
    ('\U{2000}' <= c <= '\U{200A}') ||
    c == '\U{2028}' || c == '\U{2029}' || c == '\U{202F}' || c == '\U{205F}' ||
    c == '\U{3000}' || c == '\U{FEFF}'
  }

  /** One character of the class `[\d\s-]`. */
  predicate InClass(c: char) {
    IsDigit(c) || IsWhitespace(c) || c == '-'
  }

  predicate AllInClass(s: string) {
    forall i :: 0 <= i < |s| ==> InClass(s[i])
  }

  lemma AllInClassUncons(s: string)
    requires s != []
    ensures AllInClass(s) <==> InClass(s[0]) && AllInClass(s[1..])
  {
    if InClass(s[0]) && AllInClass(s[1..]) {
      forall i | 0 < i < |s| ensures InClass(s[i]) { assert s[i] == s[1..][i - 1]; }
    }
  }

  /** The matcher for `[\d\s-]{lo,hi}$`: consumes one class character at a time,
      `lo` more are still required and at most `hi` more are allowed. It
      matches exactly when the length is within the bounds and every
      character is in the class. */
  function MatchRepeat(s: string, lo: nat, hi: nat): (r: bool)
    ensures r <==> lo <= |s| <= hi && AllInClass(s)
    decreases |s|
  {
    if s == [] then lo == 0
    else
      AllInClassUncons(s);
      hi > 0 && InClass(s[0]) && MatchRepeat(s[1..], if lo > 0 then lo - 1 else 0, hi - 1)
  }

  /** The accepted shape, stated without the matcher. */
  predicate PhoneBody(s: string) {
    10 <= |s| <= 15 && AllInClass(s)
  }

  /** `/^\+?[\d\s-]{10,15}$/.test(s)`: the optional `+` is tried first, then the
      match without it. A phone string is accepted exactly when it is an
      optional leading `+` followed by 10 to 15 characters, each a digit,
      whitespace or `-`. */
  function PhoneRegexTest(s: string): (r: bool)
    ensures r <==> PhoneBody(s) || (|s| > 0 && s[0] == '+' && PhoneBody(s[1..]))
  {
    (|s| > 0 && s[0] == '+' && MatchRepeat(s[1..], 10, 15)) || MatchRepeat(s, 10, 15)
  }

  /** Digits are not counted on their own: ten to fifteen hyphens pass,
      although the alert shown on rejection speaks of "at least 10 digits". */
  lemma HyphensOnlyAccepted(s: string)
    requires 10 <= |s| <= 15
    requires forall i :: 0 <= i < |s| ==> s[i] == '-'
    ensures PhoneRegexTest(s)
  {
  }

  /** A doubled `+` is refused. */
  lemma DoublePlusRejected(s: string)
    requires |s| >= 2 && s[0] == '+' && s[1] == '+'
    ensures !PhoneRegexTest(s)
  {
    assert !InClass(s[0]) && !InClass(s[1..][0]);
  }

  /** A character outside the class after the first position is refused,
      a letter for instance. */
  lemma OutsideClassRejected(s: string, k: nat)
    requires 0 < k < |s| && !InClass(s[k])
    ensures !PhoneRegexTest(s)
  {
    assert s[1..][k - 1] == s[k];
  }

  /** Fewer than ten characters, or more than sixteen, never pass. */
  lemma LengthOutOfRangeRejected(s: string)
    requires |s| < 10 || |s| > 16
    ensures !PhoneRegexTest(s)
  {
  }

  /** An international number written with spaces and hyphens is accepted. */
  lemma FormattedNumberAccepted(s: string)
    requires s == "+1 555-123-4567"
    ensures PhoneRegexTest(s)
  {
    assert PhoneBody(s[1..]);
  }
}
