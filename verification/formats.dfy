/** The field-format checks both page scripts apply to a trimmed value: the
    email pattern (identical in the two scripts), the two different telephone
    rules, and the tax-identifier (INN) pattern. Each is written as the
    language its regular expression accepts. The email pattern and the
    digit-count telephone rule come with a lemma that characterises them in
    other terms; the telephone character pattern and the INN pattern are
    already written in that plain form (a length bound and a condition on
    every character). */
module Formats {
  import opened Text

  // ---------------------------------------------------------------- email

  /** `[^\s@]`: neither whitespace nor `@`. */
  predicate IsAtomChar(c: char) {
    !IsWs(c) && c != '@'
  }

  /** `s[lo..hi]` is matched by `[^\s@]+`. */
  predicate AtomRun(s: string, lo: nat, hi: nat)
    requires lo <= hi <= |s|
  {
    lo < hi && forall k :: lo <= k < hi ==> IsAtomChar(s[k])
  }

  /** `isValidEmail`: the whole of `s` is matched by `^[^\s@]+@[^\s@]+\.[^\s@]+$`,
      that is, `s` splits at an `@` and a later `.` into three runs of `[^\s@]+`. */
  predicate IsValidEmail(s: string) {
    exists at, dot ::
      0 <= at < dot < |s| && s[at] == '@' && s[dot] == '.' &&
      AtomRun(s, 0, at) && AtomRun(s, at + 1, dot) && AtomRun(s, dot + 1, |s|)
  }

  /** The only `@` of `s` is at index `at`. */
  predicate OnlyAtSignAt(s: string, at: nat) {
    at < |s| && s[at] == '@' && forall k :: 0 <= k < |s| && k != at ==> s[k] != '@'
  }

  /** `d` holds a `.` that is neither its first nor its last character. */
  predicate HasInnerDot(d: string) {
    exists k :: 0 < k < |d| - 1 && d[k] == '.'
  }

  /** The shape of an address in plain words: no whitespace, exactly one `@`,
      something before it, and after it a `.` with a character on each side. */
  predicate EmailShape(s: string) {
    (forall k :: 0 <= k < |s| ==> !IsWs(s[k])) &&
    exists at :: 0 < at < |s| && OnlyAtSignAt(s, at) && HasInnerDot(s[at + 1..])
  }

  /** The email pattern accepts exactly the strings of that shape. */
  lemma EmailPatternIff(s: string)
    ensures IsValidEmail(s) <==> EmailShape(s)
  {
    if IsValidEmail(s) {
      var at, dot :| 0 <= at < dot < |s| && s[at] == '@' && s[dot] == '.' &&
        AtomRun(s, 0, at) && AtomRun(s, at + 1, dot) && AtomRun(s, dot + 1, |s|);
      forall k | 0 <= k < |s| ensures !IsWs(s[k]) && (k != at ==> s[k] != '@') {
        if k < at {
          assert IsAtomChar(s[k]);
        } else if at < k < dot {
          assert IsAtomChar(s[k]);
        } else if dot < k {
          assert IsAtomChar(s[k]);
        }
      }
      var d := s[at + 1..];
      assert d[dot - at - 1] == '.';
      assert HasInnerDot(d);
      assert OnlyAtSignAt(s, at);
    }
    if EmailShape(s) {
      var at :| 0 < at < |s| && OnlyAtSignAt(s, at) && HasInnerDot(s[at + 1..]);
      var d := s[at + 1..];
      var k :| 0 < k < |d| - 1 && d[k] == '.';
      var dot := at + 1 + k;
      assert s[dot] == '.';
      assert AtomRun(s, 0, at);
      assert AtomRun(s, at + 1, dot);
      assert AtomRun(s, dot + 1, |s|);
    }
  }

  // ------------------------------------------------- telephone, main.js rule

  /** `[\d\s\-\+\(\)]`. */
  predicate IsPhonePatternChar(c: char) {
    IsDigit(c) || IsWs(c) || c == '-' || c == '+' || c == '(' || c == ')'
  }

  /** The main-script telephone pattern `^[\d\s\-\+\(\)]{10,}$`: at least ten
      characters, each a digit, whitespace, `-`, `+`, `(` or `)`. No digit is
      required. */
  predicate MatchesPhonePattern(s: string) {
    |s| >= 10 && forall k :: 0 <= k < |s| ==> IsPhonePatternChar(s[k])
  }

  // --------------------------------------- telephone, form-validation.js rule

  /** `s.replace(/\D/g, '')`: the digits of `s`, in order. */
  function Digits(s: string): (d: string)
    ensures |d| <= |s|
    ensures AllDigits(d)
  {
    if s == [] then []
    else (if IsDigit(s[0]) then [s[0]] else []) + Digits(s[1..])
  }

  /** `isValidPhone`: at least ten digits remain once every non-digit is removed. */
  predicate IsValidPhone(s: string) {
    |Digits(s)| >= 10
  }

  /** The positions of `s` that hold a digit. */
  function DigitPositions(s: string): (ps: set<nat>) {
    set k: nat | k < |s| && IsDigit(s[k])
  }

  lemma {:induction false} DigitsConcat(a: string, b: string)
    ensures Digits(a + b) == Digits(a) + Digits(b)
  {
    if a == [] {
      assert a + b == b;
    } else {
      assert (a + b)[1..] == a[1..] + b;
      DigitsConcat(a[1..], b);
    }
  }

  lemma {:induction false} DigitsOfNonDigits(s: string)
    requires forall k :: 0 <= k < |s| ==> !IsDigit(s[k])
    ensures Digits(s) == []
  {
    if s != [] {
      DigitsOfNonDigits(s[1..]);
    }
  }

  lemma {:induction false} DigitsOfDigits(s: string)
    requires AllDigits(s)
    ensures Digits(s) == s
  {
    if s != [] {
      DigitsOfDigits(s[1..]);
      assert s == [s[0]] + s[1..];
    }
  }

  /** Stripping keeps exactly one character per digit position. */
  lemma {:induction false} DigitCount(s: string)
    ensures |Digits(s)| == |DigitPositions(s)|
  {
    if s != [] {
      var t, c := s[..|s| - 1], s[|s| - 1];
      assert s == t + [c];
      DigitsConcat(t, [c]);
      DigitCount(t);
      var last: set<nat> := if IsDigit(c) then {|t|} else {};
      assert DigitPositions(s) == DigitPositions(t) + last by {
        forall k: nat | k < |t| ensures s[k] == t[k] { }
      }
      assert |t| !in DigitPositions(t);
    }
  }

  /** `isValidPhone(s)` holds iff at least ten positions of `s` hold a digit. */
  lemma PhoneHasTenDigits(s: string)
    ensures IsValidPhone(s) <==> |DigitPositions(s)| >= 10
  {
    DigitCount(s);
  }

  /** Inserting (or removing) characters that are not digits never changes the
      verdict of `isValidPhone`. */
  lemma PhoneIgnoresNonDigits(a: string, junk: string, b: string)
    requires forall k :: 0 <= k < |junk| ==> !IsDigit(junk[k])
    ensures IsValidPhone(a + junk + b) <==> IsValidPhone(a + b)
  {
    DigitsOfNonDigits(junk);
    DigitsConcat(a, junk);
    DigitsConcat(a + junk, b);
    DigitsConcat(a, b);
  }

  /** On a string made only of digits the two telephone rules agree: both ask
      for at least ten characters. */
  lemma AllDigitPhoneRulesAgree(s: string)
    requires AllDigits(s)
    ensures IsValidPhone(s) <==> MatchesPhonePattern(s)
    ensures IsValidPhone(s) <==> |s| >= 10
  {
    DigitsOfDigits(s);
  }

  /** The two telephone rules disagree: ten or more dashes (say `----------`)
      satisfy the main-script pattern although they hold no digit at all. */
  lemma DashesPassPatternOnly(s: string)
    requires |s| >= 10 && forall k :: 0 <= k < |s| ==> s[k] == '-'
    ensures MatchesPhonePattern(s) && !IsValidPhone(s)
  {
    DigitsOfNonDigits(s);
  }

  /** ... and the other way round: ten digits after a prefix such as `No`
      satisfy `isValidPhone` although the pattern refuses the prefix. */
  lemma PrefixedNumberPassesDigitRuleOnly(prefix: string, number: string)
    requires prefix != [] && forall k :: 0 <= k < |prefix| ==> !IsPhonePatternChar(prefix[k])
    requires AllDigits(number) && |number| >= 10
    ensures IsValidPhone(prefix + number) && !MatchesPhonePattern(prefix + number)
  {
    assert prefix + number == [] + prefix + number;
    PhoneIgnoresNonDigits([], prefix, number);
    assert [] + number == number;
    AllDigitPhoneRulesAgree(number);
    assert !IsPhonePatternChar((prefix + number)[0]);
  }

  // ------------------------------------------------------------------- INN

  /** `isValidINN`: `^\d{10}$|^\d{12}$`, exactly ten or exactly twelve digits. */
  predicate IsValidINN(s: string) {
    AllDigits(s) && (|s| == 10 || |s| == 12)
  }
}
