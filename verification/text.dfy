/** Characters and trimming as the page scripts use them: the whitespace that
    `String.prototype.trim` removes and that the regex class `\s` matches, the
    ASCII digits `\d` matches, and `trim` itself. */
module Text {

  /** ECMAScript WhiteSpace and LineTerminator code points (tab, vertical tab,
      form feed, space, no-break space, byte-order mark, the space separators
      of Unicode category Zs, line feed, carriage return, line and paragraph
      separators). `trim` and `\s` use exactly this set. */
  predicate IsWs(c: char) {
    c == '\t' || c == '\n' || c == '\U{000B}' || c == '\U{000C}' || c == '\r' ||
    c == ' ' || c == '\U{00A0}' || c == '\U{1680}' ||
    ('\U{2000}' <= c <= '\U{200A}') ||
    c == '\U{2028}' || c == '\U{2029}' || c == '\U{202F}' || c == '\U{205F}' ||
    c == '\U{3000}' || c == '\U{FEFF}'
  }

  /** `\d`: an ASCII decimal digit (no `u` flag, so nothing else). */
  predicate IsDigit(c: char) {
    '0' <= c <= '9'
  }

  predicate AllWs(s: string) {
    forall k :: 0 <= k < |s| ==> IsWs(s[k])
  }

  predicate AllDigits(s: string) {
    forall k :: 0 <= k < |s| ==> IsDigit(s[k])
  }

  /** Index of the first non-whitespace character at or after `i` (or `|s|`). */
  function SkipWsForward(s: string, i: nat): (n: nat)
    requires i <= |s|
    ensures i <= n <= |s|
    ensures forall k :: i <= k < n ==> IsWs(s[k])
    ensures n < |s| ==> !IsWs(s[n])
    decreases |s| - i
  {
    if i < |s| && IsWs(s[i]) then SkipWsForward(s, i + 1) else i
  }

  /** Index just past the last non-whitespace character of `s[lo..j]` (or `lo`). */
  function SkipWsBackward(s: string, lo: nat, j: nat): (n: nat)
    requires lo <= j <= |s|
    ensures lo <= n <= j
    ensures forall k :: n <= k < j ==> IsWs(s[k])
    ensures lo < n ==> !IsWs(s[n - 1])
  {
    if lo < j && IsWs(s[j - 1]) then SkipWsBackward(s, lo, j - 1) else j
  }

  /** `String.prototype.trim`: the infix of `s` left after removing the
      whitespace at both ends. It is empty exactly when `s` is all whitespace. */
  function Trim(s: string): (r: string)
    ensures exists i, j ::
              0 <= i <= j <= |s| && r == s[i..j] &&
              (forall k :: 0 <= k < i ==> IsWs(s[k])) && (forall k :: j <= k < |s| ==> IsWs(s[k]))
    ensures r != [] ==> !IsWs(r[0]) && !IsWs(r[|r| - 1])
    ensures r == [] <==> AllWs(s)
  {
    var i := SkipWsForward(s, 0);
    var j := SkipWsBackward(s, i, |s|);
    assert i < j ==> s[i..j][0] == s[i] && s[i..j][j - i - 1] == s[j - 1];
    s[i..j]
  }

  /** A string that neither starts nor ends with whitespace is its own trim. */
  lemma TrimKeepsTrimmed(s: string)
    requires s != [] ==> !IsWs(s[0]) && !IsWs(s[|s| - 1])
    ensures Trim(s) == s
  {
  }

  /** Trimming an already trimmed string changes nothing. */
  lemma TrimIdempotent(s: string)
    ensures Trim(Trim(s)) == Trim(s)
  {
  }
}
