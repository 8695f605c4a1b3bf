/** `String.prototype.trim` over the ECMAScript white-space and line-terminator characters. */
module Text {

  /** ECMAScript WhiteSpace and LineTerminator code points: the characters `trim` strips. */
  predicate IsWhitespace(c: char) {
    || c == ' ' || c == '\t' || c == '\n' || c == '\U{B}' || c == '\U{C}' || c == '\r'
    || c == '\U{A0}' || c == '\U{1680}' || ('\U{2000}' <= c <= '\U{200A}')
    || c == '\U{2028}' || c == '\U{2029}' || c == '\U{202F}' || c == '\U{205F}'
    || c == '\U{3000}' || c == '\U{FEFF}'
  }

  /** The positions `lo .. hi-1` of `s` exist and all hold white space. */
  predicate WhitespaceBetween(s: string, lo: int, hi: int) {
    0 <= lo && hi <= |s| && forall i :: lo <= i < hi ==> IsWhitespace(s[i])
  }

  /** Every character of `s` is white space (vacuously true of the empty string). */
  predicate AllWhitespace(s: string) {
    WhitespaceBetween(s, 0, |s|)
  }

  /** `r` neither starts nor ends with white space. */
  predicate Unpadded(r: string) {
    r == [] || (!IsWhitespace(r[0]) && !IsWhitespace(r[|r| - 1]))
  }

  /** `r` occurs in `s` at offset `k`, with only white space before and after it. */
  predicate TrimmedAt(s: string, r: string, k: int) {
    && 0 <= k && k + |r| <= |s|
    && r == s[k..k + |r|]
    && WhitespaceBetween(s, 0, k)
    && WhitespaceBetween(s, k + |r|, |s|)
  }

  /** The first position at or after `i` that does not hold white space (`|s|` if none):
      where the trimmed string starts when scanning from `i`. */
  function SkipLeading(s: string, i: nat): (k: nat)
    requires i <= |s|
    ensures i <= k <= |s|
    ensures WhitespaceBetween(s, i, k)
    ensures k == |s| || !IsWhitespace(s[k])
    decreases |s| - i
  {
    if i < |s| && IsWhitespace(s[i]) then SkipLeading(s, i + 1) else i
  }

  /** The position just past the last character before `j` that does not hold white space,
      looking no further back than `lo` (`lo` if none): where the trimmed string ends. */
  function SkipTrailing(s: string, lo: nat, j: nat): (k: nat)
    requires lo <= j <= |s|
    ensures lo <= k <= j
    ensures WhitespaceBetween(s, k, j)
    ensures k == lo || !IsWhitespace(s[k - 1])
    decreases j
  {
    if lo < j && IsWhitespace(s[j - 1]) then SkipTrailing(s, lo, j - 1) else j
  }

  /** `s` without leading or trailing white space, as `s.trim()` returns it. */
  function Trim(s: string): (r: string)
    ensures Unpadded(r)
    ensures TrimmedAt(s, r, SkipLeading(s, 0))
    ensures r == [] <==> AllWhitespace(s)
  {
    var i := SkipLeading(s, 0);
    var j := SkipTrailing(s, i, |s|);
    assert i < j ==> s[i..j][0] == s[i] && s[i..j][j - i - 1] == s[j - 1];
    s[i..j]
  }

  /** Any unpadded infix of `s` surrounded only by white space is `Trim(s)`:
      `trim` has exactly one possible result. */
  lemma TrimUnique(s: string, r: string, k: int)
    requires TrimmedAt(s, r, k) && Unpadded(r)
    ensures r == Trim(s)
  {
  }

  /** Trimming an already trimmed string changes nothing. */
  lemma TrimIdempotent(s: string)
    ensures Trim(Trim(s)) == Trim(s)
  {
  }
}
