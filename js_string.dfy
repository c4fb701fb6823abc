/** `String.prototype.trim`: strip the white space and line terminators that ECMAScript
    recognises from both ends of a string. */
module JsString {

  /** ECMAScript WhiteSpace (TAB, VT, FF, ZWNBSP and the Unicode "Zs" space separators)
      and LineTerminator (LF, CR, LS, PS). */
  predicate IsWhitespace(c: char) {
    || c == '\t' || c == '\n' || c == '\r' || c == ' '
    || c == '\U{000B}' || c == '\U{000C}' || c == '\U{00A0}' || c == '\U{1680}'
    || ('\U{2000}' <= c <= '\U{200A}')
    || c == '\U{2028}' || c == '\U{2029}' || c == '\U{202F}' || c == '\U{205F}'
    || c == '\U{3000}' || c == '\U{FEFF}'
  }

  predicate AllWhitespace(s: string) {
    forall k :: 0 <= k < |s| ==> IsWhitespace(s[k])
  }

  /** Scanning forward from `i`: the first position at or after `i` that does not hold
      white space (or `|s|`); everything skipped is white space. */
  function SkipForward(s: string, i: nat): (j: nat)
    requires i <= |s|
    ensures i <= j <= |s|
    ensures forall k :: i <= k < j ==> IsWhitespace(s[k])
    ensures j < |s| ==> !IsWhitespace(s[j])
    decreases |s| - i
  {
    if i < |s| && IsWhitespace(s[i]) then SkipForward(s, i + 1) else i
  }

  /** Scanning backward from `j`: the smallest `i <= j` such that `s[i..j]` is all white
      space; the character before it, if any, is not white space. */
  function SkipBackward(s: string, j: nat): (i: nat)
    requires j <= |s|
    ensures i <= j
    ensures forall k :: i <= k < j ==> IsWhitespace(s[k])
    ensures 0 < i ==> !IsWhitespace(s[i - 1])
    decreases j
  {
    if 0 < j && IsWhitespace(s[j - 1]) then SkipBackward(s, j - 1) else j
  }

  /** Where the trimmed string starts: after the leading white space. */
  function TrimStartIndex(s: string): (i: nat)
  {
    SkipForward(s, 0)
  }

  /** Where the trimmed string ends: before the trailing white space, and never before
      where it starts. */
  function TrimEndIndex(s: string): (j: nat)
    ensures TrimStartIndex(s) <= j <= |s|
  {
    var i := TrimStartIndex(s);
    if i == |s| then i
    else
      var j := SkipBackward(s, |s|);
      assert !IsWhitespace(s[i]);
      j
  }

  /** Both ends stripped; the result is empty exactly when `s` is white space only. */
  function Trim(s: string): (r: string)
    ensures r == [] <==> AllWhitespace(s)
  {
    s[TrimStartIndex(s)..TrimEndIndex(s)]
  }

  /** The trimmed string is the slice of `s` between the leading and the trailing white
      space, only white space lies outside it, and it neither starts nor ends with white
      space. */
  lemma TrimIsCore(s: string)
    ensures Trim(s) == s[TrimStartIndex(s)..TrimEndIndex(s)]
    ensures AllWhitespace(s[..TrimStartIndex(s)]) && AllWhitespace(s[TrimEndIndex(s)..])
    ensures Trim(s) == [] || (!IsWhitespace(Trim(s)[0]) && !IsWhitespace(Trim(s)[|Trim(s)| - 1]))
  {
    var i, j := TrimStartIndex(s), TrimEndIndex(s);
    assert forall k :: 0 <= k < i ==> s[..i][k] == s[k];
    assert forall k :: 0 <= k < |s| - j ==> s[j..][k] == s[j + k];
  }

  /** Trimming twice is trimming once. */
  lemma TrimIdempotent(s: string)
    ensures Trim(Trim(s)) == Trim(s)
  {
    var t := Trim(s);
    if t != [] {
      TrimIsCore(s);
      assert TrimStartIndex(t) == 0;
      assert SkipBackward(t, |t|) == |t|;
    }
  }
}
