/**
 * `String.prototype.trim` as ECMAScript defines it: leading and trailing
 * WhiteSpace and LineTerminator code points are removed (ECMA-262, "White
 * Space" and "Line Terminators" in the lexical grammar).
 */
module Text {

  /** ECMAScript WhiteSpace (including every space separator) or LineTerminator. */
  predicate IsWhitespace(c: char) {
    // TAB, LF, VT, FF, CR, SPACE, NO-BREAK SPACE
    || c == '\t' || c == '\n' || c == '\U{000B}' || c == '\U{000C}' || c == '\r' || c == ' ' || c == '\U{00A0}'
    // OGHAM SPACE MARK, EN QUAD .. HAIR SPACE
    || c == '\U{1680}' || ('\U{2000}' <= c <= '\U{200A}')
    // LINE SEPARATOR, PARAGRAPH SEPARATOR, NARROW NO-BREAK SPACE, MEDIUM MATHEMATICAL SPACE
    || c == '\U{2028}' || c == '\U{2029}' || c == '\U{202F}' || c == '\U{205F}'
    // IDEOGRAPHIC SPACE, ZERO WIDTH NO-BREAK SPACE
    || c == '\U{3000}' || c == '\U{FEFF}'
  }

  predicate StartsWith(s: string, prefix: string) {
    |prefix| <= |s| && s[..|prefix|] == prefix
  }

  /** The end of the run of whitespace in `s` that starts at `i`. */
  function SkipSpaces(s: string, i: nat): (k: nat)
    requires i <= |s|
    ensures i <= k <= |s|
    ensures forall j :: i <= j < k ==> IsWhitespace(s[j])
    ensures k < |s| ==> !IsWhitespace(s[k])
    decreases |s| - i
  {
    if i < |s| && IsWhitespace(s[i]) then SkipSpaces(s, i + 1) else i
  }

  /** The start of the run of whitespace in `s[lo..e]` that ends at `e`. */
  function SkipSpacesBack(s: string, lo: nat, e: nat): (k: nat)
    requires lo <= e <= |s|
    ensures lo <= k <= e
    ensures forall j :: k <= j < e ==> IsWhitespace(s[j])
    ensures lo < k ==> !IsWhitespace(s[k - 1])
    decreases e
  {
    if lo < e && IsWhitespace(s[e - 1]) then SkipSpacesBack(s, lo, e - 1) else e
  }

  /** A string that neither starts nor ends with whitespace. */
  predicate IsTrimmed(s: string) {
    s == [] || (!IsWhitespace(s[0]) && !IsWhitespace(s[|s| - 1]))
  }

  /** `s` is `r` with only whitespace before it (the first `k` characters) and after it. */
  predicate PaddedAt(s: string, r: string, k: int) {
    && 0 <= k <= |s| - |r| && r == s[k..k + |r|]
    && (forall i :: 0 <= i < k ==> IsWhitespace(s[i]))
    && (forall i :: k + |r| <= i < |s| ==> IsWhitespace(s[i]))
  }

  /** `s.trim()`: the leading whitespace is skipped, then the trailing whitespace of what is left. */
  function Trim(s: string): (r: string)
    ensures IsTrimmed(r)
    ensures r == [] <==> forall i :: 0 <= i < |s| ==> IsWhitespace(s[i])
    ensures exists k :: PaddedAt(s, r, k)
  {
    var k := SkipSpaces(s, 0);
    var e := SkipSpacesBack(s, k, |s|);
    assert PaddedAt(s, s[k..e], k);
    s[k..e]
  }

  /** Trimming a string that is already trimmed changes nothing. */
  lemma TrimmedIsFixed(s: string)
    requires IsTrimmed(s)
    ensures Trim(s) == s
  {
  }

  /** Two trimmed strings, the first one non-empty, make a trimmed string. */
  lemma ConcatTrimmed(a: string, b: string)
    requires a != [] && IsTrimmed(a) && IsTrimmed(b)
    ensures IsTrimmed(a + b)
  {
    var c := a + b;
    assert c[0] == a[0];
    assert c[|c| - 1] == if b == [] then a[|a| - 1] else b[|b| - 1];
  }

  lemma TrimIdempotent(s: string)
    ensures Trim(Trim(s)) == Trim(s)
  {
    TrimmedIsFixed(Trim(s));
  }
}
