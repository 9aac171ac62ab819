/**
  String trimming as JavaScript's String.prototype.trim performs it: every
  leading and trailing code unit of the WhiteSpace or LineTerminator classes
  (sections 12.2 and 12.3 of ECMA-262) is removed, nothing else is touched.
  The trimming functions and their lemmas take the whitespace class as a
  parameter `isSpace`; `Trim` fixes it to JavaScript's.
 */
module Text {

  /** WhiteSpace and LineTerminator code points of ECMA-262: TAB, VT, FF, ZWNBSP,
      the Unicode space separators (category Zs), LF, CR, LS and PS. */
  predicate IsWhitespace(c: char) {
    || c == '\U{0009}' || c == '\U{000B}' || c == '\U{000C}' || c == '\U{FEFF}'
    || c == '\U{0020}' || c == '\U{00A0}' || c == '\U{1680}'
    || ('\U{2000}' <= c <= '\U{200A}')
    || c == '\U{202F}' || c == '\U{205F}' || c == '\U{3000}'
    || c == '\U{000A}' || c == '\U{000D}' || c == '\U{2028}' || c == '\U{2029}'
  }

  predicate AllSpace(s: string, isSpace: char -> bool) {
    forall i :: 0 <= i < |s| ==> isSpace(s[i])
  }

  /** The slice `s[a..b]` is what trimming `s` keeps: everything outside it is
      whitespace, and a non-empty slice neither starts nor ends with whitespace. */
  ghost predicate TrimmedAt(s: string, isSpace: char -> bool, a: int, b: int) {
    && 0 <= a <= b <= |s|
    && (forall i :: 0 <= i < a ==> isSpace(s[i]))
    && (forall i :: b <= i < |s| ==> isSpace(s[i]))
    && (a < b ==> !isSpace(s[a]) && !isSpace(s[b - 1]))
  }

  /** The first index at or after `i` that holds no whitespace, or |s|. */
  function SkipLeading(s: string, isSpace: char -> bool, i: nat): (k: nat)
    requires i <= |s|
    ensures i <= k <= |s|
    ensures forall j :: i <= j < k ==> isSpace(s[j])
    ensures k == |s| || !isSpace(s[k])
    decreases |s| - i
  {
    if i < |s| && isSpace(s[i]) then SkipLeading(s, isSpace, i + 1) else i
  }

  /** The least `k` with `lo <= k <= j` such that `s[k..j]` is all whitespace. */
  function SkipTrailing(s: string, isSpace: char -> bool, lo: nat, j: nat): (k: nat)
    requires lo <= j <= |s|
    ensures lo <= k <= j
    ensures forall m :: k <= m < j ==> isSpace(s[m])
    ensures k == lo || !isSpace(s[k - 1])
    decreases j - lo
  {
    if lo < j && isSpace(s[j - 1]) then SkipTrailing(s, isSpace, lo, j - 1) else j
  }

  /** Where trimming cuts `s`: the kept slice meets the description above. */
  function TrimBounds(s: string, isSpace: char -> bool): (r: (nat, nat))
    ensures TrimmedAt(s, isSpace, r.0, r.1)
  {
    var a := SkipLeading(s, isSpace, 0);
    (a, SkipTrailing(s, isSpace, a, |s|))
  }

  function TrimBy(s: string, isSpace: char -> bool): string {
    var (a, b) := TrimBounds(s, isSpace);
    s[a..b]
  }

  /** String.prototype.trim: the result is the slice of `s` that meets the
      description above for JavaScript's whitespace class. */
  function Trim(s: string): (r: string)
    ensures exists a, b :: TrimmedAt(s, IsWhitespace, a, b) && r == s[a..b]
  {
    var bounds := TrimBounds(s, IsWhitespace);
    assert TrimmedAt(s, IsWhitespace, bounds.0, bounds.1);
    TrimBy(s, IsWhitespace)
  }

  /** The description determines the slice's contents: two slices that both
      satisfy it are the same string. */
  lemma TrimmedAtUnique(s: string, isSpace: char -> bool, a1: int, b1: int, a2: int, b2: int)
    requires TrimmedAt(s, isSpace, a1, b1) && TrimmedAt(s, isSpace, a2, b2)
    ensures s[a1..b1] == s[a2..b2]
  {
  }

  /** So trimming is the only function meeting the description. */
  lemma TrimUnique(s: string, isSpace: char -> bool, a: int, b: int)
    requires TrimmedAt(s, isSpace, a, b)
    ensures s[a..b] == TrimBy(s, isSpace)
  {
  }

  /** The trimmed string is empty exactly when the input consists of whitespace
      only (the empty string among them). */
  lemma TrimEmptyIffAllSpace(s: string, isSpace: char -> bool)
    ensures TrimBy(s, isSpace) == [] <==> AllSpace(s, isSpace)
  {
  }
}
