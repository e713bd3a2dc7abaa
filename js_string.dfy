/** The part of JavaScript's string semantics the backend relies on:
    `String.prototype.trim`, which removes leading and trailing white space
    and line terminators (ECMAScript's WhiteSpace and LineTerminator sets). */
module JsString {

  /** ECMAScript WhiteSpace (TAB, VT, FF, SP, NBSP, ZWNBSP and the
      space separators of category Zs) and LineTerminator (LF, CR, LS, PS). */
  const WhiteSpace: set<char> := {
    '\U{0009}', '\U{000B}', '\U{000C}', '\U{0020}', '\U{00A0}', '\U{FEFF}',
    '\U{1680}', '\U{2000}', '\U{2001}', '\U{2002}', '\U{2003}', '\U{2004}',
    '\U{2005}', '\U{2006}', '\U{2007}', '\U{2008}', '\U{2009}', '\U{200A}',
    '\U{202F}', '\U{205F}', '\U{3000}',
    '\U{000A}', '\U{000D}', '\U{2028}', '\U{2029}'
  }

  predicate IsWhiteSpace(c: char)
  {
    c in WhiteSpace
  }

  /** Every character of `s` is white space (vacuously so for ""). */
  predicate Blank(s: string)
  {
    forall i :: 0 <= i < |s| ==> IsWhiteSpace(s[i])
  }

  /** The number of white space characters `s` starts with. */
  function LeadingSpace(s: string): (n: nat)
    ensures n <= |s|
    ensures forall k :: 0 <= k < n ==> IsWhiteSpace(s[k])
    ensures n < |s| ==> !IsWhiteSpace(s[n])
    decreases |s|
  {
    if |s| > 0 && IsWhiteSpace(s[0]) then 1 + LeadingSpace(s[1..]) else 0
  }

  /** Where the trailing white space of `s[lo..hi]` begins: every character
      from there up to `hi` is white space, and the one before it, if it is
      not before `lo`, is not. */
  function TrailingCut(s: string, lo: nat, hi: nat): (j: nat)
    requires lo <= hi <= |s|
    ensures lo <= j <= hi
    ensures forall k :: j <= k < hi ==> IsWhiteSpace(s[k])
    ensures j > lo ==> !IsWhiteSpace(s[j - 1])
    decreases hi
  {
    if hi > lo && IsWhiteSpace(s[hi - 1]) then TrailingCut(s, lo, hi - 1) else hi
  }

  /** `s.trim()`: the slice of `s` between its leading and its trailing
      white space. It is empty exactly when `s` is white space only, and
      otherwise neither starts nor ends with white space. */
  function Trim(s: string): (r: string)
    ensures var i := LeadingSpace(s);
            && i + |r| <= |s| && r == s[i..i + |r|]
            && (forall k :: 0 <= k < i ==> IsWhiteSpace(s[k]))
            && (forall k :: i + |r| <= k < |s| ==> IsWhiteSpace(s[k]))
    ensures r == [] <==> Blank(s)
    ensures r != [] ==> !IsWhiteSpace(r[0]) && !IsWhiteSpace(r[|r| - 1])
  {
    var i := LeadingSpace(s);
    s[i..TrailingCut(s, i, |s|)]
  }
}
