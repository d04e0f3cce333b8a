/** The few string operations the correction loop relies on, stated over
    `seq<char>`: JavaScript `String.prototype.trim`, Python's blank test
    `not s.strip()`, a per-character lower-casing and `String.prototype.repeat`. */
module Strings {

  /** The characters JavaScript's `trim` removes: WhiteSpace (tab, vertical tab,
      form feed, space, no-break space, BOM and the Zs category) and
      LineTerminator (LF, CR, LS, PS). */
  predicate IsJsSpace(c: char) {
    || c == '\t' || c == '\n' || c == '\U{000B}' || c == '\U{000C}' || c == '\r'
    || c == ' ' || c == '\U{00A0}' || c == '\U{1680}'
    || ('\U{2000}' <= c <= '\U{200A}')
    || c == '\U{2028}' || c == '\U{2029}' || c == '\U{202F}' || c == '\U{205F}'
    || c == '\U{3000}' || c == '\U{FEFF}'
  }

  /** The characters Python's `str.isspace` accepts (and so `str.strip` removes). */
  predicate IsPySpace(c: char) {
    || ('\t' <= c <= '\r')
    || ('\U{001C}' <= c <= ' ')
    || c == '\U{0085}' || c == '\U{00A0}' || c == '\U{1680}'
    || ('\U{2000}' <= c <= '\U{200A}')
    || c == '\U{2028}' || c == '\U{2029}' || c == '\U{202F}' || c == '\U{205F}'
    || c == '\U{3000}'
  }

  predicate AllJsSpace(s: string) {
    forall i :: 0 <= i < |s| ==> IsJsSpace(s[i])
  }

  /** Python's `not s.strip()`: the string is empty or all whitespace. */
  predicate IsBlankPy(s: string) {
    forall i :: 0 <= i < |s| ==> IsPySpace(s[i])
  }

  /** The end of the whitespace run that starts at `i`. */
  function SkipSpace(s: string, i: nat): (e: nat)
    requires i <= |s|
    ensures i <= e <= |s|
    ensures forall k :: i <= k < e ==> IsJsSpace(s[k])
    ensures e == |s| || !IsJsSpace(s[e])
    decreases |s| - i
  {
    if i < |s| && IsJsSpace(s[i]) then SkipSpace(s, i + 1) else i
  }

  /** The start of the whitespace run that ends at `j`, not going below `lo`. */
  function TrailingSpaceStart(s: string, lo: nat, j: nat): (b: nat)
    requires lo <= j <= |s|
    ensures lo <= b <= j
    ensures forall k :: b <= k < j ==> IsJsSpace(s[k])
    ensures b == lo || !IsJsSpace(s[b - 1])
    decreases j
  {
    if j > lo && IsJsSpace(s[j - 1]) then TrailingSpaceStart(s, lo, j - 1) else j
  }

  /** A string with no whitespace at either end. */
  predicate IsTrimmed(s: string) {
    s == [] || (!IsJsSpace(s[0]) && !IsJsSpace(s[|s| - 1]))
  }

  /** How many whitespace characters `trim` drops from the front of `s`. */
  function LeadingSpace(s: string): nat
    ensures LeadingSpace(s) <= |s|
  {
    SkipSpace(s, 0)
  }

  /** JavaScript `s.trim()`: the part of `s` left after its leading and
      trailing whitespace runs. The result is found in `s` right after the
      leading whitespace, everything before and after it is whitespace, it has
      no whitespace at either end, and it is empty exactly when `s` is all
      whitespace. */
  function Trim(s: string): (r: string)
    ensures LeadingSpace(s) + |r| <= |s| && r == s[LeadingSpace(s)..LeadingSpace(s) + |r|]
    ensures forall k :: 0 <= k < LeadingSpace(s) ==> IsJsSpace(s[k])
    ensures forall k :: LeadingSpace(s) + |r| <= k < |s| ==> IsJsSpace(s[k])
    ensures IsTrimmed(r)
    ensures r == [] <==> AllJsSpace(s)
  {
    var a := SkipSpace(s, 0);
    var b := TrailingSpaceStart(s, a, |s|);
    assert a < |s| ==> b > a;
    s[a..b]
  }

  /** The capitals `toLowerCase` folds by adding 32: ASCII `A`-`Z` and the
      Latin-1 capitals `À`-`Þ` except the multiplication sign `×`. These cover
      English and Spanish text (`Á É Í Ó Ú Ñ Ü`). */
  predicate IsFoldedCapital(c: char) {
    ('A' <= c <= 'Z') || ('\U{C0}' <= c <= '\U{DE}' && c != '\U{D7}')
  }

  /** Lower-casing of one character: a folded capital becomes its small
      letter, which is itself left alone; every other character is kept. */
  function LowerChar(c: char): (r: char)
    ensures IsFoldedCapital(c) ==> r as int == c as int + 32 && !IsFoldedCapital(r)
    ensures !IsFoldedCapital(c) ==> r == c
  {
    if IsFoldedCapital(c) then (c as int + 32) as char else c
  }

  /** `s.toLowerCase()`, character by character. */
  function Lower(s: string): (r: string)
    ensures |r| == |s|
    ensures forall i :: 0 <= i < |s| ==> r[i] == LowerChar(s[i])
  {
    seq(|s|, i requires 0 <= i < |s| => LowerChar(s[i]))
  }

  /** `t.repeat(n)`: `n` copies of `t` back to back. */
  function Repeat(t: string, n: nat): (r: string)
    ensures |r| == n * |t|
  {
    if n == 0 then "" else t + Repeat(t, n - 1)
  }
}
