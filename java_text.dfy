/**
 * The few pieces of `java.lang.String`, `Character` and Spring's
 * `StringUtils` that the modelled code relies on, with Java's semantics.
 */
module JavaText {
  import opened Wrappers

  /** `Character.isWhitespace`: space separators other than no-break spaces, and the ISO control separators. */
  predicate IsWhitespace(c: char) {
    var n := c as int;
    n == 0x20 || (0x09 <= n <= 0x0D) || (0x1C <= n <= 0x1F)
    || n == 0x1680 || (0x2000 <= n <= 0x2006) || (0x2008 <= n <= 0x200A)
    || n == 0x2028 || n == 0x2029 || n == 0x205F || n == 0x3000
  }

  /** The regular-expression class `\s` (no UNICODE_CHARACTER_CLASS flag): [ \t\n\x0B\f\r]. */
  predicate IsRegexSpace(c: char) {
    var n := c as int;
    n == 0x20 || (0x09 <= n <= 0x0D)
  }

  lemma RegexSpaceIsWhitespace(c: char)
    ensures IsRegexSpace(c) ==> IsWhitespace(c)
  {
  }

  /** `StringUtils.hasText`: non-null and some character is not whitespace. */
  predicate HasText(s: Option<string>) {
    s.Some? && exists i :: 0 <= i < |s.value| && !IsWhitespace(s.value[i])
  }

  /** Characters `String.trim` removes: every code unit up to U+0020. */
  predicate IsTrimmed(c: char) {
    c as int <= 0x20
  }

  /** Number of leading characters `trim` removes. */
  function TrimStart(s: string): (k: nat)
    ensures k <= |s|
    ensures forall i :: 0 <= i < k ==> IsTrimmed(s[i])
    ensures k < |s| ==> !IsTrimmed(s[k])
  {
    if s == [] || !IsTrimmed(s[0]) then 0 else 1 + TrimStart(s[1..])
  }

  /** Length of `s` without the trailing characters `trim` removes. */
  function TrimEnd(s: string): (k: nat)
    ensures k <= |s|
    ensures forall i :: k <= i < |s| ==> IsTrimmed(s[i])
    ensures k > 0 ==> !IsTrimmed(s[k - 1])
  {
    if s == [] || !IsTrimmed(s[|s| - 1]) then |s| else TrimEnd(s[..|s| - 1])
  }

  /** `String.trim`. */
  function Trim(s: string): (r: string)
  {
    var b := TrimStart(s);
    var e := TrimEnd(s);
    if b < e then s[b..e] else []
  }

  /** `s.trim().isEmpty()` holds exactly when every character is at most U+0020. */
  lemma TrimEmpty(s: string)
    ensures Trim(s) == [] <==> forall i :: 0 <= i < |s| ==> IsTrimmed(s[i])
  {
    var b, e := TrimStart(s), TrimEnd(s);
    if b < e {
      assert !IsTrimmed(s[b]);
    }
  }

  /** The result of `trim` neither starts nor ends with a trimmed character. */
  lemma TrimEnds(s: string)
    ensures Trim(s) != [] ==> !IsTrimmed(Trim(s)[0]) && !IsTrimmed(Trim(s)[|Trim(s)| - 1])
  {
  }

  /** `String.toLowerCase` restricted to ASCII letters; other characters are kept. */
  function ToLowerAscii(s: string): (r: string)
    ensures |r| == |s|
    ensures forall i :: 0 <= i < |s| ==>
              r[i] == if 'A' <= s[i] <= 'Z' then (s[i] as int + 32) as char else s[i]
  {
    if s == [] then []
    else [if 'A' <= s[0] <= 'Z' then (s[0] as int + 32) as char else s[0]] + ToLowerAscii(s[1..])
  }

  /** `w` occurs in `s` starting at index `i`. */
  predicate OccursAt(s: string, w: string, i: int) {
    0 <= i <= |s| - |w| && s[i..i + |w|] == w
  }

  /** `s.contains(w)`. */
  predicate Contains(s: string, w: string) {
    exists i | 0 <= i <= |s| - |w| :: OccursAt(s, w, i)
  }

  /** `s.lastIndexOf(c)`: the last position of `c`, or -1. */
  function LastIndexOf(s: string, c: char): (r: int)
    ensures -1 <= r < |s|
    ensures r >= 0 ==> s[r] == c
    ensures forall i :: r < i < |s| ==> s[i] != c
  {
    if s == [] then -1
    else if s[|s| - 1] == c then |s| - 1
    else LastIndexOf(s[..|s| - 1], c)
  }

  /** `s.substring(b, e)`, or the StringIndexOutOfBoundsException it throws. */
  function Substring(s: string, b: int, e: int): (r: Result<string, ServiceError>)
    ensures r.Success? <==> 0 <= b <= e <= |s|
    ensures r.Success? ==> |r.value| == e - b && forall i :: 0 <= i < e - b ==> r.value[i] == s[b + i]
    ensures r.Failure? ==> r.error == IndexOutOfBounds
  {
    if 0 <= b <= e <= |s| then Success(s[b..e]) else Failure(IndexOutOfBounds)
  }

  /** `s.replace(from, to)` for a single character `from`. */
  function ReplaceChar(s: string, from: char, to: string): (r: string)
    ensures from !in s ==> r == s
  {
    if s == [] then []
    else (if s[0] == from then to else [s[0]]) + ReplaceChar(s[1..], from, to)
  }

  /** Decimal digits of `n` (`String.valueOf` of a non-negative integer). */
  function NatToString(n: nat): (r: string)
    ensures |r| > 0
    ensures forall i :: 0 <= i < |r| ==> '0' <= r[i] <= '9'
  {
    if n < 10 then [('0' as int + n) as char]
    else NatToString(n / 10) + [('0' as int + n % 10) as char]
  }
}
