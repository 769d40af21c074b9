/**
 * String primitives the chat code relies on: JavaScript's and PHP's `trim`,
 * PHP's `empty()` on strings, ASCII case mapping and decimal rendering of
 * integers (`String(n)`, `number.toString()`, PHP's int-to-string).
 */
module Text {

  // ---------------------------------------------------------------------------
  // Trimming

  /** Number of leading characters of `s` that satisfy `p`. */
  function LeadingCount(s: string, p: char -> bool): (n: nat)
    ensures n <= |s|
    ensures forall k :: 0 <= k < n ==> p(s[k])
    ensures n < |s| ==> !p(s[n])
  {
    if |s| == 0 || !p(s[0]) then 0 else 1 + LeadingCount(s[1..], p)
  }

  /** Number of trailing characters of `s` that satisfy `p`. */
  function TrailingCount(s: string, p: char -> bool): (n: nat)
    ensures n <= |s|
    ensures forall k :: |s| - n <= k < |s| ==> p(s[k])
    ensures n < |s| ==> !p(s[|s| - 1 - n])
  {
    if |s| == 0 || !p(s[|s| - 1]) then 0 else 1 + TrailingCount(s[..|s| - 1], p)
  }

  /** `s` without its maximal leading and trailing runs of characters satisfying `p`. */
  function Trim(s: string, p: char -> bool): (r: string)
    ensures r == [] <==> forall k :: 0 <= k < |s| ==> p(s[k])
    ensures r != [] ==> !p(r[0]) && !p(r[|r| - 1])
    // r is what follows the leading run, and everything after r is trimmed too
    ensures LeadingCount(s, p) + |r| <= |s| && r == s[LeadingCount(s, p)..LeadingCount(s, p) + |r|]
    ensures forall k :: LeadingCount(s, p) + |r| <= k < |s| ==> p(s[k])
  {
    var a := LeadingCount(s, p);
    if a == |s| then
      []
    else
      var b := |s| - TrailingCount(s, p);
      s[a..b]
  }

  /** Trimming twice is trimming once. */
  lemma TrimIdempotent(s: string, p: char -> bool)
    ensures Trim(Trim(s, p), p) == Trim(s, p)
  {
    var t := Trim(s, p);
    if t != [] {
      assert LeadingCount(t, p) == 0;
      assert TrailingCount(t, p) == 0;
      assert t[0..|t|] == t;
    }
  }

  /** White space and line terminators as ECMAScript's `String.prototype.trim` and `\s` see them. */
  predicate IsJsSpace(c: char)
  {
    // TAB, LF, VT, FF, CR, SPACE
    || c == '\t' || c == '\n' || c == '\U{B}' || c == '\U{C}' || c == '\r' || c == ' '
    // NO-BREAK SPACE, OGHAM SPACE MARK, EN QUAD .. HAIR SPACE
    || c == '\U{A0}' || c == '\U{1680}' || ('\U{2000}' <= c <= '\U{200A}')
    // LINE SEPARATOR, PARAGRAPH SEPARATOR, NARROW NBSP, MEDIUM MATHEMATICAL SPACE
    || c == '\U{2028}' || c == '\U{2029}' || c == '\U{202F}' || c == '\U{205F}'
    // IDEOGRAPHIC SPACE, BYTE ORDER MARK
    || c == '\U{3000}' || c == '\U{FEFF}'
  }

  /** The characters PHP's `trim()` strips by default: " \t\n\r\0\x0B". */
  predicate IsPhpTrimChar(c: char)
  {
    c == ' ' || c == '\t' || c == '\n' || c == '\r' || c == '\0' || c == '\U{B}'
  }

  /** JavaScript `s.trim()`. */
  function JsTrim(s: string): (r: string)
    ensures r == [] || (!IsJsSpace(r[0]) && !IsJsSpace(r[|r| - 1]))
  {
    Trim(s, IsJsSpace)
  }

  /** PHP `trim($s)` with the default character list. */
  function PhpTrim(s: string): (r: string)
    ensures r == [] || (!IsPhpTrimChar(r[0]) && !IsPhpTrimChar(r[|r| - 1]))
  {
    Trim(s, IsPhpTrimChar)
  }

  /** PHP's `empty()` on a string: true for "" and for "0". */
  predicate IsPhpEmpty(s: string)
  {
    s == "" || s == "0"
  }

  // ---------------------------------------------------------------------------
  // Case mapping (ASCII letters)

  function LowerChar(c: char): char
  {
    if 'A' <= c <= 'Z' then (c as int + 32) as char else c
  }

  function UpperChar(c: char): char
  {
    if 'a' <= c <= 'z' then (c as int - 32) as char else c
  }

  /** `toLowerCase()`, restricted to the ASCII letters. */
  function ToLower(s: string): (r: string)
    ensures |r| == |s|
    ensures forall k :: 0 <= k < |s| ==> r[k] == LowerChar(s[k])
  {
    seq(|s|, k requires 0 <= k < |s| => LowerChar(s[k]))
  }

  /** PHP 8 `strtoupper()`, which maps exactly the ASCII letters. */
  function ToUpper(s: string): (r: string)
    ensures |r| == |s|
    ensures forall k :: 0 <= k < |s| ==> r[k] == UpperChar(s[k])
  {
    seq(|s|, k requires 0 <= k < |s| => UpperChar(s[k]))
  }

  // ---------------------------------------------------------------------------
  // Decimal rendering

  predicate IsDigit(c: char)
  {
    '0' <= c <= '9'
  }

  predicate AllDigits(s: string)
  {
    forall k :: 0 <= k < |s| ==> IsDigit(s[k])
  }

  function DigitChar(d: nat): (c: char)
    requires d < 10
    ensures IsDigit(c) && c as int - '0' as int == d
  {
    ('0' as int + d) as char
  }

  function DigitValue(c: char): (d: nat)
    requires IsDigit(c)
    ensures d < 10
  {
    c as int - '0' as int
  }

  /** The decimal string of a natural number, without leading zeros. */
  function NatToString(n: nat): (s: string)
    ensures |s| > 0 && AllDigits(s)
    ensures |s| > 1 ==> s[0] != '0'
    ensures |s| == 1 <==> n < 10
    ensures |s| == 2 <==> 10 <= n < 100
  {
    if n < 10 then [DigitChar(n)] else NatToString(n / 10) + [DigitChar(n % 10)]
  }

  /** The value of a string of decimal digits. */
  function ParseDigits(s: string): nat
    requires AllDigits(s)
  {
    if |s| == 0 then 0 else ParseDigits(s[..|s| - 1]) * 10 + DigitValue(s[|s| - 1])
  }

  /** Reading back a rendered number gives the number. */
  lemma {:induction false} ParseNatToString(n: nat)
    ensures ParseDigits(NatToString(n)) == n
  {
    if n >= 10 {
      var s := NatToString(n);
      assert s[..|s| - 1] == NatToString(n / 10);
      ParseNatToString(n / 10);
    }
  }

  /** Distinct numbers render to distinct strings. */
  lemma NatToStringInjective(a: nat, b: nat)
    requires NatToString(a) == NatToString(b)
    ensures a == b
  {
    ParseNatToString(a);
    ParseNatToString(b);
  }

  /** `String(i)` for an integer: a minus sign before the digits of a negative value. */
  function IntToString(i: int): (s: string)
    ensures |s| > 0
    ensures i >= 0 ==> AllDigits(s)
    ensures i < 0 ==> s[0] == '-' && AllDigits(s[1..])
  {
    if i < 0 then "-" + NatToString(-i) else NatToString(i)
  }
}
