/**
 * Text helpers standing in for JavaScript's rendering of a non-negative
 * integer in a template literal, and for `String.prototype.trim`.
 */
module Text {

  predicate IsDigit(c: char) {
    '0' <= c <= '9'
  }

  predicate AllDigits(s: string) {
    forall i :: 0 <= i < |s| ==> IsDigit(s[i])
  }

  function DigitChar(d: nat): (c: char)
    requires d < 10
    ensures IsDigit(c)
  {
    ['0', '1', '2', '3', '4', '5', '6', '7', '8', '9'][d]
  }

  function DigitValue(c: char): (d: nat)
    requires IsDigit(c)
    ensures d < 10 && DigitChar(d) == c
  {
    (c as int - '0' as int) as nat
  }

  /** The decimal rendering of `n`, as `${n}` produces for a non-negative integer. */
  function NatToString(n: nat): (s: string)
    ensures |s| > 0 && AllDigits(s)
  {
    if n < 10 then [DigitChar(n)] else NatToString(n / 10) + [DigitChar(n % 10)]
  }

  /** The value of a string of decimal digits (the empty string reads as 0). */
  function ParseNat(s: string): nat
    requires AllDigits(s)
  {
    if s == [] then 0 else ParseNat(s[..|s| - 1]) * 10 + DigitValue(s[|s| - 1])
  }

  /** Rendering a number and reading it back gives the number. */
  lemma {:induction false} ParseNatToString(n: nat)
    ensures ParseNat(NatToString(n)) == n
  {
    var s := NatToString(n);
    if n >= 10 {
      ParseNatToString(n / 10);
      assert s[..|s| - 1] == NatToString(n / 10);
    }
  }

  /** The longest prefix of `s` made of decimal digits. */
  function DigitPrefix(s: string): (p: string)
    ensures AllDigits(p) && p <= s
    ensures |p| < |s| ==> !IsDigit(s[|p|])
  {
    if s == [] || !IsDigit(s[0]) then [] else [s[0]] + DigitPrefix(s[1..])
  }

  /** A run of digits followed by a non-digit is read off exactly. */
  lemma {:induction false} DigitPrefixOf(d: string, t: string)
    requires AllDigits(d)
    requires t == [] || !IsDigit(t[0])
    ensures DigitPrefix(d + t) == d
  {
    if d != [] {
      assert (d + t)[1..] == d[1..] + t;
      DigitPrefixOf(d[1..], t);
    }
  }

  /** The characters `String.prototype.trim` removes: WhiteSpace and LineTerminator of ECMAScript. */
  predicate IsWhitespace(c: char) {
    c == ' ' || c == '\t' || c == '\n' || c == '\r' || c == '\U{000B}' || c == '\U{000C}'
    || c == '\U{00A0}' || c == '\U{1680}' || ('\U{2000}' <= c <= '\U{200A}')
    || c == '\U{2028}' || c == '\U{2029}' || c == '\U{202F}' || c == '\U{205F}'
    || c == '\U{3000}' || c == '\U{FEFF}'
  }

  function TrimStart(s: string): (r: string)
    ensures r == [] || !IsWhitespace(r[0])
    ensures |r| <= |s| && r == s[|s| - |r|..]
  {
    if s != [] && IsWhitespace(s[0]) then TrimStart(s[1..]) else s
  }

  function TrimEnd(s: string): (r: string)
    ensures r == [] || !IsWhitespace(r[|r| - 1])
    ensures r <= s
  {
    if s != [] && IsWhitespace(s[|s| - 1]) then TrimEnd(s[..|s| - 1]) else s
  }

  /** `s.trim()`: leading and trailing whitespace removed. */
  function Trim(s: string): string {
    TrimEnd(TrimStart(s))
  }

  /** Stripping leading whitespace keeps a final character that is not whitespace. */
  lemma {:induction false} TrimStartKeepsLast(s: string)
    requires s != [] && !IsWhitespace(s[|s| - 1])
    ensures TrimStart(s) != [] && TrimStart(s)[|TrimStart(s)| - 1] == s[|s| - 1]
  {
    if IsWhitespace(s[0]) {
      TrimStartKeepsLast(s[1..]);
    }
  }

  /** Trimming a string that ends in a non-whitespace character only strips its start. */
  lemma TrimEndingInText(s: string)
    requires s != [] && !IsWhitespace(s[|s| - 1])
    ensures Trim(s) == TrimStart(s)
  {
    TrimStartKeepsLast(s);
  }

  /** Leading whitespace of `a` is what trimming `a + b` removes, when `a` is not blank. */
  lemma {:induction false} TrimStartAppend(a: string, b: string)
    ensures TrimStart(a + b) == if TrimStart(a) == [] then TrimStart(b) else TrimStart(a) + b
  {
    if a != [] {
      assert (a + b)[0] == a[0];
      assert (a + b)[1..] == a[1..] + b;
      if IsWhitespace(a[0]) {
        TrimStartAppend(a[1..], b);
      }
    } else {
      assert a + b == b;
    }
  }
}
