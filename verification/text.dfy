/**
 * String primitives the storefront relies on from JavaScript: white space as
 * `String.prototype.trim` and the regular-expression class `\s` see it,
 * `startsWith`/`includes`, `padStart`, `substring`, `slice` and the decimal
 * rendering of non-negative integers by `Number.prototype.toString`.
 */
module Text {
  import opened Seqs

  /** WhiteSpace and LineTerminator of ECMA-262: the set both `trim()` and `\s` use. */
  predicate IsWhitespace(c: char) {
    || c == '\t' || c == '\n' || c == '\U{B}' || c == '\U{C}' || c == '\r' || c == ' '
    || c == '\U{A0}' || c == '\U{1680}' || ('\U{2000}' <= c <= '\U{200A}')
    || c == '\U{2028}' || c == '\U{2029}' || c == '\U{202F}' || c == '\U{205F}'
    || c == '\U{3000}' || c == '\U{FEFF}'
  }

  predicate IsAsciiDigit(c: char) { '0' <= c <= '9' }
  predicate IsAsciiLower(c: char) { 'a' <= c <= 'z' }
  predicate IsAsciiUpper(c: char) { 'A' <= c <= 'Z' }

  /** Every character of `s` satisfies `p`. */
  predicate All(s: string, p: char -> bool) {
    forall i :: 0 <= i < |s| ==> p(s[i])
  }

  /** Some character of `s` satisfies `p`. */
  predicate Any(s: string, p: char -> bool) {
    exists i :: 0 <= i < |s| && p(s[i])
  }

  /** A string with nothing but white space (the empty string included): what `!x.trim()` rejects. */
  predicate Blank(s: string) {
    forall i :: 0 <= i < |s| ==> IsWhitespace(s[i])
  }

  predicate StartsWith(s: string, prefix: string) {
    |prefix| <= |s| && s[..|prefix|] == prefix
  }

  /** `sub` occurs in `s` starting at index `i`. */
  predicate OccursAt(s: string, sub: string, i: int) {
    0 <= i <= |s| - |sub| && s[i..i + |sub|] == sub
  }

  /** `s.includes(sub)`: `sub` occurs at some position of `s`. */
  ghost predicate Contains(s: string, sub: string) {
    exists i :: OccursAt(s, sub, i)
  }

  /** `sub` occurs in `s` at position `from` or later (the executable form of Contains). */
  function OccursFrom(s: string, sub: string, from: nat): (b: bool)
    requires from <= |s|
    ensures b <==> exists i :: from <= i && OccursAt(s, sub, i)
    decreases |s| - from
  {
    if from + |sub| > |s| then false
    else if s[from..from + |sub|] == sub then assert OccursAt(s, sub, from); true
    else OccursFrom(s, sub, from + 1)
  }

  function Includes(s: string, sub: string): (b: bool)
    ensures b <==> Contains(s, sub)
  {
    OccursFrom(s, sub, 0)
  }

  /** The first index at or after `from` whose character fails `p`, or `|s|`. */
  function SkipWhile(s: string, p: char -> bool, from: nat): (k: nat)
    requires from <= |s|
    ensures from <= k <= |s|
    ensures forall i :: from <= i < k ==> p(s[i])
    ensures k < |s| ==> !p(s[k])
    decreases |s| - from
  {
    if from < |s| && p(s[from]) then SkipWhile(s, p, from + 1) else from
  }

  /** The end of `s[lo..hi]` once its trailing characters satisfying `p` are dropped. */
  function BackWhile(s: string, p: char -> bool, lo: nat, hi: nat): (k: nat)
    requires lo <= hi <= |s|
    ensures lo <= k <= hi
    ensures forall i :: k <= i < hi ==> p(s[i])
    ensures k > lo ==> !p(s[k - 1])
  {
    if hi > lo && p(s[hi - 1]) then BackWhile(s, p, lo, hi - 1) else hi
  }

  /** `s` without its leading and trailing run of characters satisfying `p`. */
  function Strip(s: string, p: char -> bool): (r: string)
    ensures |r| > 0 ==> !p(r[0]) && !p(r[|r| - 1])
    ensures r == "" <==> forall i :: 0 <= i < |s| ==> p(s[i])
    ensures forall c :: c in r ==> c in s
    ensures (forall i :: 0 <= i < |s| ==> !p(s[i])) ==> r == s
    ensures forall c :: c in s && !p(c) ==> c in r
  {
    var a := SkipWhile(s, p, 0);
    var b := BackWhile(s, p, a, |s|);
    SliceMembers(s, a, b);
    assert forall i :: a <= i < b ==> s[a..b][i - a] == s[i];
    assert forall c :: c in s ==> exists i :: 0 <= i < |s| && s[i] == c;
    s[a..b]
  }

  /** `s.trim()`: `s` without its leading and trailing white space. */
  function Trim(s: string): (r: string)
    ensures |r| > 0 ==> !IsWhitespace(r[0]) && !IsWhitespace(r[|r| - 1])
    ensures r == "" <==> Blank(s)
    ensures (forall i :: 0 <= i < |s| ==> !IsWhitespace(s[i])) ==> r == s
  {
    Strip(s, IsWhitespace)
  }

  /** Trimming keeps every character that is not white space and adds none. */
  lemma TrimMembers(s: string)
    ensures forall c :: c in Trim(s) ==> c in s
    ensures forall c :: c in s && !IsWhitespace(c) ==> c in Trim(s)
  {
  }

  lemma SliceMembers(s: string, a: nat, b: nat)
    requires a <= b <= |s|
    ensures forall c :: c in s[a..b] ==> c in s
  {
    forall c | c in s[a..b]
      ensures c in s
    {
      var j :| 0 <= j < b - a && s[a..b][j] == c;
      assert s[a + j] == c;
    }
  }

  lemma TrimOfTrimmed(s: string)
    requires |s| > 0 ==> !IsWhitespace(s[0]) && !IsWhitespace(s[|s| - 1])
    ensures Trim(s) == s
  {
  }

  /** Decimal digit for 0..9. */
  function DigitChar(d: nat): (c: char)
    requires d < 10
    ensures IsAsciiDigit(c) && DigitValue(c) == d
  {
    "0123456789"[d]
  }

  function DigitValue(c: char): nat
    requires IsAsciiDigit(c)
  {
    c as nat - '0' as nat
  }

  /** Number of decimal digits of `n` (at least one). */
  function DigitCount(n: nat): (k: nat)
    ensures k >= 1
  {
    if n < 10 then 1 else 1 + DigitCount(n / 10)
  }

  /** `String(n)` / `n.toString()` for a non-negative integer. */
  function NatToDecimal(n: nat): (r: string)
    ensures |r| == DigitCount(n)
    ensures All(r, IsAsciiDigit)
    ensures DecimalValue(r) == n
  {
    if n < 10 then [DigitChar(n)]
    else
      var front := NatToDecimal(n / 10);
      var r := front + [DigitChar(n % 10)];
      assert r[..|r| - 1] == front;
      r
  }

  /** `String(i)` for any integer: a minus sign in front of a negative one. */
  function IntToDecimal(i: int): (r: string)
    ensures |r| > 0
    ensures i >= 0 ==> r == NatToDecimal(i)
    ensures i < 0 ==> r[0] == '-' && r[1..] == NatToDecimal(-i)
  {
    if i < 0 then "-" + NatToDecimal(-i) else NatToDecimal(i)
  }

  /** The value of a string of decimal digits; leading zeros do not count. */
  function DecimalValue(s: string): nat
    requires All(s, IsAsciiDigit)
  {
    if |s| == 0 then 0 else DecimalValue(s[..|s| - 1]) * 10 + DigitValue(s[|s| - 1])
  }

  lemma {:induction false} DecimalValueLeadingZeros(z: nat, s: string)
    requires All(s, IsAsciiDigit)
    ensures All(seq(z, _ => '0') + s, IsAsciiDigit)
    ensures DecimalValue(seq(z, _ => '0') + s) == DecimalValue(s)
  {
    var zs: string := seq(z, _ => '0');
    if |s| == 0 {
      assert zs + s == zs;
      if z > 0 {
        var zs': string := seq(z - 1, _ => '0');
        assert zs[..|zs| - 1] == zs' + "";
        DecimalValueLeadingZeros(z - 1, "");
      }
    } else {
      assert (zs + s)[..|zs + s| - 1] == zs + s[..|s| - 1];
      DecimalValueLeadingZeros(z, s[..|s| - 1]);
    }
  }

  /** `s.padStart(len, c)` with a one-character pad. */
  function PadStart(s: string, len: nat, c: char): (r: string)
    ensures |r| == if |s| >= len then |s| else len
    ensures r[|r| - |s|..] == s
    ensures forall i :: 0 <= i < |r| - |s| ==> r[i] == c
  {
    if |s| >= len then s else seq(len - |s|, _ => c) + s
  }

  /** `String(n).padStart(width, '0')`. */
  function ZeroPad(n: nat, width: nat): (r: string)
    ensures |r| == if DigitCount(n) >= width then DigitCount(n) else width
    ensures All(r, IsAsciiDigit)
    ensures DecimalValue(r) == n
  {
    var d := NatToDecimal(n);
    if |d| >= width then d
    else
      DecimalValueLeadingZeros(width - |d|, d);
      PadStart(d, width, '0')
  }

  /** Exactly `k` digits for the numbers from 10^(k-1) to 10^k - 1. */
  lemma {:induction false} DigitCountRange(n: nat, k: nat)
    requires k >= 1 && Pow10(k - 1) <= n < Pow10(k)
    ensures DigitCount(n) == k
  {
    if k == 1 {
      assert n < 10;
    } else {
      assert Pow10(k - 1) == 10 * Pow10(k - 2);
      assert n >= 10;
      assert Pow10(k - 2) <= n / 10 < Pow10(k - 1);
      DigitCountRange(n / 10, k - 1);
    }
  }

  function Pow10(k: nat): (p: nat)
    ensures p >= 1
  {
    if k == 0 then 1 else 10 * Pow10(k - 1)
  }

  /** `s.substring(start, end)` for `start <= end`: both ends clamped to the length. */
  function Substring(s: string, start: nat, end: nat): (r: string)
    requires start <= end
    ensures |r| <= end - start
    ensures |s| >= end ==> |r| == end - start
    ensures forall i :: 0 <= i < |r| ==> start + i < |s| && r[i] == s[start + i]
  {
    var a := if start <= |s| then start else |s|;
    var b := if end <= |s| then end else |s|;
    s[a..b]
  }

  /** `s.slice(-n)`: the last `n` characters, or all of `s` when it is shorter. */
  function SliceLast(s: string, n: nat): (r: string)
    ensures |r| == if |s| <= n then |s| else n
    ensures r == s[|s| - |r|..]
  {
    if |s| <= n then s else s[|s| - n..]
  }

  /** `s.replace(/c/g, '')`: every occurrence of `c` deleted. */
  function DeleteChar(s: string, c: char): (r: string)
    ensures c !in r
    ensures forall x :: x in r <==> x in s && x != c
    ensures |r| <= |s|
  {
    Without(s, c)
  }
}
