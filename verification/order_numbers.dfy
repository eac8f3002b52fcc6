/**
 * The two order-number formats of the shop. The checkout endpoint
 * (app/api/orders/route.ts) writes `JF-YYYYMMDD-XXXX` with up to four
 * upper-case base-36 characters; the helper in lib/utils.ts writes
 * `JFYYMMDD-NNNN` with four decimal digits. The clock and the random number
 * are inputs.
 */
module OrderNumbers {
  import opened Wrappers
  import opened Text

  /** A calendar date as `getFullYear()`, `getMonth() + 1` and `getDate()` report it. */
  datatype Date = Date(year: nat, month: nat, day: nat)

  predicate ValidDate(d: Date) {
    1 <= d.month <= 12 && 1 <= d.day <= 31
  }

  predicate IsBase36Lower(c: char) { IsAsciiDigit(c) || IsAsciiLower(c) }
  predicate IsBase36Upper(c: char) { IsAsciiDigit(c) || IsAsciiUpper(c) }

  /** `s.toUpperCase()` on ASCII text. */
  function UpperAscii(s: string): (r: string)
    ensures |r| == |s|
    ensures forall i :: 0 <= i < |s| ==> r[i] == if IsAsciiLower(s[i]) then (s[i] as int - 32) as char else s[i]
  {
    seq(|s|, i requires 0 <= i < |s| => if IsAsciiLower(s[i]) then (s[i] as int - 32) as char else s[i])
  }

  /**
   * What `Number.prototype.toString(36)` yields for a number in [0, 1): `"0"`
   * for zero, otherwise `"0."` and one or more lower-case base-36 digits.
   */
  predicate IsBase36Fraction(rendered: string) {
    rendered == "0"
    || (|rendered| > 2 && rendered[..2] == "0." && forall i :: 2 <= i < |rendered| ==> IsBase36Lower(rendered[i]))
  }

  /** `Math.random().toString(36).substring(2, 6).toUpperCase()`, given the rendering. */
  function RandomSuffix(rendered: string): (r: string)
    ensures |r| == if |rendered| <= 2 then 0 else if |rendered| >= 6 then 4 else |rendered| - 2
  {
    UpperAscii(Substring(rendered, 2, 6))
  }

  /**
   * The suffix is the first four fraction digits, upper-cased: fewer when the
   * fraction is shorter, none at all for zero.
   */
  lemma SuffixShape(rendered: string)
    requires IsBase36Fraction(rendered)
    ensures rendered == "0" ==> RandomSuffix(rendered) == ""
    ensures rendered != "0" ==> 1 <= |RandomSuffix(rendered)| <= 4
    ensures forall i :: 0 <= i < |RandomSuffix(rendered)| ==> IsBase36Upper(RandomSuffix(rendered)[i])
  {
    var sub := Substring(rendered, 2, 6);
    forall i | 0 <= i < |sub|
      ensures IsBase36Upper(UpperAscii(sub)[i])
    {
      assert sub[i] == rendered[2 + i];
    }
  }

  /** `JF-${year}${month}${day}-${random}` of the checkout endpoint. */
  function CheckoutNumber(date: Date, rendered: string): string {
    "JF-" + NatToDecimal(date.year) + ZeroPad(date.month, 2) + ZeroPad(date.day, 2) + "-" + RandomSuffix(rendered)
  }

  /** Reads a checkout number back: a four-digit year, month, day and the suffix. */
  function ParseCheckoutNumber(s: string): (r: Option<(Date, string)>)
    ensures r.Some? ==> |s| >= 12 && s[..3] == "JF-" && s[11] == '-'
  {
    if && |s| >= 12 && s[..3] == "JF-" && s[11] == '-'
       && All(s[3..7], IsAsciiDigit) && All(s[7..9], IsAsciiDigit) && All(s[9..11], IsAsciiDigit)
    then
      Some((Date(DecimalValue(s[3..7]), DecimalValue(s[7..9]), DecimalValue(s[9..11])), s[12..]))
    else None
  }

  /** Two-digit rendering of 1..99 padded with zero. */
  lemma TwoDigits(n: nat)
    requires n < 100
    ensures |ZeroPad(n, 2)| == 2
  {
    if n >= 10 {
      DigitCountRange(n, 2);
    }
  }

  /**
   * For years 1000 to 9999 a checkout number is 12 characters plus the suffix
   * and reads back as the date and suffix it was made from.
   */
  lemma CheckoutRoundTrip(date: Date, rendered: string)
    requires ValidDate(date) && 1000 <= date.year <= 9999
    ensures |CheckoutNumber(date, rendered)| == 12 + |RandomSuffix(rendered)|
    ensures ParseCheckoutNumber(CheckoutNumber(date, rendered)) == Some((date, RandomSuffix(rendered)))
  {
    assert Pow10(3) == 1000 && Pow10(4) == 10000;
    DigitCountRange(date.year, 4);
    TwoDigits(date.month);
    TwoDigits(date.day);
    CheckoutParts(NatToDecimal(date.year), ZeroPad(date.month, 2), ZeroPad(date.day, 2), RandomSuffix(rendered));
  }

  /** Where the parts of a checkout number sit. */
  lemma CheckoutParts(y: string, m: string, d: string, suffix: string)
    requires |y| == 4 && |m| == 2 && |d| == 2
    ensures var s := "JF-" + y + m + d + "-" + suffix;
      && |s| == 12 + |suffix| && s[..3] == "JF-" && s[11] == '-'
      && s[3..7] == y && s[7..9] == m && s[9..11] == d && s[12..] == suffix
  {
  }

  /** `Math.floor(Math.random() * 10000)` for a random number in [0, 1). */
  function RandomFourDigits(u: real): (n: nat)
    requires 0.0 <= u < 1.0
    ensures n < 10000
    ensures n as real <= u * 10000.0 < n as real + 1.0
  {
    (u * 10000.0).Floor
  }

  /** `JF${yy}${mm}${dd}-${nnnn}` of lib/utils.ts, for the drawn number `n`. */
  function UtilsFormat(date: Date, n: nat): string {
    "JF" + SliceLast(NatToDecimal(date.year), 2) + ZeroPad(date.month, 2) + ZeroPad(date.day, 2)
    + "-" + ZeroPad(n, 4)
  }

  /** lib/utils.ts `generateOrderNumber` for the date and the random number `u`. */
  function UtilsNumber(date: Date, u: real): string
    requires 0.0 <= u < 1.0
  {
    UtilsFormat(date, RandomFourDigits(u))
  }

  /** Reads a lib/utils.ts number back: two year digits, month, day and the four-digit number. */
  function ParseUtilsNumber(s: string): (r: Option<(nat, nat, nat, nat)>)
    ensures r.Some? ==> |s| == 13 && s[..2] == "JF" && s[8] == '-'
  {
    if && |s| == 13 && s[..2] == "JF" && s[8] == '-'
       && All(s[2..4], IsAsciiDigit) && All(s[4..6], IsAsciiDigit) && All(s[6..8], IsAsciiDigit)
       && All(s[9..], IsAsciiDigit)
    then
      Some((DecimalValue(s[2..4]), DecimalValue(s[4..6]), DecimalValue(s[6..8]), DecimalValue(s[9..])))
    else None
  }

  /** The last decimal digit of `n` is `n % 10`. */
  lemma LastDigit(n: nat)
    ensures NatToDecimal(n)[|NatToDecimal(n)| - 1] == DigitChar(n % 10)
  {
  }

  /** A number below 100 padded to two digits is its tens digit and its units digit. */
  lemma TwoDigitPad(t: nat)
    requires t < 100
    ensures ZeroPad(t, 2) == [DigitChar(t / 10), DigitChar(t % 10)]
  {
    if t >= 10 {
      assert NatToDecimal(t) == NatToDecimal(t / 10) + [DigitChar(t % 10)];
    }
  }

  lemma TensAndUnits(year: nat)
    ensures (year % 100) / 10 == (year / 10) % 10
    ensures (year % 100) % 10 == year % 10
  {
    var a, r := year / 100, year % 100;
    var b, c := r / 10, r % 10;
    assert year == 10 * (10 * a + b) + c;
    assert year / 10 == 10 * a + b;
    assert (10 * a + b) % 10 == b;
    assert year % 10 == c;
  }

  /** The last two characters of a year of at least two digits are its value modulo 100, written with two digits. */
  lemma YearTail(year: nat)
    requires year >= 10
    ensures SliceLast(NatToDecimal(year), 2) == ZeroPad(year % 100, 2)
  {
    var full := NatToDecimal(year);
    var front := NatToDecimal(year / 10);
    assert full == front + [DigitChar(year % 10)];
    LastDigit(year / 10);
    assert SliceLast(full, 2) == [front[|front| - 1], DigitChar(year % 10)];
    TwoDigitPad(year % 100);
    TensAndUnits(year);
  }

  /** Below 10000, `padStart(4, '0')` gives exactly four digits. */
  lemma FourDigits(n: nat)
    requires n < 10000
    ensures |ZeroPad(n, 4)| == 4
  {
    assert Pow10(2) == 100 && Pow10(3) == 1000 && Pow10(4) == 10000;
    if n >= 1000 { DigitCountRange(n, 4); }
    else if n >= 100 { DigitCountRange(n, 3); }
    else if n >= 10 { DigitCountRange(n, 2); }
  }

  /**
   * For a year of at least two digits a lib/utils.ts number is always 13
   * characters and reads back as the year modulo 100, the month, the day and
   * the drawn number.
   */
  lemma UtilsRoundTrip(date: Date, n: nat)
    requires ValidDate(date) && date.year >= 10 && n < 10000
    ensures |UtilsFormat(date, n)| == 13
    ensures ParseUtilsNumber(UtilsFormat(date, n)) == Some((date.year % 100, date.month, date.day, n))
  {
    YearTail(date.year);
    TwoDigits(date.year % 100);
    TwoDigits(date.month);
    TwoDigits(date.day);
    FourDigits(n);
    UtilsParts(ZeroPad(date.year % 100, 2), ZeroPad(date.month, 2), ZeroPad(date.day, 2), ZeroPad(n, 4));
  }

  /** Where the parts of a lib/utils.ts number sit. */
  lemma UtilsParts(yy: string, m: string, d: string, nn: string)
    requires |yy| == 2 && |m| == 2 && |d| == 2 && |nn| == 4
    ensures var s := "JF" + yy + m + d + "-" + nn;
      && |s| == 13 && s[..2] == "JF" && s[8] == '-'
      && s[2..4] == yy && s[4..6] == m && s[6..8] == d && s[9..] == nn
  {
  }

  /** What `generateOrderNumber` of lib/utils.ts returns always has that shape, with the floored draw. */
  lemma UtilsNumberShape(date: Date, u: real)
    requires ValidDate(date) && date.year >= 10 && 0.0 <= u < 1.0
    ensures |UtilsNumber(date, u)| == 13
    ensures ParseUtilsNumber(UtilsNumber(date, u)) == Some((date.year % 100, date.month, date.day, RandomFourDigits(u)))
  {
    UtilsRoundTrip(date, RandomFourDigits(u));
  }

  lemma CheckoutThirdChar(d: Date, rendered: string)
    ensures CheckoutNumber(d, rendered)[2] == '-'
  {
  }

  lemma YearTailStartsWithDigit(year: nat)
    ensures |SliceLast(NatToDecimal(year), 2)| > 0
    ensures IsAsciiDigit(SliceLast(NatToDecimal(year), 2)[0])
  {
    var full := NatToDecimal(year);
    var yy := SliceLast(full, 2);
    assert yy[0] == full[|full| - |yy|];
  }

  lemma UtilsThirdChar(d: Date, n: nat)
    ensures IsAsciiDigit(UtilsFormat(d, n)[2])
  {
    YearTailStartsWithDigit(d.year);
    ThirdIsYearDigit(SliceLast(NatToDecimal(d.year), 2), ZeroPad(d.month, 2), ZeroPad(d.day, 2), ZeroPad(n, 4));
  }

  lemma ThirdIsYearDigit(yy: string, m: string, dd: string, nn: string)
    requires |yy| > 0
    ensures ("JF" + yy + m + dd + "-" + nn)[2] == yy[0]
  {
  }

  /** No string is in both formats: the third character is `-` in one and a digit in the other. */
  lemma FormatsDisjoint(d1: Date, rendered: string, d2: Date, n: nat)
    ensures CheckoutNumber(d1, rendered) != UtilsFormat(d2, n)
  {
    CheckoutThirdChar(d1, rendered);
    UtilsThirdChar(d2, n);
  }
}
