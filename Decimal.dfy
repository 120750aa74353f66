/**
 * Decimal text and 64-bit integers as the handlers use them:
 * `strconv.ParseInt(s, 10, 64)` with its error discarded (`appID, _ := ...`),
 * and `fmt.Sprintf("%d", n)` for an `int64`.
 */
module Decimal {

  const MaxUint64: int := 0xFFFF_FFFF_FFFF_FFFF
  const MaxInt64: int := 0x7FFF_FFFF_FFFF_FFFF
  const MinInt64: int := -0x8000_0000_0000_0000

  predicate IsDigit(c: char)
  {
    '0' <= c <= '9'
  }

  function DigitValue(c: char): (d: nat)
    requires IsDigit(c)
    ensures d < 10
  {
    c as int - '0' as int
  }

  function DigitChar(d: nat): (c: char)
    requires d < 10
    ensures IsDigit(c) && DigitValue(c) == d
  {
    ('0' as int + d) as char
  }

  /** What `strconv.ParseUint(s, 10, 64)` yields: a value, a syntax error, or a range error. */
  datatype UintParse = UintValue(n: nat) | UintSyntax | UintRange

  /**
   * The digit loop of `ParseUint`, left to right from the value `acc` read so
   * far: a non-digit stops it with a syntax error, and so does (with a range
   * error) the first digit that would take the value past 2^64 - 1.
   */
  function ScanDigits(s: string, acc: nat): (r: UintParse)
    requires acc <= MaxUint64
    ensures r.UintValue? ==> r.n <= MaxUint64
    decreases |s|
  {
    if s == [] then UintValue(acc)
    else if !IsDigit(s[0]) then UintSyntax
    else
      var next := acc * 10 + DigitValue(s[0]);
      if next > MaxUint64 then UintRange else ScanDigits(s[1..], next)
  }

  /** `strconv.ParseUint(s, 10, 64)`; the empty string is a syntax error. */
  function ParseUint(s: string): (r: UintParse)
    ensures s == [] ==> r == UintSyntax
    ensures r.UintValue? ==> r.n <= MaxUint64
  {
    if s == [] then UintSyntax else ScanDigits(s, 0)
  }

  /**
   * `n, _ := strconv.ParseInt(s, 10, 64)`: an optional sign, then digits; 0
   * on a syntax error, the nearest bound of `int64` on a range error.
   */
  function ParseIntOrZero(s: string): (n: int)
    ensures MinInt64 <= n <= MaxInt64
    ensures s == [] ==> n == 0
  {
    if s == [] then 0
    else
      var negative := s[0] == '-';
      var digits := if s[0] == '+' || s[0] == '-' then s[1..] else s;
      match ParseUint(digits)
      case UintSyntax => 0
      case UintRange => if negative then MinInt64 else MaxInt64
      case UintValue(u) =>
        if !negative && u > MaxInt64 then MaxInt64
        else if negative && u > -MinInt64 then MinInt64
        else if negative then 0 - u
        else u
  }

  /** The decimal digits of `n`, most significant first, without leading zeros. */
  function FormatNat(n: nat): (s: string)
    ensures |s| >= 1 && forall i | 0 <= i < |s| :: IsDigit(s[i])
    decreases n
  {
    if n < 10 then [DigitChar(n)] else FormatNat(n / 10) + [DigitChar(n % 10)]
  }

  /** `fmt.Sprintf("%d", n)`. */
  function FormatInt(n: int): (s: string)
    ensures |s| >= 1
  {
    if n < 0 then "-" + FormatNat(-n) else FormatNat(n)
  }

  /** Reading one more character continues the scan from where the shorter text left off. */
  lemma {:induction false} ScanSnoc(s: string, c: char, acc: nat)
    requires acc <= MaxUint64
    ensures ScanDigits(s + [c], acc) ==
      match ScanDigits(s, acc)
      case UintValue(m) =>
        if !IsDigit(c) then UintSyntax
        else if m * 10 + DigitValue(c) > MaxUint64 then UintRange
        else UintValue(m * 10 + DigitValue(c))
      case other => other
    decreases |s|
  {
    if s != [] {
      assert (s + [c])[0] == s[0] && (s + [c])[1..] == s[1..] + [c];
      if IsDigit(s[0]) && acc * 10 + DigitValue(s[0]) <= MaxUint64 {
        ScanSnoc(s[1..], c, acc * 10 + DigitValue(s[0]));
      }
    }
  }

  /** The digits of any `n` up to 2^64 - 1 scan back to `n`. */
  lemma {:induction false} ScanFormatNat(n: nat)
    requires n <= MaxUint64
    ensures ScanDigits(FormatNat(n), 0) == UintValue(n)
    decreases n
  {
    if n >= 10 {
      ScanFormatNat(n / 10);
      ScanSnoc(FormatNat(n / 10), DigitChar(n % 10), 0);
    }
  }

  /** Formatting an `int64` and parsing it back gives the same number. */
  lemma ParseFormatRoundTrip(n: int)
    requires MinInt64 <= n <= MaxInt64
    ensures ParseIntOrZero(FormatInt(n)) == n
  {
    if n < 0 {
      ScanFormatNat(-n);
      var s := FormatInt(n);
      assert s[0] == '-' && s[1..] == FormatNat(-n);
    } else {
      ScanFormatNat(n);
      assert IsDigit(FormatNat(n)[0]);
    }
  }

  /** Text with a non-digit where a digit is due parses to 0: the error is dropped, not reported. */
  lemma SyntaxErrorReadsAsZero(s: string)
    requires |s| >= 1 && !IsDigit(s[0]) && s[0] != '+' && s[0] != '-'
    ensures ParseIntOrZero(s) == 0
  {
  }
}
