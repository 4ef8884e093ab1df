/**
 * The C++ integer widths the sources rely on, and decimal numerals as the
 * standard streams write them (`ostream << int`) and read them back
 * (`istream >> int`, `std::stoi`): an optional sign, then decimal digits.
 */
module Numerals {
  import opened Wrappers

  const UINT_MAX: int := 0xFFFF_FFFF
  const INT_MAX: int := 0x7FFF_FFFF
  const INT_MIN: int := -0x8000_0000

  /** A 32-bit `unsigned`. */
  type u32 = x: int | 0 <= x <= 0xFFFF_FFFF

  /** A 32-bit `int`. */
  type i32 = x: int | -0x8000_0000 <= x <= 0x7FFF_FFFF

  /** The value an `int` argument takes when it is passed as `unsigned`. */
  function AsUnsigned(v: i32): u32 {
    if v < 0 then v + 0x1_0000_0000 else v
  }

  predicate IsDigit(c: char) {
    '0' <= c <= '9'
  }

  /** The characters `isspace` accepts in the "C" locale. */
  predicate IsSpace(c: char) {
    c == ' ' || c == '\t' || c == '\n' || c == '\U{0B}' || c == '\U{0C}' || c == '\r'
  }

  predicate AllDigits(s: string) {
    forall i | 0 <= i < |s| :: IsDigit(s[i])
  }

  function DigitChar(d: nat): (c: char)
    requires d < 10
    ensures IsDigit(c)
  {
    ('0' as int + d) as char
  }

  function DigitValue(c: char): nat
    requires IsDigit(c)
  {
    c as int - '0' as int
  }

  /** The decimal digits of n, most significant first, without leading zeros. */
  function NatText(n: nat): string
    decreases n
  {
    if n < 10 then [DigitChar(n)] else NatText(n / 10) + [DigitChar(n % 10)]
  }

  /** What `ostream << v` writes for an integer: a '-' for a negative value, then the digits. */
  function IntText(v: int): string {
    if v < 0 then "-" + NatText(-v) else NatText(v)
  }

  /** The value of a run of decimal digits. */
  function DigitsValue(s: string): nat
    requires AllDigits(s)
  {
    if s == [] then 0 else DigitsValue(s[..|s| - 1]) * 10 + DigitValue(s[|s| - 1])
  }

  /** NatText writes at least one digit, only digits, and reads back as n. */
  lemma {:induction false} NatTextDigits(n: nat)
    ensures |NatText(n)| >= 1 && AllDigits(NatText(n))
    ensures DigitsValue(NatText(n)) == n
    decreases n
  {
    if n >= 10 {
      NatTextDigits(n / 10);
      var s := NatText(n);
      assert s[..|s| - 1] == NatText(n / 10);
      assert DigitValue(s[|s| - 1]) == n % 10;
    }
  }

  /** A numeral of at most three characters denotes a value in -99..999. */
  lemma {:induction false} ShortIntText(v: int)
    requires |IntText(v)| <= 3
    ensures -99 <= v <= 999
  {
    if v < 0 {
      ShortNatText(-v, 2);
    } else {
      ShortNatText(v, 3);
    }
  }

  lemma {:induction false} ShortNatText(n: nat, k: nat)
    requires 1 <= k <= 3 && |NatText(n)| <= k
    ensures k == 1 ==> n < 10
    ensures k == 2 ==> n < 100
    ensures k == 3 ==> n < 1000
  {
    if n >= 10 {
      assert |NatText(n / 10)| <= k - 1;
      ShortNatText(n / 10, k - 1);
    }
  }

  /** End of the run of digits that starts at p. */
  function DigitsEnd(t: string, p: nat): (e: nat)
    requires p <= |t|
    ensures p <= e <= |t|
    decreases |t| - p
  {
    if p < |t| && IsDigit(t[p]) then DigitsEnd(t, p + 1) else p
  }

  /** DigitsEnd stops at the first non-digit, and everything it passes is a digit. */
  lemma {:induction false} DigitsEndStops(t: string, p: nat)
    requires p <= |t|
    ensures AllDigits(t[p..DigitsEnd(t, p)])
    ensures DigitsEnd(t, p) < |t| ==> !IsDigit(t[DigitsEnd(t, p)])
    decreases |t| - p
  {
    if p < |t| && IsDigit(t[p]) {
      DigitsEndStops(t, p + 1);
      var e := DigitsEnd(t, p);
      assert t[p..e] == [t[p]] + t[p + 1..e];
    }
  }

  /** End of the run of non-whitespace characters that starts at p. */
  function TokenEnd(t: string, p: nat): (e: nat)
    requires p <= |t|
    ensures p <= e <= |t|
    decreases |t| - p
  {
    if p < |t| && !IsSpace(t[p]) then TokenEnd(t, p + 1) else p
  }

  /** TokenEnd stops at the first whitespace character, and everything it passes is not whitespace. */
  lemma {:induction false} TokenEndStops(t: string, p: nat)
    requires p <= |t|
    ensures forall i | p <= i < TokenEnd(t, p) :: !IsSpace(t[i])
    ensures TokenEnd(t, p) < |t| ==> IsSpace(t[TokenEnd(t, p)])
    decreases |t| - p
  {
    if p < |t| && !IsSpace(t[p]) {
      TokenEndStops(t, p + 1);
    }
  }

  /** A run of known non-whitespace text ends where that text ends, if whitespace or the end follows. */
  lemma {:induction false} TokenEndOf(t: string, p: nat, k: nat)
    requires p + k <= |t| && forall i | p <= i < p + k :: !IsSpace(t[i])
    requires p + k == |t| || IsSpace(t[p + k])
    ensures TokenEnd(t, p) == p + k
    decreases k
  {
    if k > 0 {
      TokenEndOf(t, p + 1, k - 1);
    }
  }

  /** A sign (or none), the magnitude of the digits, and the index after the last digit. */
  datatype Numeral = Numeral(negative: bool, magnitude: nat, end: nat)

  function Value(n: Numeral): int {
    if n.negative then -(n.magnitude as int) else n.magnitude
  }

  /**
   * An optional '+' or '-' followed by at least one digit, starting exactly
   * at p; the digits run as far as they go.
   */
  function ScanNumeral(t: string, p: nat): (r: Option<Numeral>)
    requires p <= |t|
    ensures r.Some? ==> p < r.value.end <= |t|
  {
    var signed := p < |t| && (t[p] == '+' || t[p] == '-');
    var d := if signed then p + 1 else p;
    var e := DigitsEnd(t, d);
    DigitsEndStops(t, d);
    if e == d then None else Some(Numeral(signed && t[p] == '-', DigitsValue(t[d..e]), e))
  }

  /** A numeral is there exactly when a digit follows the optional sign, and it takes every digit there. */
  lemma ScanNumeralStops(t: string, p: nat)
    requires p <= |t|
    ensures var r := ScanNumeral(t, p);
            r.Some? ==> (r.value.end < |t| ==> !IsDigit(t[r.value.end]))
    ensures ScanNumeral(t, p).None? <==> (var d := if p < |t| && (t[p] == '+' || t[p] == '-') then p + 1 else p;
                                          d == |t| || !IsDigit(t[d]))
  {
    var d := if p < |t| && (t[p] == '+' || t[p] == '-') then p + 1 else p;
    DigitsEndStops(t, d);
  }

  /** A digit run of known text ends where that text ends, if no digit follows it. */
  lemma {:induction false} DigitsEndOf(t: string, p: nat, k: nat)
    requires p + k <= |t| && AllDigits(t[p..p + k])
    requires p + k == |t| || !IsDigit(t[p + k])
    ensures DigitsEnd(t, p) == p + k
    decreases k
  {
    if k > 0 {
      assert IsDigit(t[p..p + k][0]);
      assert t[p + 1..p + k] == t[p..p + k][1..];
      DigitsEndOf(t, p + 1, k - 1);
    }
  }

  /** Scanning the text `ostream << v` writes, followed by a non-digit or the end, gives back v. */
  lemma ScanIntText(t: string, p: nat, v: int)
    requires p + |IntText(v)| <= |t| && t[p..p + |IntText(v)|] == IntText(v)
    requires p + |IntText(v)| == |t| || !IsDigit(t[p + |IntText(v)|])
    ensures ScanNumeral(t, p).Some?
    ensures Value(ScanNumeral(t, p).value) == v
    ensures ScanNumeral(t, p).value.end == p + |IntText(v)|
  {
    var s := IntText(v);
    if v < 0 {
      assert t[p] == s[0] == '-';
      assert t[p + 1..p + |s|] == s[1..] == NatText(-v);
      ScanDigitsText(t, p + 1, -v);
    } else {
      ScanDigitsText(t, p, v);
      NatTextDigits(v);
      assert t[p] == s[0] && IsDigit(s[0]);
    }
  }

  /** The digits of n, followed by a non-digit or the end, run exactly as far as NatText(n) and read back as n. */
  lemma ScanDigitsText(t: string, p: nat, n: nat)
    requires p + |NatText(n)| <= |t| && t[p..p + |NatText(n)|] == NatText(n)
    requires p + |NatText(n)| == |t| || !IsDigit(t[p + |NatText(n)|])
    ensures DigitsEnd(t, p) == p + |NatText(n)| > p
    ensures AllDigits(t[p..DigitsEnd(t, p)])
    ensures DigitsValue(t[p..DigitsEnd(t, p)]) == n
  {
    NatTextDigits(n);
    DigitsEndOf(t, p, |NatText(n)|);
  }
}
