/**
  Decimal rendering of integers as goweek.go gets it from Go: the numeric fields "2006",
  "01" and "02" of time.Format, and fmt.Sprintf("%02d", n) for the week number. FormatInt
  is time.Format's rule: the digits of the magnitude, left-padded with zeros to a minimum
  width, after a '-' for a negative value. fmt's "%02d" counts the '-' in the width
  ("-1", not "-01"), so the two agree only on the non-negative values; the week number
  goweek.go formats with "%02d" is always at least 1. Value and ParseInt read such text
  back; the round trips and the lengths are the contracts below, and DigitsDetermined
  shows that they leave no other text possible.
 */
module Decimal {

  predicate IsDigit(c: char) {
    '0' <= c <= '9'
  }

  predicate AllDigits(s: string) {
    forall i :: 0 <= i < |s| ==> IsDigit(s[i])
  }

  function DigitValue(c: char): int
    requires IsDigit(c)
  {
    c as int - '0' as int
  }

  function DigitChar(n: int): (c: char)
    requires 0 <= n < 10
    ensures IsDigit(c) && DigitValue(c) == n
  {
    (n + '0' as int) as char
  }

  function Pow10(w: nat): nat {
    if w == 0 then 1 else 10 * Pow10(w - 1)
  }

  /** The number a string of digits denotes; leading zeros are allowed. */
  function Value(s: string): nat
    requires AllDigits(s)
  {
    if s == [] then 0 else Value(s[..|s| - 1]) * 10 + DigitValue(s[|s| - 1])
  }

  /** Text as Go writes an integer: an optional '-' followed by digits. */
  function ParseInt(s: string): int
    requires s != [] && (if s[0] == '-' then AllDigits(s[1..]) else AllDigits(s))
  {
    if s[0] == '-' then -(Value(s[1..]) as int) else Value(s)
  }

  /** The digits of n without leading zeros ("0" for zero). */
  function Digits(n: nat): (s: string)
    ensures 1 <= |s| && AllDigits(s)
    ensures Value(s) == n
    ensures |s| > 1 ==> s[0] != '0'
  {
    if n < 10 then [DigitChar(n)]
    else
      var s := Digits(n / 10) + [DigitChar(n % 10)];
      assert s[..|s| - 1] == Digits(n / 10);
      s
  }

  function Zeros(k: nat): (s: string)
    ensures |s| == k && AllDigits(s)
  {
    seq(k, _ => '0')
  }

  lemma {:induction false} LeadingZeros(k: nat, s: string)
    requires AllDigits(s)
    ensures Value(Zeros(k) + s) == Value(s)
    decreases |s|, k
  {
    var z := Zeros(k) + s;
    if s == [] {
      assert z == Zeros(k);
      if k > 0 {
        assert z[..|z| - 1] == Zeros(k - 1) + s;
        assert z[|z| - 1] == '0';
        LeadingZeros(k - 1, s);
      }
    } else {
      assert z[..|z| - 1] == Zeros(k) + s[..|s| - 1];
      LeadingZeros(k, s[..|s| - 1]);
    }
  }

  lemma {:induction false} DigitsFit(n: nat, w: nat)
    ensures 1 <= w && n < Pow10(w) ==> |Digits(n)| <= w
  {
    if 1 <= w && n < Pow10(w) && n >= 10 {
      assert w >= 2;
      DigitsFit(n / 10, w - 1);
    }
  }

  /** The number of digits of n padded to width w: w, or more when n needs more. */
  function PaddedWidth(n: nat, w: nat): nat {
    if |Digits(n)| >= w then |Digits(n)| else w
  }

  /** n in decimal, left-padded with zeros to at least w digits. */
  function PadDigits(n: nat, w: nat): (s: string)
    ensures AllDigits(s) && Value(s) == n
    ensures |s| == PaddedWidth(n, w)
    ensures |s| >= w && |s| >= 1
    ensures 1 <= w && n < Pow10(w) ==> |s| == w
  {
    var d := Digits(n);
    DigitsFit(n, w);
    if |d| >= w then d
    else
      LeadingZeros(w - |d|, d);
      Zeros(w - |d|) + d
  }

  /** Go's appendInt(b, x, w): '-' for a negative x, then |x| padded to w digits. */
  function FormatInt(x: int, w: nat): (s: string)
    ensures s != []
    ensures x >= 0 ==> AllDigits(s) && |s| >= w
    ensures x < 0 ==> s[0] == '-' && AllDigits(s[1..])
    ensures ParseInt(s) == x
    ensures |s| == (if x < 0 then 1 + PaddedWidth(-x, w) else PaddedWidth(x, w))
    ensures 1 <= w && 0 <= x < Pow10(w) ==> |s| == w
  {
    if x < 0 then
      var s := "-" + PadDigits(-x, w);
      assert s[1..] == PadDigits(-x, w);
      s
    else PadDigits(x, w)
  }

  /** Digit strings of one length are equal when they denote the same number. */
  lemma {:induction false} DigitsDetermined(s: string, t: string)
    requires AllDigits(s) && AllDigits(t) && |s| == |t| && Value(s) == Value(t)
    ensures s == t
    decreases |s|
  {
    if s != [] {
      var n := |s|;
      var a, b := s[..n - 1], t[..n - 1];
      LastDigit(Value(s), Value(a), DigitValue(s[n - 1]));
      LastDigit(Value(t), Value(b), DigitValue(t[n - 1]));
      DigitsDetermined(a, b);
      assert s == a + [s[n - 1]] && t == b + [t[n - 1]];
    }
  }

  lemma LastDigit(v: int, q: int, d: int)
    requires v == q * 10 + d && 0 <= d < 10
    ensures v / 10 == q && v % 10 == d
  {
  }

  /**
    The contract of PadDigits pins its text: any digit string of the padded width that
    reads back as n is PadDigits(n, w).
   */
  lemma PadDigitsDetermined(n: nat, w: nat, s: string)
    requires AllDigits(s) && Value(s) == n && |s| == PaddedWidth(n, w)
    ensures s == PadDigits(n, w)
  {
    DigitsDetermined(s, PadDigits(n, w));
  }
}
