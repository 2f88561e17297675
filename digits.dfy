/** Decimal digit strings: their value, and the zero-padded rendering of a
    natural number that `strftime` and the amount renderer rely on. */
module Digits {

  predicate IsDigit(c: char) {
    '0' <= c <= '9'
  }

  predicate AllDigits(s: string) {
    forall i :: 0 <= i < |s| ==> IsDigit(s[i])
  }

  function DigitValue(c: char): (v: nat)
    requires IsDigit(c)
    ensures v < 10
  {
    c as int - '0' as int
  }

  function DigitChar(v: nat): (c: char)
    requires v < 10
    ensures IsDigit(c) && DigitValue(c) == v
  {
    ('0' as int + v) as char
  }

  function Pow10(k: nat): (p: nat)
    ensures p >= 1
  {
    if k == 0 then 1 else 10 * Pow10(k - 1)
  }

  /** `a` followed by `k` zero digits, i.e. a * 10^k, written without a
      product of two unknowns. */
  function Shift(a: nat, k: nat): nat {
    if k == 0 then a else 10 * Shift(a, k - 1)
  }

  /** The value of a most-significant-first digit string; the empty string is 0. */
  function DigitsValue(s: string): (v: nat)
    requires AllDigits(s)
  {
    if s == [] then 0 else 10 * DigitsValue(s[..|s| - 1]) + DigitValue(s[|s| - 1])
  }

  /** Number of digits at the start of `s`. */
  function DigitRun(s: string): (k: nat)
    ensures k <= |s|
    ensures AllDigits(s[..k])
    ensures k < |s| ==> !IsDigit(s[k])
  {
    if s == [] || !IsDigit(s[0]) then 0
    else
      var k := 1 + DigitRun(s[1..]);
      assert forall i :: 1 <= i < k ==> s[..k][i] == s[1..][..k - 1][i - 1];
      k
  }

  lemma {:induction false} DigitRunAllDigits(s: string)
    requires AllDigits(s)
    ensures DigitRun(s) == |s|
  {
    if s != [] {
      DigitRunAllDigits(s[1..]);
    }
  }

  /** A run of digits followed by a non-digit is measured exactly. */
  lemma DigitRunPrefix(a: string, b: string)
    requires AllDigits(a)
    requires b != [] && !IsDigit(b[0])
    ensures DigitRun(a + b) == |a|
  {
    assert (a + b)[|a|] == b[0];
    assert forall i :: 0 <= i < |a| ==> (a + b)[i] == a[i];
  }

  /** Placing digits after a digit string shifts its value left. */
  lemma {:induction false} DigitsValueConcat(a: string, b: string)
    requires AllDigits(a) && AllDigits(b)
    ensures AllDigits(a + b)
    ensures DigitsValue(a + b) == Shift(DigitsValue(a), |b|) + DigitsValue(b)
    decreases |b|
  {
    assert AllDigits(a + b) by {
      forall i | 0 <= i < |a + b| ensures IsDigit((a + b)[i]) {
        if i < |a| { assert (a + b)[i] == a[i]; } else { assert (a + b)[i] == b[i - |a|]; }
      }
    }
    if b == [] {
      assert a + b == a;
    } else {
      var b' := b[..|b| - 1];
      assert (a + b)[..|a + b| - 1] == a + b';
      assert (a + b)[|a + b| - 1] == b[|b| - 1];
      DigitsValueConcat(a, b');
      calc {
        DigitsValue(a + b);
        10 * DigitsValue(a + b') + DigitValue(b[|b| - 1]);
        10 * (Shift(DigitsValue(a), |b'|) + DigitsValue(b')) + DigitValue(b[|b| - 1]);
        Shift(DigitsValue(a), |b|) + DigitsValue(b);
      }
    }
  }

  /** The shortest decimal rendering of `n`, as Python's `str(n)`. */
  function NatToDigits(n: nat): (r: string)
    ensures |r| >= 1 && AllDigits(r) && DigitsValue(r) == n
    ensures |r| > 1 ==> r[0] != '0'
  {
    if n < 10 then [DigitChar(n)]
    else
      var r := NatToDigits(n / 10) + [DigitChar(n % 10)];
      assert r[..|r| - 1] == NatToDigits(n / 10);
      r
  }

  /** n < 10^k means its shortest rendering has at most k digits. */
  lemma {:induction false} NatToDigitsLength(n: nat, k: nat)
    requires 1 <= k && n < Pow10(k)
    ensures |NatToDigits(n)| <= k
  {
    if n >= 10 {
      NatToDigitsLength(n / 10, k - 1);
    }
  }

  function Zeros(k: nat): (r: string)
    ensures |r| == k && AllDigits(r) && DigitsValue(r) == 0
  {
    if k == 0 then [] else
      var r := Zeros(k - 1) + ['0'];
      assert r[..k - 1] == Zeros(k - 1);
      r
  }

  lemma {:induction false} ShiftZero(k: nat)
    ensures Shift(0, k) == 0
  {
    if k > 0 {
      ShiftZero(k - 1);
    }
  }

  /** `n` rendered with leading zeros to at least `width` digits, as the
      `%02d`-style fields of `strftime`. */
  function PadLeft(n: nat, width: nat): (r: string)
    ensures AllDigits(r) && DigitsValue(r) == n
    ensures |r| == if |NatToDigits(n)| < width then width else |NatToDigits(n)|
  {
    var d := NatToDigits(n);
    var r := Zeros(if |d| < width then width - |d| else 0) + d;
    DigitsValueConcat(Zeros(if |d| < width then width - |d| else 0), d);
    ShiftZero(|d|);
    r
  }

  /** A number below 10^width renders to exactly `width` digits. */
  lemma PadLeftExact(n: nat, width: nat)
    requires 1 <= width && n < Pow10(width)
    ensures |PadLeft(n, width)| == width
  {
    NatToDigitsLength(n, width);
  }
}
