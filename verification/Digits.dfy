/** Decimal digits: the number a text of digits stands for, and the way a number is written. */
module Digits {

  predicate IsDigit(c: char) { '0' <= c <= '9' }

  predicate AllDigits(s: string) { forall i :: 0 <= i < |s| ==> IsDigit(s[i]) }

  function Digit(c: char): (d: nat)
    requires IsDigit(c)
    ensures d < 10
  {
    c as int - '0' as int
  }

  function Shown(d: nat): (c: char)
    requires d < 10
    ensures IsDigit(c) && Digit(c) == d
  {
    '0' + d as char
  }

  function Power(n: nat): (p: nat)
    ensures p >= 1
  {
    if n == 0 then 1 else 10 * Power(n - 1)
  }

  function Number(s: string): nat
    requires AllDigits(s)
  {
    if s == "" then 0 else 10 * Number(s[..|s| - 1]) + Digit(s[|s| - 1])
  }

  lemma Tens(n: nat, p: nat)
    ensures 10 * (n * p) == n * (10 * p)
  {
  }

  lemma {:induction false} NumberOfSum(a: string, b: string)
    requires AllDigits(a) && AllDigits(b)
    ensures AllDigits(a + b) && Number(a + b) == Number(a) * Power(|b|) + Number(b)
    decreases |b|
  {
    if b == "" {
      assert a + b == a;
    } else {
      var front := b[..|b| - 1];
      NumberOfSum(a, front);
      assert (a + b)[..|a + b| - 1] == a + front;
      Tens(Number(a), Power(|front|));
    }
  }

  predicate AllZeros(s: string) { forall i :: 0 <= i < |s| ==> s[i] == '0' }

  lemma {:induction false} ZerosAreNothing(s: string)
    requires AllZeros(s)
    ensures AllDigits(s) && Number(s) == 0
  {
    if s != "" { ZerosAreNothing(s[..|s| - 1]); }
  }

  lemma {:induction false} NumberIsBounded(s: string)
    requires AllDigits(s)
    ensures Number(s) < Power(|s|)
    ensures s != "" && s[0] != '0' ==> Number(s) >= Power(|s| - 1)
  {
    if s != "" {
      NumberIsBounded(s[..|s| - 1]);
      if |s| == 1 { assert s[..0] == ""; }
    }
  }

  lemma {:induction false} PowersGrow(m: nat, n: nat)
    requires m <= n
    ensures Power(m) <= Power(n)
  {
    if m < n { PowersGrow(m, n - 1); }
  }

  function Decimal(n: nat): (s: string)
    ensures s != "" && AllDigits(s)
  {
    if n < 10 then [Shown(n)] else Decimal(n / 10) + [Shown(n % 10)]
  }

  lemma {:induction false} NumberOfDecimal(n: nat)
    ensures Number(Decimal(n)) == n
  {
    var s := Decimal(n);
    if n < 10 {
      assert s[..|s| - 1] == "";
    } else {
      NumberOfDecimal(n / 10);
      assert s[..|s| - 1] == Decimal(n / 10);
    }
  }

  /** Digits without a leading zero are the way their number is written. */
  lemma {:induction false} DecimalOfNumber(s: string)
    requires s != "" && s[0] != '0' && AllDigits(s)
    ensures Decimal(Number(s)) == s
  {
    var front, last := s[..|s| - 1], s[|s| - 1];
    assert s == front + [last];
    if front == "" {
      assert Number(s) == Digit(last);
    } else {
      DecimalOfNumber(front);
      NumberIsBounded(front);
      assert Number(front) >= 1 by { PowersGrow(0, |front| - 1); }
      assert Number(s) / 10 == Number(front) && Number(s) % 10 == Digit(last);
    }
  }
}
