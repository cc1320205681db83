/** Numbers in decimal, and what a string of digits stands for. */
module Decimals {
  predicate IsDigit(c: char) { '0' <= c <= '9' }

  function Decimal(n: nat): (s: string)
    ensures s != [] && forall i :: 0 <= i < |s| ==> IsDigit(s[i])
  {
    var last := [('0' as int + n % 10) as char];
    if n < 10 then last else Decimal(n / 10) + last
  }

  function DigitValue(c: char): nat {
    if IsDigit(c) then c as int - '0' as int else 0
  }

  function Value(s: string): nat {
    if s == [] then 0 else 10 * Value(s[..|s| - 1]) + DigitValue(s[|s| - 1])
  }

  lemma {:induction false} DecimalValue(n: nat)
    ensures Value(Decimal(n)) == n
  {
    if n >= 10 {
      DecimalValue(n / 10);
      assert Decimal(n)[..|Decimal(n)| - 1] == Decimal(n / 10);
    }
  }

  function Pow10(n: nat): (r: nat)
    ensures r > 0
  {
    if n == 0 then 1 else 10 * Pow10(n - 1)
  }

  /** Digits in front count for as many powers of ten as there are digits behind them. */
  lemma {:induction false} ValueConcat(a: string, b: string)
    ensures Value(a + b) == Value(a) * Pow10(|b|) + Value(b)
  {
    if b == [] {
      assert a + b == a;
    } else {
      var init := b[..|b| - 1];
      ValueConcat(a, init);
      assert (a + b)[..|a + b| - 1] == a + init;
      Spread(Value(a), Pow10(|init|), Value(init), DigitValue(b[|b| - 1]));
    }
  }

  lemma Spread(a: nat, p: nat, v: nat, d: nat)
    ensures 10 * (a * p + v) + d == a * (10 * p) + (10 * v + d)
  {
  }

  /** The digit at each place, from the right, and no zero in front. */
  lemma {:induction false} DecimalPlaces(n: nat, i: nat)
    requires i < |Decimal(n)|
    ensures DigitValue(Decimal(n)[|Decimal(n)| - 1 - i]) == n / Pow10(i) % 10
    ensures n > 0 ==> Decimal(n)[0] != '0'
  {
    if n >= 10 {
      DecimalPlaces(n / 10, if i > 0 then i - 1 else 0);
      if i > 0 { Tenth(n, Pow10(i - 1)); }
    }
  }

  lemma Tenth(n: nat, p: nat)
    requires p > 0
    ensures n / 10 / p == n / (10 * p)
  {
    var q := n / (10 * p);
    var r := n % (10 * p);
    assert n == 10 * p * q + r;
    assert n / 10 == p * q + r / 10 && r / 10 < p;
    Quotient(p, q, r / 10);
  }

  lemma Quotient(p: nat, q: nat, r: nat)
    requires r < p
    ensures (p * q + r) / p == q
  {
    var d := (p * q + r) / p;
    assert d < q ==> p * (d + 1) <= p * q;
    assert d > q ==> p * d >= p * (q + 1);
  }
}
