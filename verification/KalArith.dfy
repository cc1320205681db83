/** 64-bit integer arithmetic shared by the Kaleidoscope language and the two IRs it is lowered to. */
module KalArith {

  type I64 = x: int | -0x8000_0000_0000_0000 <= x <= 0x7fff_ffff_ffff_ffff

  /** Two's-complement truncation of a mathematical integer to 64 bits. */
  function Wrap(x: int): I64 {
    (x + 0x8000_0000_0000_0000) % 0x1_0000_0000_0000_0000 - 0x8000_0000_0000_0000
  }

  /** The sign extension of a one-bit integer: all ones or all zeros. */
  function SignExtend(b: bool): I64 {
    if b then -1 else 0
  }

  // ----- what truncation is -----

  /** What fits stays, and what does not changes by a multiple of 2^64. */
  lemma WrapExact(x: int)
    ensures -0x8000_0000_0000_0000 <= x <= 0x7fff_ffff_ffff_ffff ==> Wrap(x) == x
    ensures (x - Wrap(x)) % 0x1_0000_0000_0000_0000 == 0
  {
    var q := (x + 0x8000_0000_0000_0000) / 0x1_0000_0000_0000_0000;
    assert x - Wrap(x) == q * 0x1_0000_0000_0000_0000;
  }

  /** No other 64-bit integer is that close. */
  lemma WrapOnly(x: int, y: I64)
    ensures y == Wrap(x) <==> (x - y) % 0x1_0000_0000_0000_0000 == 0
  {
    WrapExact(x);
    if (x - y) % 0x1_0000_0000_0000_0000 == 0 {
      var m := 0x1_0000_0000_0000_0000;
      var a, b := (x - y) / m, (x - Wrap(x)) / m;
      assert Wrap(x) - y == (a - b) * m && -m < Wrap(x) - y < m;
      assert a == b;
    }
  }

  /** Truncating at every step comes to the same as truncating once. */
  lemma WrapTwice(x: int, y: int)
    ensures Wrap(Wrap(x) + y) == Wrap(x + y) && Wrap(Wrap(x) - y) == Wrap(x - y) && Wrap(Wrap(x) * y) == Wrap(x * y)
  {
    WrapExact(x);
    var m := 0x1_0000_0000_0000_0000;
    var q := (x - Wrap(x)) / m;
    assert x == Wrap(x) + q * m;
    SameWrap(Wrap(x) + y, q, x + y);
    SameWrap(Wrap(x) - y, q, x - y);
    assert x * y == Wrap(x) * y + (q * y) * m by { Distribute(Wrap(x), q * m, y); }
    SameWrap(Wrap(x) * y, q * y, x * y);
  }

  lemma Distribute(a: int, b: int, y: int)
    ensures (a + b) * y == a * y + b * y
  {
  }

  lemma SameWrap(x: int, q: int, y: int)
    requires y == x + q * 0x1_0000_0000_0000_0000
    ensures Wrap(x) == Wrap(y)
  {
    WrapExact(x);
    var p := (x - Wrap(x)) / 0x1_0000_0000_0000_0000;
    assert y - Wrap(x) == (p + q) * 0x1_0000_0000_0000_0000;
    WrapOnly(y, Wrap(x));
  }

  // ----- what sign extension is -----

  /** The two's-complement bits of an integer, read without a sign. */
  function Unsigned(v: I64): (u: nat)
    ensures u < 0x1_0000_0000_0000_0000
  {
    if v < 0 then v + 0x1_0000_0000_0000_0000 else v
  }

  predicate BitOf(u: nat, k: nat) {
    if k == 0 then u % 2 == 1 else BitOf(u / 2, k - 1)
  }

  /** All 64 bits repeat the one there is. */
  lemma {:induction false} SignExtendBits(b: bool, k: nat)
    requires k < 64
    ensures BitOf(Unsigned(SignExtend(b)), k) <==> b
  {
    if b {
      Pow2Is();
      AllOnes(64, k);
    } else {
      AllZeros(k);
    }
  }

  function Pow2(n: nat): (r: nat)
    ensures r > 0
  {
    if n == 0 then 1 else 2 * Pow2(n - 1)
  }

  lemma Pow2Is()
    ensures Pow2(64) == 0x1_0000_0000_0000_0000
  {
    assert Pow2(8) == 0x100;
    assert Pow2(16) == 0x1_0000;
    Pow2Sum(16, 16);
    Pow2Sum(32, 32);
  }

  lemma {:induction false} Pow2Sum(a: nat, b: nat)
    ensures Pow2(a + b) == Pow2(a) * Pow2(b)
  {
    if a > 0 { Pow2Sum(a - 1, b); }
  }

  lemma {:induction false} AllOnes(n: nat, k: nat)
    requires k < n
    ensures BitOf(Pow2(n) - 1, k)
  {
    if k > 0 {
      AllOnes(n - 1, k - 1);
      assert (Pow2(n) - 1) / 2 == Pow2(n - 1) - 1;
    } else {
      assert Pow2(n) == 2 * Pow2(n - 1);
    }
  }

  lemma {:induction false} AllZeros(k: nat)
    ensures !BitOf(0, k)
  {
    if k > 0 { AllZeros(k - 1); }
  }

  /** Why an execution has no result: its behaviour is undefined, or the fuel ran out. */
  datatype Halt = Undefined | OutOfFuel

  /** The value of an expression or of a call. */
  datatype Value = Val(v: I64) | NoVal(why: Halt)
}
