/** Powers of two (any integer exponent, as reals) and of ten, and bit lengths. */
module Powers {

  function Pow2(e: int): (r: real)
    ensures r > 0.0
    decreases if e < 0 then -e else e
  {
    if e == 0 then 1.0
    else if e > 0 then 2.0 * Pow2(e - 1)
    else Pow2(e + 1) / 2.0
  }

  lemma Pow2Zero()
    ensures Pow2(0) == 1.0
  {
  }

  lemma Pow2Next(e: int)
    ensures Pow2(e + 1) == 2.0 * Pow2(e)
  {
  }

  lemma DoubleFactor(x: real, y: real)
    ensures x * (2.0 * y) == 2.0 * (x * y)
  {
  }

  lemma {:induction false} Pow2AddNat(a: int, b: nat)
    ensures Pow2(a + b) == Pow2(a) * Pow2(b)
  {
    hide Pow2;
    Pow2Zero();
    if b > 0 {
      Pow2AddNat(a, b - 1);
      Pow2Next(a + (b - 1));
      Pow2Next(b - 1);
      DoubleFactor(Pow2(a), Pow2(b - 1));
    }
  }

  lemma Pow2Add(a: int, b: int)
    ensures Pow2(a + b) == Pow2(a) * Pow2(b)
  {
    hide Pow2;
    if b >= 0 {
      Pow2AddNat(a, b);
    } else {
      Pow2AddNat(a + b, -b);
      Pow2AddNat(b, -b);
      assert Pow2(0) == 1.0 by { Pow2Zero(); }
      CancelFactor(Pow2(a), Pow2(a + b), Pow2(b), Pow2(-b));
    }
  }

  lemma CancelFactor(x: real, xy: real, y: real, inv: real)
    requires x == xy * inv && 1.0 == y * inv
    ensures xy == x * y
  {
    assert x * y == xy * (inv * y);
  }

  lemma Pow2Inverse(e: int)
    ensures Pow2(e) * Pow2(-e) == 1.0
  {
    Pow2Add(e, -e);
  }

  lemma {:induction false} Pow2Monotone(a: int, b: int)
    requires a <= b
    ensures Pow2(a) <= Pow2(b)
    ensures a < b ==> Pow2(a) < Pow2(b)
    decreases b - a
  {
    if a < b {
      Pow2Monotone(a, b - 1);
      Pow2Next(b - 1);
    }
  }

  /** The exponents compare as the powers do. */
  lemma Pow2Reflects(a: int, b: int)
    requires Pow2(a) < Pow2(b)
    ensures a < b
  {
    if b <= a {
      Pow2Monotone(b, a);
    }
  }

  /** 2^n as a natural number. */
  function NatPow2(n: nat): (r: nat)
    ensures r > 0
  {
    if n == 0 then 1 else 2 * NatPow2(n - 1)
  }

  lemma {:induction false} NatPow2Add(a: nat, b: nat)
    ensures NatPow2(a + b) == NatPow2(a) * NatPow2(b)
  {
    if b > 0 {
      assert NatPow2(a + b) == 2 * NatPow2(a + (b - 1)) && NatPow2(b) == 2 * NatPow2(b - 1);
      hide NatPow2;
      NatPow2Add(a, b - 1);
    }
  }

  lemma {:induction false} NatPow2IsPow2(n: nat)
    ensures NatPow2(n) as real == Pow2(n)
  {
    if n > 0 {
      NatPow2IsPow2(n - 1);
    }
  }

  function Pow10(n: nat): (r: nat)
    ensures r > 0
  {
    if n == 0 then 1 else 10 * Pow10(n - 1)
  }

  lemma Pow10Zero()
    ensures Pow10(0) == 1
  {
  }

  lemma {:induction false} Pow10Add(a: nat, b: nat)
    ensures Pow10(a + b) == Pow10(a) * Pow10(b)
  {
    if b > 0 {
      assert Pow10(a + b) == 10 * Pow10(a + (b - 1)) && Pow10(b) == 10 * Pow10(b - 1);
      hide Pow10;
      Pow10Add(a, b - 1);
    }
  }

  /** The number of bits of a magnitude, 0 for zero. */
  function BitLen(n: nat): nat
  {
    if n == 0 then 0 else 1 + BitLen(n / 2)
  }

  /** Every integer below a power of two is at least one below it. */
  lemma BitLenGap(h: nat)
    requires h as real < Pow2(BitLen(h))
    ensures h as real + 1.0 <= Pow2(BitLen(h))
  {
    NatPow2IsPow2(BitLen(h));
  }

  lemma {:induction false} BitLenBounds(n: nat)
    ensures n as real < Pow2(BitLen(n))
    ensures n > 0 ==> BitLen(n) > 0 && Pow2(BitLen(n) - 1) <= n as real
  {
    if n > 0 {
      BitLenBounds(n / 2);
      Pow2Next(BitLen(n / 2));
      assert n <= 2 * (n / 2) + 1;
      BitLenGap(n / 2);
      if n / 2 > 0 {
        Pow2Next(BitLen(n / 2) - 1);
      }
    }
  }

  lemma {:induction false} BitLenMonotone(a: nat, b: nat)
    requires a <= b
    ensures BitLen(a) <= BitLen(b)
  {
    if a > 0 {
      BitLenMonotone(a / 2, b / 2);
    }
  }
}
