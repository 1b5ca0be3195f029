/**
 Binary floating point on positive reals: rounding to p significant bits,
 ties to even (IEEE 754-2008, section 4.3.1), without an exponent limit as
 math/big does, and with the limits of float64.
 */
module BinaryFloat {
  import opened Powers

  /** The integer nearest to x, the even one of two equally near. */
  function RoundHalfEven(x: real): int
  {
    var below := x.Floor;
    var rest := x - below as real;
    if rest < 0.5 || (rest == 0.5 && below % 2 == 0) then below else below + 1
  }

  ghost function Distance(x: real, y: real): real
  {
    if x <= y then y - x else x - y
  }

  lemma RoundHalfEvenNearest(x: real, m: int)
    ensures Distance(RoundHalfEven(x) as real, x) <= Distance(m as real, x)
    ensures Distance(RoundHalfEven(x) as real, x) <= 0.5
    ensures Distance(RoundHalfEven(x) as real, x) == 0.5 ==> RoundHalfEven(x) % 2 == 0
  {
    if m <= x.Floor {
      assert m as real <= x.Floor as real;
    } else {
      assert m as real >= x.Floor as real + 1.0;
    }
  }

  lemma RoundHalfEvenMonotone(x: real, y: real)
    requires x <= y
    ensures RoundHalfEven(x) <= RoundHalfEven(y)
  {
  }

  /** The exponent of the binade that holds x. */
  function Exponent(x: real): (e: int)
    requires x > 0.0
    ensures Pow2(e) <= x < Pow2(e + 1)
    decreases if x < 1.0 then 1 else 0, if x < 1.0 then (1.0 / x).Floor else x.Floor
  {
    Pow2Zero();
    if 1.0 <= x < 2.0 then Pow2Next(0); 0
    else if x >= 2.0 then
      var e := Exponent(x / 2.0);
      Pow2Next(e); Pow2Next(e + 1);
      e + 1
    else
      HalfReciprocal(x);
      var e := Exponent(2.0 * x);
      Pow2Next(e - 1); Pow2Next(e);
      e - 1
  }

  lemma HalfReciprocal(x: real)
    requires 0.0 < x < 1.0
    ensures 2.0 * x < 1.0 ==> (1.0 / (2.0 * x)).Floor < (1.0 / x).Floor
  {
    assert 1.0 / (2.0 * x) == (1.0 / x) / 2.0;
    assert (1.0 / x) * x == 1.0;
    assert 1.0 / x > 1.0;
    if 2.0 * x < 1.0 {
      assert 1.0 / x > 2.0;
    }
  }

  lemma ExponentUnique(x: real, e: int)
    requires x > 0.0 && Pow2(e) <= x < Pow2(e + 1)
    ensures Exponent(x) == e
  {
    Pow2Reflects(e, Exponent(x) + 1);
    Pow2Reflects(Exponent(x), e + 1);
  }

  lemma ExponentMonotone(x: real, y: real)
    requires 0.0 < x <= y
    ensures Exponent(x) <= Exponent(y)
  {
    Pow2Reflects(Exponent(x), Exponent(y) + 1);
  }

  /** x shifted by e bits. */
  function Scale(x: real, e: int): real
  {
    x * Pow2(e)
  }

  lemma TimesOrder(a: real, b: real, k: real)
    requires k > 0.0
    ensures a <= b <==> a * k <= b * k
    ensures Distance(a, b) * k == Distance(a * k, b * k)
  {
    if a <= b {
      assert (b - a) * k >= 0.0;
      assert (b - a) * k == b * k - a * k;
    } else {
      assert (a - b) * k > 0.0;
      assert (a - b) * k == a * k - b * k;
    }
  }

  lemma ScaleOrder(a: real, b: real, e: int)
    ensures a <= b <==> Scale(a, e) <= Scale(b, e)
    ensures Distance(Scale(a, e), Scale(b, e)) == Scale(Distance(a, b), e)
  {
    hide Pow2;
    TimesOrder(a, b, Pow2(e));
  }

  lemma ScaleAdd(x: real, s: int, t: int)
    ensures Scale(Scale(x, s), t) == Scale(x, s + t)
  {
    hide Pow2;
    Pow2Add(s, t);
    assert (x * Pow2(s)) * Pow2(t) == x * (Pow2(s) * Pow2(t));
  }

  lemma ScalePow2(a: int, e: int)
    ensures Scale(Pow2(a), e) == Pow2(a + e)
  {
    Pow2Add(a, e);
  }

  lemma ScaleByZero(x: real)
    ensures Scale(x, 0) == x
  {
    Pow2Zero();
  }

  lemma Unscale(x: real, s: int)
    ensures Scale(Scale(x, s), -s) == x
  {
    ScaleAdd(x, s, -s);
    ScaleByZero(x);
  }

  /** The power of two that carries x's binade to p-bit integers. */
  function Shift(p: int, x: real): int
    requires x > 0.0
  {
    p - 1 - Exponent(x)
  }

  function Significand(p: int, x: real): int
    requires x > 0.0
  {
    RoundHalfEven(Scale(x, Shift(p, x)))
  }

  /** x rounded to p significant bits. */
  function Round(p: int, x: real): real
    requires x > 0.0
  {
    Scale(Significand(p, x) as real, -Shift(p, x))
  }

  function Dyadic(m: nat, j: int): real
  {
    Scale(m as real, j)
  }

  /** The non-negative numbers that p significant bits can hold. */
  ghost predicate Representable(p: int, y: real)
  {
    exists m: nat, j: int :: m as real < Pow2(p) && y == Dyadic(m, j)
  }

  /** The scaled x lies between 2^(p-1) and 2^p. */
  lemma ScaledRange(p: int, x: real)
    requires x > 0.0
    ensures Pow2(p - 1) <= Scale(x, Shift(p, x)) < Pow2(p)
  {
    hide Pow2, Scale;
    var e, s := Exponent(x), Shift(p, x);
    ScalePow2(e, s);
    ScalePow2(e + 1, s);
    ScaleOrder(Pow2(e), x, s);
    ScaleOrder(Pow2(e + 1), x, s);
  }

  /** A power of two that is not below 1 is an integer. */
  lemma Pow2IsInteger(n: nat)
    ensures RoundHalfEven(Pow2(n)) as real == Pow2(n)
  {
    NatPow2IsPow2(n);
    assert RoundHalfEven(NatPow2(n) as real) == NatPow2(n);
  }

  lemma SignificandRange(p: nat, x: real)
    requires p > 0 && x > 0.0
    ensures Pow2(p - 1) <= Significand(p, x) as real <= Pow2(p)
  {
    hide Pow2, Scale, Exponent, RoundHalfEven;
    ScaledRange(p, x);
    Pow2IsInteger(p - 1);
    Pow2IsInteger(p);
    RoundHalfEvenMonotone(Pow2(p - 1), Scale(x, Shift(p, x)));
    RoundHalfEvenMonotone(Scale(x, Shift(p, x)), Pow2(p));
  }

  /** Rounding stays in the closed binade. */
  lemma RoundBinade(p: nat, x: real)
    requires p > 0 && x > 0.0
    ensures Pow2(Exponent(x)) <= Round(p, x) <= Pow2(Exponent(x) + 1)
  {
    hide Pow2, Scale, Exponent, Significand;
    var s := Shift(p, x);
    SignificandRange(p, x);
    ScaleOrder(Pow2(p - 1), Significand(p, x) as real, -s);
    ScaleOrder(Significand(p, x) as real, Pow2(p), -s);
    ScalePow2(p - 1, -s);
    ScalePow2(p, -s);
  }

  /** The relative error of one rounding is at most 2^-p. */
  lemma RoundError(p: int, x: real)
    requires x > 0.0
    ensures Distance(Round(p, x), x) <= Scale(x, -p)
    ensures Distance(Round(p, x), x) <= Pow2(Exponent(x) - p)
  {
    hide Pow2, Scale, Exponent, RoundHalfEven, Distance;
    var s, e := Shift(p, x), Exponent(x);
    var k, scaled := Significand(p, x) as real, Scale(x, s);
    RoundHalfEvenNearest(scaled, 0);
    Unscale(x, s);
    ScaleOrder(k, scaled, -s);
    ScaleOrder(Distance(k, scaled), 0.5, -s);
    HalfIsPow2();
    ScalePow2(-1, -s);
    ScalePow2(e, -p);
    ScaleOrder(Pow2(e), x, -p);
  }

  lemma HalfIsPow2()
    ensures Pow2(-1) == 0.5
  {
  }

  /** Among the points of x's own p-bit grid the rounded one is nearest, with ties to the even significand. */
  lemma OnGridNearest(p: int, x: real, n: nat)
    requires x > 0.0
    ensures Distance(Round(p, x), x) <= Distance(Scale(n as real, -Shift(p, x)), x)
    ensures Distance(Round(p, x), x) == Distance(Scale(n as real, -Shift(p, x)), x) && n != Significand(p, x)
      ==> Significand(p, x) % 2 == 0
  {
    hide Pow2, Scale, Exponent, RoundHalfEven, Distance;
    var s := Shift(p, x);
    var k, scaled := Significand(p, x), Scale(x, s);
    Unscale(x, s);
    RoundHalfEvenNearest(scaled, n);
    ScaleOrder(k as real, scaled, -s);
    ScaleOrder(n as real, scaled, -s);
    ScaleOrder(Distance(k as real, scaled), Distance(n as real, scaled), -s);
    ScaleOrder(Distance(n as real, scaled), Distance(k as real, scaled), -s);
    if k != n && Distance(k as real, scaled) == Distance(n as real, scaled) {
      TieIsHalf(scaled, n);
    }
  }

  lemma TieIsHalf(x: real, n: int)
    requires n != RoundHalfEven(x) && Distance(RoundHalfEven(x) as real, x) == Distance(n as real, x)
    ensures RoundHalfEven(x) % 2 == 0
  {
    RoundHalfEvenNearest(x, n);
  }

  /** No number of p significant bits, in any binade, is nearer. */
  lemma RoundNearest(p: nat, x: real, y: real)
    requires p > 0 && x > 0.0 && Representable(p, y)
    ensures Distance(Round(p, x), x) <= Distance(y, x)
    ensures Distance(Round(p, x), x) == Distance(y, x) && y != Round(p, x) ==> Significand(p, x) % 2 == 0
  {
    var s := Shift(p, x);
    var m: nat, j: int :| m as real < Pow2(p) && y == Dyadic(m, j);
    hide Pow2, Scale, Exponent, Significand;
    if j >= -s {
      var n := m * NatPow2(j + s);
      assert Scale(n as real, -s) == y by {
        NatPow2IsPow2(j + s);
        assert n as real == Scale(m as real, j + s) by {
          WholeScale(m, j + s);
        }
        ScaleAdd(m as real, j + s, -s);
      }
      OnGridNearest(p, x, n);
    } else {
      BelowBinade(p, x, m, j);
      NatPow2IsPow2(p - 1);
      ScalePow2(p - 1, -s);
      OnGridNearest(p, x, NatPow2(p - 1));
    }
  }

  lemma WholeScale(m: nat, j: nat)
    ensures (m * NatPow2(j)) as real == Scale(m as real, j)
  {
    NatPow2IsPow2(j);
  }

  lemma BelowBinade(p: nat, x: real, m: nat, j: int)
    requires x > 0.0 && m as real < Pow2(p) && j < -Shift(p, x)
    ensures Scale(m as real, j) < Pow2(Exponent(x)) <= x
  {
    hide Pow2, Scale, Exponent;
    ScaleOrder(Pow2(p), m as real, j);
    ScalePow2(p, j);
    Pow2Monotone(p + j, Exponent(x));
  }

  lemma RoundRepresentable(p: nat, x: real)
    requires p > 0 && x > 0.0
    ensures Representable(p, Round(p, x))
  {
    hide Pow2, Scale, Exponent, Significand;
    var s, k := Shift(p, x), Significand(p, x);
    SignificandRange(p, x);
    if k as real < Pow2(p) {
      assert k >= 0 && Round(p, x) == Dyadic(k, -s);
    } else {
      ScalePow2(p, -s);
      Pow2Zero();
      Pow2Monotone(0, p);
      ScalePow2(0, p - s);
      var one: nat := 1;
      assert one as real < Pow2(p) && Round(p, x) == Dyadic(one, p - s);
    }
  }

  /** What p bits can hold is not changed. */
  lemma RoundExact(p: nat, y: real)
    requires p > 0 && y > 0.0 && Representable(p, y)
    ensures Round(p, y) == y
  {
    RoundNearest(p, y, y);
  }

  lemma RepresentableWider(p: int, q: int, y: real)
    requires p <= q && Representable(p, y)
    ensures Representable(q, y)
  {
    var m: nat, j: int :| m as real < Pow2(p) && y == Dyadic(m, j);
    Pow2Monotone(p, q);
    assert m as real < Pow2(q) && y == Dyadic(m, j);
  }

  lemma RoundMonotone(p: nat, x: real, y: real)
    requires p > 0 && 0.0 < x <= y
    ensures Round(p, x) <= Round(p, y)
  {
    hide Pow2, Scale, Exponent, RoundHalfEven;
    ExponentMonotone(x, y);
    if Exponent(x) == Exponent(y) {
      var s := Shift(p, x);
      ScaleOrder(x, y, s);
      RoundHalfEvenMonotone(Scale(x, s), Scale(y, s));
      ScaleOrder(Significand(p, x) as real, Significand(p, y) as real, -s);
    } else {
      RoundBinade(p, x);
      RoundBinade(p, y);
      Pow2Monotone(Exponent(x) + 1, Exponent(y));
    }
  }

  /** A float64 that is not NaN. */
  datatype Float64 = Finite(value: real) | Infinite(negative: bool)

  const MAX_EXPONENT := 1023
  const MIN_EXPONENT := -1022

  /** Conversion to float64: 53 bits, gradual underflow below 2^-1022, infinity on overflow. */
  function ToFloat64(x: real): Float64
  {
    if x < 0.0 then
      match MagnitudeToFloat64(-x)
      case Finite(v) => Finite(-v)
      case Infinite(_) => Infinite(true)
    else MagnitudeToFloat64(x)
  }

  function MagnitudeToFloat64(x: real): Float64
    requires x >= 0.0
  {
    if x == 0.0 then Finite(0.0)
    else if Exponent(x) < MIN_EXPONENT then Finite(Scale(RoundHalfEven(Scale(x, 1074)) as real, -1074))
    else if Round(53, x) >= Pow2(MAX_EXPONENT + 1) then Infinite(false)
    else Finite(Round(53, x))
  }

  /** Half a unit above the largest finite float64. */
  ghost function OverflowThreshold(): real
  {
    Pow2(1024) - Pow2(970)
  }

  /** Exactly the magnitudes from the threshold on overflow. */
  lemma OverflowIff(x: real)
    requires x >= 0.0
    ensures MagnitudeToFloat64(x).Infinite? <==> x >= OverflowThreshold()
  {
    hide Pow2, Scale, Exponent, RoundHalfEven;
    Pow2Monotone(970, 1023);
    Pow2Next(1023);
    if x > 0.0 {
      RoundBinade(53, x);
      var e := Exponent(x);
      if e > 1023 {
        Pow2Monotone(1024, e);
        assert Round(53, x) >= Pow2(1024);
      } else if e < 1023 {
        Pow2Monotone(e + 1, 1023);
      } else {
        TopBinadeOverflow(x);
      }
    }
  }

  lemma TopBinadeOverflow(x: real)
    requires x > 0.0 && Exponent(x) == 1023
    ensures Round(53, x) >= Pow2(1024) <==> x >= OverflowThreshold()
  {
    hide Pow2, Scale, Exponent, RoundHalfEven;
    var scaled := Scale(x, -971);
    NatPow2IsPow2(53);
    ScaledRange(53, x);
    ScalePow2(53, 971);
    ScaleOrder(Pow2(53), Significand(53, x) as real, 971);
    Unscale(x, -971);
    ScaleOrder(Pow2(53) - 0.5, scaled, 971);
    HalfUnitBelow();
    RoundsUpToEven(scaled, NatPow2(53));
  }

  lemma HalfUnitBelow()
    ensures Scale(Pow2(53) - 0.5, 971) == OverflowThreshold()
  {
    hide Pow2;
    HalfIsPow2();
    Pow2Add(53, 971);
    Pow2Add(-1, 971);
    assert (Pow2(53) - 0.5) * Pow2(971) == Pow2(53) * Pow2(971) - 0.5 * Pow2(971);
  }

  lemma RoundsUpToEven(x: real, n: int)
    requires n % 2 == 0 && x < n as real
    ensures RoundHalfEven(x) >= n <==> x >= n as real - 0.5
  {
    if x >= n as real - 0.5 {
      assert x.Floor == n - 1;
    }
  }

  ghost predicate AtMost(a: Float64, b: Float64)
  {
    (b == Infinite(false)) || (a.Finite? && b.Finite? && a.value <= b.value)
  }

  lemma MagnitudeMonotone(x: real, y: real)
    requires 0.0 <= x <= y
    ensures AtMost(MagnitudeToFloat64(x), MagnitudeToFloat64(y))
    ensures MagnitudeToFloat64(x).Finite? ==> MagnitudeToFloat64(x).value >= 0.0
  {
    hide Pow2, Scale, Exponent, RoundHalfEven;
    if x > 0.0 {
      ExponentMonotone(x, y);
      if Exponent(x) >= MIN_EXPONENT {
        RoundMonotone(53, x, y);
        RoundBinade(53, x);
      } else {
        ScaleOrder(x, y, 1074);
        SubnormalBounds(x);
        RoundHalfEvenMonotone(Scale(x, 1074), Scale(y, 1074));
        ScaleOrder(RoundHalfEven(Scale(x, 1074)) as real, RoundHalfEven(Scale(y, 1074)) as real, -1074);
        if Exponent(y) >= MIN_EXPONENT {
          RoundBinade(53, y);
          Pow2Monotone(MIN_EXPONENT, Exponent(y));
        }
      }
    } else {
      NonNegative(y);
    }
  }

  lemma NonNegative(y: real)
    requires y >= 0.0
    ensures MagnitudeToFloat64(y).Finite? ==> MagnitudeToFloat64(y).value >= 0.0
  {
    hide Pow2, Scale, Exponent, RoundHalfEven;
    if y > 0.0 {
      if Exponent(y) < MIN_EXPONENT {
        SubnormalBounds(y);
      } else {
        RoundBinade(53, y);
      }
    }
  }

  /** A finite result is within 2^-53 of a normal number, relatively, and within half the least float64 of any other. */
  lemma FloatClose(x: real)
    requires x > 0.0 && MagnitudeToFloat64(x).Finite?
    ensures var v := MagnitudeToFloat64(x).value;
      if x >= Pow2(MIN_EXPONENT) then v >= Pow2(MIN_EXPONENT) && Distance(v, x) <= Scale(x, -53)
      else Distance(v, x) <= Pow2(-1075)
  {
    hide Pow2, Scale, Exponent, RoundHalfEven, Distance;
    if x >= Pow2(MIN_EXPONENT) {
      if Exponent(x) < MIN_EXPONENT {
        Pow2Monotone(Exponent(x) + 1, MIN_EXPONENT);
      }
      RoundError(53, x);
      RoundBinade(53, x);
      Pow2Monotone(MIN_EXPONENT, Exponent(x));
    } else {
      Pow2Reflects(Exponent(x), MIN_EXPONENT);
      SubnormalClose(x);
    }
  }

  lemma SubnormalClose(x: real)
    ensures Distance(Scale(RoundHalfEven(Scale(x, 1074)) as real, -1074), x) <= Pow2(-1075)
  {
    hide Pow2, Scale, RoundHalfEven, Distance;
    var scaled := Scale(x, 1074);
    RoundHalfEvenNearest(scaled, 0);
    Unscale(x, 1074);
    ScaleOrder(RoundHalfEven(scaled) as real, scaled, -1074);
    ScaleOrder(Distance(RoundHalfEven(scaled) as real, scaled), 0.5, -1074);
    HalfIsPow2();
    ScalePow2(-1, -1074);
  }

  lemma SubnormalBounds(x: real)
    requires x > 0.0 && Exponent(x) < MIN_EXPONENT
    ensures 0.0 <= Scale(RoundHalfEven(Scale(x, 1074)) as real, -1074) <= Pow2(MIN_EXPONENT)
  {
    hide Pow2, Scale, Exponent;
    Pow2Monotone(Exponent(x) + 1, MIN_EXPONENT);
    var scaled := Scale(x, 1074);
    ScaleOrder(x, Pow2(MIN_EXPONENT), 1074);
    ScalePow2(MIN_EXPONENT, 1074);
    Pow2IsInteger(52);
    RoundHalfEvenMonotone(scaled, Pow2(52));
    ScaleOrder(0.0, x, 1074);
    ZeroScaled(1074);
    ZeroScaled(-1074);
    RoundHalfEvenMonotone(0.0, scaled);
    assert RoundHalfEven(0.0) == 0;
    ScaleOrder(0.0, RoundHalfEven(scaled) as real, -1074);
    ScaleOrder(RoundHalfEven(scaled) as real, Pow2(52), -1074);
    ScalePow2(52, -1074);
  }

  lemma ZeroScaled(e: int)
    ensures Scale(0.0, e) == 0.0
  {
  }
}
