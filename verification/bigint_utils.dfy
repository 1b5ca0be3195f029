/**
 Amounts as text and as dollars: FormatBigInt and CalculateValueUSD.
 An amount is a magnitude in the token's smallest unit; the source divides it
 by 10^decimals in binary floating point whose precision it takes from its operands.
 */
module BigIntUtils {
  import opened Wrappers
  import opened Powers
  import opened BinaryFloat
  import opened Strings

  function Max(a: int, b: int): int
  {
    if a < b then b else a
  }

  /** The precision a quotient gets: that of the wider operand, each at least 64 bits. */
  function Precision(amount: nat, decimals: nat): (p: int)
    ensures p >= 64 && p >= BitLen(amount)
  {
    Max(64, Max(BitLen(amount), BitLen(Pow10(decimals))))
  }

  /** amount / 10^decimals, without rounding. */
  function Exact(amount: nat, decimals: nat): real
  {
    amount as real / Pow10(decimals) as real
  }

  /** The quotient as the source holds it. */
  function Quotient(amount: nat, decimals: nat): (v: real)
    ensures v >= 0.0
  {
    if amount == 0 then 0.0
    else
      ExactPositive(amount, decimals);
      RoundBinade(Precision(amount, decimals), Exact(amount, decimals));
      Round(Precision(amount, decimals), Exact(amount, decimals))
  }

  lemma ExactPositive(amount: nat, decimals: nat)
    requires amount > 0
    ensures Exact(amount, decimals) > 0.0
  {
  }

  /** v in units of the last of d decimal places. */
  function InUnits(v: real, d: nat): real
  {
    v * Pow10(d) as real
  }

  function Units(v: real, d: nat): int
  {
    RoundHalfEven(InUnits(v, d))
  }

  /** v with d > 0 digits after the dot. */
  function FixedText(v: real, d: nat): string
    requires v >= 0.0 && d > 0
  {
    UnitsNonNegative(v, d);
    UnitsText(Units(v, d), d)
  }

  /** n units of the last of d decimal places, written with a dot. */
  function UnitsText(n: nat, d: nat): string
  {
    FormatUint(Whole(n, Pow10(d))) + "." + PadDigits(Rest(n, Pow10(d)), d)
  }

  function Whole(n: nat, k: nat): nat
    requires k > 0
  {
    n / k
  }

  function Rest(n: nat, k: nat): (r: nat)
    requires k > 0
    ensures r < k
  {
    n % k
  }

  lemma UnitsNonNegative(v: real, d: nat)
    requires v >= 0.0
    ensures Units(v, d) >= 0
  {
    RoundHalfEvenMonotone(0.0, InUnits(v, d));
  }

  datatype Formatted = Formatted(text: string, error: Option<string>)

  function FormatBigInt(amount: Option<nat>, decimals: nat): Formatted
  {
    if amount.None? then Formatted("0.0", None)
    else if decimals == 0 then Formatted(FormatUint(amount.value), None)
    else FormatQuotient(amount.value, Quotient(amount.value, decimals), decimals)
  }

  /** The part of FormatBigInt that follows the division. */
  function FormatQuotient(amount: nat, value: real, decimals: nat): Formatted
    requires value >= 0.0 && decimals > 0
  {
    var text := Shorten(FixedText(value, decimals));
    if text == "" && amount == 0 then Formatted("0", None)
    else if text == "" && amount != 0 then
      Formatted(FixedText(value, 2), Some("formatting resulted in empty string for non-zero value"))
    else Formatted(text, None)
  }

  /** Drops trailing zeros and dot, and puts a zero before a leading dot. */
  function Shorten(fixed: string): string
  {
    var trimmed := if '.' in fixed then TrimRight(TrimRight(fixed, '0'), '.') else fixed;
    if trimmed != "" && trimmed[0] == '.' then "0" + trimmed else trimmed
  }

  // ---- What the text denotes -------------------------------------------

  /** Fixed-point text without its trailing zeros, as a whole part and a fraction. */
  lemma TrimmedFixedText(whole: string, fraction: string)
    requires whole != "" && AllDigits(whole) && AllDigits(fraction)
    ensures var kept := TrimRight(fraction, '0');
      && TrimRight(TrimRight(whole + "." + fraction, '0'), '.') == (if kept == "" then whole else whole + "." + kept)
  {
    var kept := TrimRight(fraction, '0');
    TrimZeros(fraction);
    TrimRightAppend(whole + ".", fraction, '0');
    if kept == "" {
      TrimRightAppend(whole, ".", '.');
      assert TrimRight(".", '.') == TrimRight("", '.') == "";
      assert whole + "" == whole;
      assert whole + "." + kept == whole + ".";
    } else {
      assert (whole + "." + kept)[|whole + "." + kept| - 1] == kept[|kept| - 1];
      assert IsDigit(kept[|kept| - 1]);
    }
  }

  /** The trimmed text has the same whole part, and the fraction without its zeros. */
  lemma TrimmedParts(whole: string, fraction: string, text: string)
    requires whole != "" && AllDigits(whole) && AllDigits(fraction)
    requires text == TrimRight(TrimRight(whole + "." + fraction, '0'), '.')
    ensures text != "" && text[0] == whole[0] && IsDecimal(text)
    ensures WholePart(text) == whole && FractionPart(text) == TrimRight(fraction, '0')
  {
    TrimmedFixedText(whole, fraction);
    var kept := TrimRight(fraction, '0');
    TrimZeros(fraction);
    DotIndexOf(whole, kept);
    assert text[..|whole|] == whole;
    if kept != "" {
      assert text[|whole| + 1..] == kept;
    }
  }

  lemma SameFraction(w: nat, f: nat, p: nat, q: nat)
    requires p > 0 && q > 0
    ensures p * q > 0
    ensures (w * p + f) as real / p as real == (w * (p * q) + f * q) as real / (p * q) as real
  {
    assert w * (p * q) + f * q == (w * p + f) * q;
    FractionOfProducts((w * p + f) as real, p as real, q as real);
    assert ((w * p + f) * q) as real == (w * p + f) as real * q as real;
    assert (p * q) as real == p as real * q as real;
  }

  lemma FractionOfProducts(a: real, p: real, q: real)
    requires p > 0.0 && q > 0.0
    ensures p * q > 0.0 && a / p == (a * q) / (p * q)
  {
    var x := a / p;
    assert x * p == a;
    assert x * (p * q) == a * q;
  }

  /** So it denotes the same number of units. */
  lemma TrimmedTextDenotes(whole: string, fraction: string, text: string)
    requires whole != "" && AllDigits(whole) && AllDigits(fraction)
    requires IsDecimal(text) && WholePart(text) == whole && FractionPart(text) == TrimRight(fraction, '0')
    ensures ParseDecimal(text)
         == (ReadDigits(whole) * Pow10(|fraction|) + ReadDigits(fraction)) as real / Pow10(|fraction|) as real
  {
    hide ReadDigits, Pow10, TrimRight, IsDecimal, WholePart, FractionPart;
    var kept := TrimRight(fraction, '0');
    TrimZeros(fraction);
    ReadDigitsConcat(whole, kept);
    Pow10Add(|kept|, |fraction| - |kept|);
    SameFraction(ReadDigits(whole), ReadDigits(kept), Pow10(|kept|), Pow10(|fraction| - |kept|));
  }

  /** The units printed for an amount. */
  function PrintedUnits(amount: nat, decimals: nat): int
  {
    if decimals == 0 then amount else Units(Quotient(amount, decimals), decimals)
  }

  lemma WholeTextDenotes(n: nat)
    ensures IsDecimal(FormatUint(n)) && ParseDecimal(FormatUint(n)) == n as real
  {
    var text := FormatUint(n);
    DotIndexOf(text, "");
    assert text[..|text|] == text;
    assert WholePart(text) + FractionPart(text) == text;
  }

  lemma UnitsTextDenotes(n: nat, d: nat, text: string)
    requires text == TrimRight(TrimRight(UnitsText(n, d), '0'), '.')
    ensures text != "" && text[0] != '.' && IsDecimal(text)
    ensures ParseDecimal(text) == n as real / Pow10(d) as real
  {
    hide Pow10, TrimRight, IsDecimal, ParseDecimal;
    var whole, fraction := FormatUint(Whole(n, Pow10(d))), PadDigits(Rest(n, Pow10(d)), d);
    hide FormatUint, PadDigits;
    TrimmedParts(whole, fraction, text);
    TrimmedTextDenotes(whole, fraction, text);
    assert IsDigit(whole[0]);
    QuotientRemainder(n, Pow10(d));
  }

  lemma QuotientRemainder(n: nat, p: nat)
    requires p > 0
    ensures Whole(n, p) * p + Rest(n, p) == n
  {
  }

  /**
   For every amount the error return is not taken, and the text is a decimal
   fraction that denotes exactly the printed units.
   */
  lemma FormatDenotes(amount: nat, decimals: nat)
    ensures var out := FormatBigInt(Some(amount), decimals);
      && out.error.None? && out.text != "" && IsDecimal(out.text)
      && PrintedUnits(amount, decimals) >= 0
      && ParseDecimal(out.text) == PrintedUnits(amount, decimals) as real / Pow10(decimals) as real
  {
    hide TrimRight, IsDecimal, ParseDecimal, Quotient, Units, FormatUint, PadDigits, Pow10;
    if decimals == 0 {
      Pow10Zero();
      WholeTextDenotes(amount);
    } else {
      var v := Quotient(amount, decimals);
      UnitsNonNegative(v, decimals);
      var fixed := FixedText(v, decimals);
      assert fixed[|FormatUint(Whole(Units(v, decimals), Pow10(decimals)))|] == '.';
      UnitsTextDenotes(Units(v, decimals), decimals, TrimRight(TrimRight(fixed, '0'), '.'));
    }
  }

  // ---- How far the printed units are from the amount ---------------------

  lemma RoundHalfEvenIs(y: real, n: int)
    ensures RoundHalfEven(y) == n <==> Distance(y, n as real) < 0.5 || (Distance(y, n as real) == 0.5 && n % 2 == 0)
  {
    var f := y.Floor;
    assert f as real <= y < f as real + 1.0;
    if n <= f - 1 {
      assert n as real <= f as real - 1.0;
    } else if n >= f + 2 {
      assert n as real >= f as real + 2.0;
    } else if n == f + 1 {
      NextParity(f);
      assert n as real == f as real + 1.0;
    }
  }

  lemma NextParity(f: int)
    ensures (f + 1) % 2 == 0 <==> f % 2 != 0
  {
  }

  lemma InUnitsOrder(a: real, b: real, d: nat)
    ensures a <= b <==> InUnits(a, d) <= InUnits(b, d)
    ensures InUnits(Distance(a, b), d) == Distance(InUnits(a, d), InUnits(b, d))
  {
    var k := Pow10(d) as real;
    hide Pow10;
    TimesOrder(a, b, k);
  }

  lemma InUnitsScale(x: real, d: nat, e: int)
    ensures InUnits(Scale(x, e), d) == Scale(InUnits(x, d), e)
  {
    var g, k := Pow2(e), Pow10(d) as real;
    hide Pow2, Pow10;
    assert (x * g) * k == (x * k) * g;
  }

  lemma InUnitsExact(amount: nat, d: nat)
    ensures InUnits(Exact(amount, d), d) == amount as real
    ensures 0.0 <= Exact(amount, d) <= amount as real
    ensures amount > 0 ==> Exact(amount, d) > 0.0
  {
  }

  lemma AmountBelowPrecision(amount: nat, decimals: nat)
    ensures amount as real < Pow2(Precision(amount, decimals))
    ensures Scale(amount as real, -Precision(amount, decimals)) < 1.0
  {
    var p := Precision(amount, decimals);
    BitLenBounds(amount);
    Pow2Monotone(BitLen(amount), p);
    hide Pow2, Scale, BitLen;
    ScaleOrder(Pow2(p), amount as real, -p);
    ScalePow2(p, -p);
    Pow2Zero();
  }

  /** In units, the quotient misses the amount by at most amount / 2^p. */
  lemma QuotientClose(amount: nat, decimals: nat)
    ensures Distance(InUnits(Quotient(amount, decimals), decimals), amount as real)
         <= Scale(amount as real, -Precision(amount, decimals)) < 1.0
  {
    AmountBelowPrecision(amount, decimals);
    var p := Precision(amount, decimals);
    if amount == 0 {
      ZeroScaled(-p);
    } else {
      hide Pow2, Scale, Round, Precision, InUnits, Exact, Distance;
      var x := Exact(amount, decimals);
      InUnitsExact(amount, decimals);
      RoundError(p, x);
      InUnitsOrder(Round(p, x), x, decimals);
      InUnitsOrder(Distance(Round(p, x), x), Scale(x, -p), decimals);
      InUnitsScale(x, decimals, -p);
    }
  }

  /** The printed units are never off by more than one. */
  lemma PrintedWithinOneUnit(amount: nat, decimals: nat)
    ensures amount - 1 <= PrintedUnits(amount, decimals) <= amount + 1
  {
    hide Scale, Quotient, InUnits, RoundHalfEven;
    if decimals > 0 {
      QuotientClose(amount, decimals);
      RoundHalfEvenNearest(InUnits(Quotient(amount, decimals), decimals), 0);
    }
  }

  /** With one bit of precision to spare they are the amount. */
  lemma SpareBitIsExact(amount: nat, decimals: nat)
    requires amount as real < Pow2(Precision(amount, decimals) - 1)
    ensures PrintedUnits(amount, decimals) == amount
  {
    hide Pow2, Scale, Precision, Quotient, InUnits, RoundHalfEven;
    if decimals > 0 {
      var p := Precision(amount, decimals);
      QuotientClose(amount, decimals);
      ScaleOrder(Pow2(p - 1), amount as real, -p);
      ScalePow2(p - 1, -p);
      HalfIsPow2();
      RoundHalfEvenIs(InUnits(Quotient(amount, decimals), decimals), amount);
    }
  }

  /** The shift that makes the quotient a p-bit integer. */
  function QuotientShift(amount: nat, decimals: nat): int
    requires amount > 0
  {
    ExactPositive(amount, decimals);
    Shift(Precision(amount, decimals), Exact(amount, decimals))
  }

  /** It is never negative, and integers alone determine it. */
  lemma QuotientShiftBounds(amount: nat, decimals: nat)
    requires amount > 0
    ensures var s, p := QuotientShift(amount, decimals), Precision(amount, decimals);
      && s >= 0
      && NatPow2(p - 1) * Pow10(decimals) <= amount * NatPow2(s) < NatPow2(p) * Pow10(decimals)
  {
    hide Pow2, Scale, Precision, Exact, Exponent, NatPow2, InUnits;
    var p, x := Precision(amount, decimals), Exact(amount, decimals);
    InUnitsExact(amount, decimals);
    AmountBelowPrecision(amount, decimals);
    Pow2Reflects(Exponent(x), p);
    var s := QuotientShift(amount, decimals);
    ScaledRange(p, x);
    InUnitsOrder(Pow2(p - 1), Scale(x, s), decimals);
    InUnitsOrder(Pow2(p), Scale(x, s), decimals);
    InUnitsScale(x, decimals, s);
    ScaledAmount(amount, s);
    InUnitsPow2(p - 1, decimals);
    InUnitsPow2(p, decimals);
  }

  lemma InUnitsPow2(n: nat, d: nat)
    ensures InUnits(Pow2(n), d) == (NatPow2(n) * Pow10(d)) as real
  {
    NatPow2IsPow2(n);
  }

  lemma ScaledAmount(amount: nat, s: nat)
    ensures Scale(amount as real, s) == (amount * NatPow2(s)) as real
  {
    NatPow2IsPow2(s);
  }

  /** The distance from n to the nearest multiple of k. */
  function GapToMultiple(n: nat, k: nat): nat
    requires k > 0
  {
    if n % k <= k - n % k then n % k else k - n % k
  }

  /**
   When the printed units are the amount. The quotient's p-bit grid is
   amount * 2^s rounded to a multiple of 10^decimals; the gap to that multiple
   has to stay below half of 2^s, or meet it with an even amount.
   */
  predicate PrintsExactly(amount: nat, decimals: nat)
  {
    decimals == 0 || amount == 0 ||
    (QuotientShiftBounds(amount, decimals);
     var step := NatPow2(QuotientShift(amount, decimals));
     var gap := GapToMultiple(amount * step, Pow10(decimals));
     2 * gap < step || (2 * gap == step && amount % 2 == 0))
  }

  lemma ProductAsReal(a: int, b: int)
    ensures (a * b) as real == a as real * b as real
  {
  }

  lemma FloorIs(y: real, q: int)
    requires q as real <= y < q as real + 1.0
    ensures y.Floor == q
  {
  }

  /** n / k over the reals, as the integer quotient and a rest. */
  lemma RealQuotient(n: nat, k: nat, y: real)
    requires k > 0 && y * k as real == n as real
    ensures y.Floor == n / k
    ensures (y - (n / k) as real) * k as real == (n % k) as real
  {
    var q, r := n / k, n % k;
    QuotientRemainder(n, k);
    ProductAsReal(q, k);
    assert (y - q as real) * k as real == r as real;
    assert 0 <= r < k;
    TimesOrder(0.0, y - q as real, k as real);
    TimesOrder(1.0, y - q as real, k as real);
    FloorIs(y, q);
  }

  lemma HalfOf(rest: real, r: nat, k: nat)
    requires k > 0 && rest * k as real == r as real
    ensures rest < 0.5 <==> 2 * r < k
    ensures rest == 0.5 <==> 2 * r == k
  {
    TimesOrder(0.5, rest, k as real);
    TimesOrder(rest, 0.5, k as real);
  }

  /** Rounding n / k to an integer leaves the gap to the nearest multiple of k. */
  lemma RoundedMultiple(n: nat, k: nat, y: real)
    requires k > 0 && y * k as real == n as real
    ensures Distance(RoundHalfEven(y) as real * k as real, n as real) == GapToMultiple(n, k) as real
  {
    hide *;
    RoundedQuotient(n, k, y);
    MultipleGap(n, k, RoundHalfEven(y));
  }

  lemma MultipleGap(n: nat, k: nat, m: int)
    requires k > 0
    requires var q, r := n / k, n % k; m == if 2 * r < k || (2 * r == k && q % 2 == 0) then q else q + 1
    ensures Distance(m as real * k as real, n as real) == GapToMultiple(n, k) as real
  {
    hide Distance;
    if m == n / k {
      DistanceToMultiple(n, k, m);
    } else {
      DistanceToNext(n, k, m);
    }
  }

  lemma RoundedQuotient(n: nat, k: nat, y: real)
    requires k > 0 && y * k as real == n as real
    ensures var q, r := n / k, n % k;
      RoundHalfEven(y) == if 2 * r < k || (2 * r == k && q % 2 == 0) then q else q + 1
  {
    RealQuotient(n, k, y);
    HalfOf(y - (n / k) as real, n % k, k);
  }

  lemma DistanceToMultiple(n: nat, k: nat, m: int)
    requires k > 0 && m == n / k
    ensures Distance(m as real * k as real, n as real) == (n % k) as real
  {
    QuotientRemainder(n, k);
    ProductAsReal(m, k);
  }

  lemma DistanceToNext(n: nat, k: nat, m: int)
    requires k > 0 && m == n / k + 1
    ensures Distance(m as real * k as real, n as real) == (k - n % k) as real
  {
    QuotientRemainder(n, k);
    ProductAsReal(m, k);
    assert m * k == n / k * k + k;
  }

  lemma RoundedUnits(n: nat, y: real, d: nat)
    requires InUnits(y, d) == n as real
    ensures Distance(InUnits(RoundHalfEven(y) as real, d), n as real) == GapToMultiple(n, Pow10(d)) as real
  {
    var k, m := Pow10(d), RoundHalfEven(y);
    hide Pow10, GapToMultiple, RoundHalfEven;
    assert InUnits(m as real, d) == m as real * k as real && y * k as real == n as real;
    hide InUnits;
    RoundedMultiple(n, k, y);
  }

  /** The gap, carried back by 2^s, is how far the quotient misses the amount. */
  lemma QuotientMiss(amount: nat, decimals: nat)
    requires amount > 0
    ensures var s := QuotientShift(amount, decimals);
      s >= 0 &&
      Distance(InUnits(Quotient(amount, decimals), decimals), amount as real)
      == Scale(GapToMultiple(amount * NatPow2(s), Pow10(decimals)) as real, -s)
  {
    hide Pow2, Scale, Precision, Exponent, NatPow2, GapToMultiple, RoundHalfEven, Distance, Pow10, InUnits, Exact;
    var x, s, k := Exact(amount, decimals), QuotientShift(amount, decimals), Pow10(decimals);
    InUnitsExact(amount, decimals);
    QuotientShiftBounds(amount, decimals);
    var n := amount * NatPow2(s);
    ScaledAmount(amount, s);
    InUnitsScale(x, decimals, s);
    var y := Scale(x, s);
    RoundedUnits(n, y, decimals);
    var m := RoundHalfEven(y) as real;
    InUnitsScale(m, decimals, -s);
    Unscale(amount as real, s);
    ScaleOrder(InUnits(m, decimals), n as real, -s);
  }

  lemma ScaledGap(gap: nat, s: int)
    requires s >= 0
    ensures Scale(gap as real, -s) < 0.5 <==> 2 * gap < NatPow2(s)
    ensures Scale(gap as real, -s) == 0.5 <==> 2 * gap == NatPow2(s)
  {
    hide Scale, NatPow2;
    HalfIsPow2();
    NatPow2IsPow2(s);
    ScalePow2(-1, s);
    Pow2Next(s - 1);
    Unscale(gap as real, -s);
    ScaleOrder(0.5, Scale(gap as real, -s), s);
    ScaleOrder(Scale(gap as real, -s), 0.5, s);
  }

  /** The text denotes the amount itself exactly when the grid condition holds. */
  lemma FormatExactIff(amount: nat, decimals: nat)
    ensures IsDecimal(FormatBigInt(Some(amount), decimals).text)
    ensures ParseDecimal(FormatBigInt(Some(amount), decimals).text) == Exact(amount, decimals)
       <==> PrintsExactly(amount, decimals)
  {
    FormatDenotes(amount, decimals);
    PrintedUnitsExactIff(amount, decimals);
    var units, k := PrintedUnits(amount, decimals), Pow10(decimals);
    hide FormatBigInt, ParseDecimal, IsDecimal, PrintsExactly, PrintedUnits, Pow10;
    TimesOrder(units as real / k as real, amount as real / k as real, k as real);
    TimesOrder(amount as real / k as real, units as real / k as real, k as real);
  }

  lemma PrintedUnitsExactIff(amount: nat, decimals: nat)
    ensures PrintedUnits(amount, decimals) == amount <==> PrintsExactly(amount, decimals)
  {
    hide Pow2, Scale, Precision, Exponent, NatPow2, GapToMultiple, RoundHalfEven, InUnits, QuotientShift, Round;
    if decimals > 0 {
      var y := InUnits(Quotient(amount, decimals), decimals);
      if amount == 0 {
        SpareBitIsExact(0, decimals);
      } else {
        QuotientMiss(amount, decimals);
        var s := QuotientShift(amount, decimals);
        ScaledGap(GapToMultiple(amount * NatPow2(s), Pow10(decimals)), s);
        RoundHalfEvenIs(y, amount);
      }
    }
  }

  /** The round trip, and with it injectivity, for every amount with a bit of precision to spare. */
  lemma FormatRoundTrip(amount: nat, decimals: nat)
    requires decimals > 0 ==> amount as real < Pow2(Precision(amount, decimals) - 1)
    ensures PrintsExactly(amount, decimals)
    ensures IsDecimal(FormatBigInt(Some(amount), decimals).text)
    ensures ParseDecimal(FormatBigInt(Some(amount), decimals).text) == Exact(amount, decimals)
  {
    if decimals > 0 {
      SpareBitIsExact(amount, decimals);
    }
    PrintedUnitsExactIff(amount, decimals);
    FormatExactIff(amount, decimals);
  }

  lemma FormatInjective(a: nat, b: nat, decimals: nat)
    requires PrintsExactly(a, decimals) && PrintsExactly(b, decimals)
    ensures FormatBigInt(Some(a), decimals).text == FormatBigInt(Some(b), decimals).text <==> a == b
  {
    FormatExactIff(a, decimals);
    FormatExactIff(b, decimals);
    hide FormatBigInt, ParseDecimal, IsDecimal, PrintsExactly, Exact;
    if FormatBigInt(Some(a), decimals).text == FormatBigInt(Some(b), decimals).text {
      InUnitsExact(a, decimals);
      InUnitsExact(b, decimals);
    }
  }

  /** Every amount's text denotes a number within one unit of the last place. */
  lemma FormatWithinOneUnit(amount: nat, decimals: nat)
    ensures IsDecimal(FormatBigInt(Some(amount), decimals).text)
    ensures var shown := ParseDecimal(FormatBigInt(Some(amount), decimals).text);
      Distance(InUnits(shown, decimals), amount as real) <= 1.0
  {
    FormatDenotes(amount, decimals);
    PrintedWithinOneUnit(amount, decimals);
    var units, k := PrintedUnits(amount, decimals), Pow10(decimals);
    hide FormatBigInt, ParseDecimal, IsDecimal, PrintedUnits, Pow10;
    assert (units as real / k as real) * k as real == units as real;
  }

  const UNEXACT_AMOUNT: nat := 11529215046068469763

  lemma BitLenIs(n: nat, bits: nat)
    requires bits > 0 && NatPow2(bits - 1) <= n < NatPow2(bits)
    ensures BitLen(n) == bits
  {
    BitLenBounds(n);
    NatPow2IsPow2(bits - 1);
    NatPow2IsPow2(bits);
    Pow2Reflects(bits - 1, BitLen(n));
    Pow2Reflects(BitLen(n) - 1, bits);
  }

  lemma Square(n: nat, power: nat)
    requires NatPow2(n) == power
    ensures NatPow2(2 * n) == power * power
  {
    NatPow2Add(n, n);
  }

  lemma SomePowers()
    ensures NatPow2(60) == 0x1000_0000_0000_0000 && NatPow2(61) == 0x2000_0000_0000_0000
    ensures NatPow2(63) == 0x8000_0000_0000_0000 && NatPow2(64) == 0x1_0000_0000_0000_0000
  {
    Square(2, 4);
    Square(4, 16);
    Square(8, 0x100);
    Square(16, 0x1_0000);
    Square(32, 0x1_0000_0000);
    NatPow2Next(63);
    NatPow2Next(62);
    NatPow2Next(61);
    NatPow2Next(60);
  }

  lemma NatPow2Next(n: nat)
    ensures NatPow2(n + 1) == 2 * NatPow2(n)
  {
  }

  lemma UnexactPrecision()
    ensures Precision(UNEXACT_AMOUNT, 1) == 64
  {
    SomePowers();
    BitLenIs(UNEXACT_AMOUNT, 64);
    BitLenIs(10, 4);
  }

  lemma UnexactShift()
    ensures QuotientShift(UNEXACT_AMOUNT, 1) == 3
  {
    UnexactPrecision();
    SomePowers();
    NatPow2IsPow2(60);
    NatPow2IsPow2(61);
    assert Exact(UNEXACT_AMOUNT, 1) == 1152921504606846976.3;
    hide Pow2, NatPow2, Exact, Precision;
    ExponentUnique(Exact(UNEXACT_AMOUNT, 1), 60);
  }

  /** An amount of 64 bits whose text is not the amount: the last digit is lost. */
  lemma FormatNotAlwaysExact()
    ensures !PrintsExactly(UNEXACT_AMOUNT, 1)
    ensures IsDecimal(FormatBigInt(Some(UNEXACT_AMOUNT), 1).text)
    ensures ParseDecimal(FormatBigInt(Some(UNEXACT_AMOUNT), 1).text) != Exact(UNEXACT_AMOUNT, 1)
  {
    UnexactShift();
    assert NatPow2(3) == 8 && Pow10(1) == 10;
    hide NatPow2, Pow10, Exact, Precision, FormatBigInt, ParseDecimal, IsDecimal, QuotientShift;
    FormatExactIff(UNEXACT_AMOUNT, 1);
  }

  // ---- Order -------------------------------------------------------------

  lemma PrecisionMonotone(a: nat, b: nat, decimals: nat)
    requires a <= b
    ensures Precision(a, decimals) <= Precision(b, decimals)
  {
    BitLenMonotone(a, b);
  }

  /** Although the precision grows with the amount, a larger amount never has a smaller quotient. */
  lemma QuotientMonotone(a: nat, b: nat, decimals: nat)
    requires a <= b
    ensures Quotient(a, decimals) <= Quotient(b, decimals)
  {
    hide Round, InUnits, Exact, Precision, Scale, Distance, Representable;
    if a == 0 {
    } else if a < b {
      var p, q := Precision(a, decimals), Precision(b, decimals);
      var v, x, y := Quotient(a, decimals), Exact(a, decimals), Exact(b, decimals);
      InUnitsExact(a, decimals);
      InUnitsExact(b, decimals);
      BelowNextAmount(a, b, decimals);
      RoundBinade(p, x);
      RoundRepresentable(p, x);
      PrecisionMonotone(a, b, decimals);
      RepresentableWider(p, q, v);
      RoundExact(q, v);
      RoundMonotone(q, v, y);
    }
  }

  lemma BelowNextAmount(a: nat, b: nat, decimals: nat)
    requires a < b
    ensures Quotient(a, decimals) < Exact(b, decimals)
  {
    hide Round, InUnits, Exact, Precision, Scale, Quotient;
    QuotientClose(a, decimals);
    InUnitsExact(b, decimals);
    InUnitsOrder(Exact(b, decimals), Quotient(a, decimals), decimals);
  }

  /** So the printed numbers keep the order of the amounts. */
  lemma PrintedMonotone(a: nat, b: nat, decimals: nat)
    requires a <= b
    ensures PrintedUnits(a, decimals) <= PrintedUnits(b, decimals)
  {
    hide Quotient, InUnits;
    if decimals > 0 {
      QuotientMonotone(a, b, decimals);
      InUnitsOrder(Quotient(a, decimals), Quotient(b, decimals), decimals);
      RoundHalfEvenMonotone(InUnits(Quotient(a, decimals), decimals), InUnits(Quotient(b, decimals), decimals));
    }
  }

  // ---- Value in dollars ----------------------------------------------------

  function CalculateValueUSD(amount: Option<nat>, decimals: nat, priceUSD: real): Result<Float64>
  {
    if amount.None? then Err("amount is nil")
    else if priceUSD == 0.0 || amount.value == 0 then Ok(Finite(0.0))
    else if Pow10(decimals) == 0 then Err("divisor is zero, likely due to very large decimals value")
    else
      match ToFloat64(Quotient(amount.value, decimals))
      case Infinite(_) => Err("token value is Inf or NaN after conversion")
      case Finite(tokenValue) => Ok(Product(tokenValue, priceUSD))
  }

  function Dollars(tokens: real, price: real): real
  {
    tokens * price
  }

  /** float64 multiplication. */
  function Product(x: real, y: real): Float64
  {
    ToFloat64(Dollars(x, y))
  }

  /** The amount of tokens as a float64, before the price. */
  function TokenValue(amount: nat, decimals: nat): Float64
  {
    MagnitudeToFloat64(Quotient(amount, decimals))
  }

  /** A whole number that 64 bits can hold is reached by the quotient exactly when it is by the amount. */
  lemma QuotientReaches(amount: nat, decimals: nat, t: nat)
    requires t > 0 && Representable(64, t as real)
    ensures Quotient(amount, decimals) >= t as real <==> amount >= t * Pow10(decimals)
  {
    hide Quotient, Exact, Representable;
    var units := t * Pow10(decimals);
    ExactOfProduct(t, decimals);
    if amount >= units {
      WholeQuotient(t, decimals);
      QuotientMonotone(units, amount, decimals);
    } else {
      BelowNextAmount(amount, units, decimals);
    }
  }

  lemma ExactOfProduct(t: nat, d: nat)
    ensures Exact(t * Pow10(d), d) == t as real
  {
    var k := Pow10(d);
    hide Pow10;
    assert (t * k) as real == t as real * k as real;
  }

  lemma WholeQuotient(t: nat, decimals: nat)
    requires t > 0 && Representable(64, t as real)
    ensures Quotient(t * Pow10(decimals), decimals) == t as real
  {
    hide Representable, Exact, Precision, Pow10;
    var units := t * Pow10(decimals);
    var p := Precision(units, decimals);
    ExactOfProduct(t, decimals);
    RepresentableWider(64, p, t as real);
    RoundExact(p, t as real);
  }

  /** The threshold is a whole number of 54 bits. */
  lemma BitsBelowPower(e: nat) returns (t: nat)
    ensures t > 0 && t as real == Pow2(e + 54) - Pow2(e)
    ensures Representable(64, t as real)
  {
    hide Pow2, NatPow2, Scale;
    NatPow2IsPow2(54);
    NatPow2IsPow2(e);
    Pow2Add(54, e);
    var m := NatPow2(54) - 1;
    Pow2Monotone(0, 54);
    Pow2Monotone(54, 64);
    Pow2Zero();
    t := m * NatPow2(e);
    OneFactorLess(NatPow2(54), NatPow2(e));
    ScaledAmount(m, e);
    assert t as real == Dyadic(m, e);
  }

  lemma OneFactorLess(a: nat, b: nat)
    requires a > 1 && b > 0
    ensures (a - 1) * b > 0
    ensures ((a - 1) * b) as real == a as real * b as real - b as real
  {
    assert (a - 1) * b == a * b - b;
    ProductAsReal(a, b);
    assert (a - 1) * b >= b;
  }

  lemma ThresholdIsWhole() returns (t: nat)
    ensures t > 0 && OverflowThreshold() == t as real && Representable(64, t as real)
  {
    hide Pow2;
    t := BitsBelowPower(970);
  }

  /**
   An error is returned exactly for a nil amount, and for an amount at or above
   the float64 threshold, in units, whose price is not zero.
   */
  lemma ValueErrorIff(amount: Option<nat>, decimals: nat, priceUSD: real)
    ensures CalculateValueUSD(amount, decimals, priceUSD).Err?
       <==> amount.None? || (priceUSD != 0.0 && amount.value as real >= InUnits(OverflowThreshold(), decimals))
  {
    ErrorIsOverflow(amount, decimals, priceUSD);
    hide CalculateValueUSD, Pow2, OverflowThreshold, Quotient, MagnitudeToFloat64, Representable, Pow10;
    if amount.Some? {
      var t := ThresholdIsWhole();
      QuotientReaches(amount.value, decimals, t);
      OverflowIff(Quotient(amount.value, decimals));
      ProductAsReal(t, Pow10(decimals));
      PositiveProduct(t, Pow10(decimals));
    }
  }

  lemma PositiveProduct(a: nat, b: nat)
    requires a > 0 && b > 0
    ensures a * b > 0
  {
  }

  lemma ErrorIsOverflow(amount: Option<nat>, decimals: nat, priceUSD: real)
    ensures CalculateValueUSD(amount, decimals, priceUSD).Err?
       <==> amount.None? || (priceUSD != 0.0 && amount.value > 0 && TokenValue(amount.value, decimals).Infinite?)
  {
    hide Quotient, MagnitudeToFloat64;
  }

  function Magnitude(x: real): real
  {
    if x < 0.0 then -x else x
  }

  /**
   The check for infinity comes before the price is applied: the returned value is
   infinite exactly when the token value is finite and its product with the price is at
   or above the float64 threshold.
   */
  lemma ValueInfiniteIff(amount: nat, decimals: nat, priceUSD: real)
    ensures var value := CalculateValueUSD(Some(amount), decimals, priceUSD);
      value.Ok? && value.value.Infinite?
      <==> priceUSD != 0.0 && amount > 0 && TokenValue(amount, decimals).Finite?
           && Magnitude(Dollars(TokenValue(amount, decimals).value, priceUSD)) >= OverflowThreshold()
  {
    ValueIsProduct(amount, decimals, priceUSD);
    hide *;
    if amount > 0 && TokenValue(amount, decimals).Finite? {
      ProductInfiniteIff(TokenValue(amount, decimals).value, priceUSD);
    }
  }

  lemma ValueIsProduct(amount: nat, decimals: nat, priceUSD: real)
    ensures var value := CalculateValueUSD(Some(amount), decimals, priceUSD);
      if priceUSD == 0.0 || amount == 0 then value == Ok(Finite(0.0))
      else if TokenValue(amount, decimals).Infinite? then value.Err?
      else value == Ok(Product(TokenValue(amount, decimals).value, priceUSD))
  {
    hide Quotient, MagnitudeToFloat64, Product;
  }

  lemma ProductInfiniteIff(x: real, y: real)
    ensures Product(x, y).Infinite? <==> Magnitude(Dollars(x, y)) >= OverflowThreshold()
  {
    hide MagnitudeToFloat64, OverflowThreshold, Dollars;
    OverflowIff(Magnitude(Dollars(x, y)));
  }

  lemma PowerIsRepresentable(p: nat, e: int)
    requires p > 0
    ensures Representable(p, Pow2(e))
  {
    hide Pow2, Scale;
    Pow2Zero();
    Pow2Monotone(0, p);
    ScalePow2(0, e);
    var one: nat := 1;
    assert one as real < Pow2(p) && Pow2(e) == Dyadic(one, e);
  }

  /** A finite amount at a finite price with an infinite value: 2^255 units of a token without decimals, at 2^800. */
  lemma InfiniteValue()
    ensures CalculateValueUSD(Some(NatPow2(255)), 0, Pow2(800)) == Ok(Infinite(false))
  {
    PowerTokenValue(255);
    hide Pow2, NatPow2, Quotient, MagnitudeToFloat64, Product;
    PowerProduct(255, 800);
  }

  lemma PowerProduct(a: int, b: int)
    requires a + b >= 1024
    ensures Product(Pow2(a), Pow2(b)) == Infinite(false)
  {
    hide Pow2, MagnitudeToFloat64;
    Pow2Add(a, b);
    Pow2Monotone(1024, a + b);
    OverflowIff(Pow2(a + b));
    OverflowSign(Pow2(a + b));
    assert Dollars(Pow2(a), Pow2(b)) == Pow2(a + b);
    hide Dollars;
  }

  /** A power of two below 2^1023 is its own token value. */
  lemma PowerTokenValue(n: nat)
    requires n < 1023
    ensures TokenValue(NatPow2(n), 0) == Finite(Pow2(n))
  {
    hide Pow2, NatPow2, Representable, Precision, Exponent, Scale;
    NatPow2IsPow2(n);
    var p := Precision(NatPow2(n), 0);
    PowerIsRepresentable(p, n);
    PowerIsRepresentable(53, n);
    RoundExact(p, Pow2(n));
    RoundExact(53, Pow2(n));
    Pow2Next(n);
    Pow2Monotone(n, n + 1);
    ExponentUnique(Pow2(n), n);
    Pow2Monotone(n, 1024);
    ExactWhole(NatPow2(n));
  }

  lemma ExactWhole(n: nat)
    ensures Exact(n, 0) == n as real
  {
  }

  lemma Stretch(t: real, k: real)
    requires t >= 0.0 && k >= 1.0
    ensures t * k >= t
  {
    assert t * (k - 1.0) >= 0.0;
  }

  /** No 256-bit amount is refused, whatever its decimals. */
  lemma NoErrorBelow256Bits(amount: nat, decimals: nat, priceUSD: real)
    requires amount as real < Pow2(256)
    ensures CalculateValueUSD(Some(amount), decimals, priceUSD).Ok?
  {
    ValueErrorIff(Some(amount), decimals, priceUSD);
    hide Pow2, CalculateValueUSD;
    Pow2Monotone(256, 970);
    Pow2Next(970);
    Pow2Next(971);
    Pow2Monotone(972, 1024);
    assert OverflowThreshold() >= Pow2(970);
    Stretch(OverflowThreshold(), Pow10(decimals) as real);
  }

  lemma {:induction false} Pow10BelowPow2(d: nat)
    ensures Pow10(d) as real <= Pow2(4 * d)
  {
    if d > 0 {
      Pow10BelowPow2(d - 1);
      Pow2Next(4 * (d - 1));
      Pow2Next(4 * (d - 1) + 1);
      Pow2Next(4 * (d - 1) + 2);
      Pow2Next(4 * (d - 1) + 3);
    }
  }

  /** With decimals of one byte the quotient is far above the subnormal range. */
  lemma QuotientIsNormal(amount: nat, decimals: nat)
    requires amount > 0 && decimals <= 255
    ensures Quotient(amount, decimals) >= Pow2(-1020)
    ensures Exponent(Quotient(amount, decimals)) >= -1020
  {
    hide Pow2, Exponent, Round, Precision, Exact, InUnits;
    var x, p := Exact(amount, decimals), Precision(amount, decimals);
    InUnitsExact(amount, decimals);
    ExactFloor(amount, decimals);
    Pow2Monotone(-1020, -4 * decimals);
    Pow2Reflects(-1020 - 1, Exponent(x) + 1) by {
      Pow2Monotone(-1021, -1020);
    }
    if Exponent(x) < -1020 {
      Pow2Monotone(Exponent(x) + 1, -1020);
    }
    RoundBinade(p, x);
    Pow2Monotone(-1020, Exponent(x));
    var v := Quotient(amount, decimals);
    if Exponent(v) < -1020 {
      Pow2Monotone(Exponent(v) + 1, -1020);
    }
  }

  lemma ExactFloor(amount: nat, d: nat)
    requires amount > 0
    ensures Exact(amount, d) >= Pow2(-4 * d)
  {
    hide Pow2, Pow10, Exact;
    Pow10BelowPow2(d);
    Pow2Inverse(4 * d);
    Shrink(Pow10(d) as real, Pow2(4 * d), Pow2(-4 * d));
    InUnitsExact(amount, d);
    InUnitsOrder(Pow2(-4 * d), Exact(amount, d), d);
  }

  lemma Shrink(k: real, g: real, h: real)
    requires 0.0 < k <= g && h > 0.0 && g * h == 1.0
    ensures h * k <= 1.0
  {
    assert (g - k) * h >= 0.0;
  }

  /**
   Before the price is applied, two roundings have been made: the float64 is
   normal, or the call has failed, and its relative error is below
   2^-53 + 2^-64 + 2^-117.
   */
  lemma TokenValueClose(amount: nat, decimals: nat)
    requires amount > 0 && decimals <= 255
    ensures TokenValue(amount, decimals).Finite? ==>
      var t, x := TokenValue(amount, decimals).value, Exact(amount, decimals);
      && t >= Pow2(MIN_EXPONENT)
      && Distance(t, x) <= Scale(x, -53) + Scale(x, -64) + Scale(x, -117)
  {
    hide Pow2, Exponent, Round, Precision, Exact, InUnits, Scale;
    var x, p, v := Exact(amount, decimals), Precision(amount, decimals), Quotient(amount, decimals);
    InUnitsExact(amount, decimals);
    QuotientIsNormal(amount, decimals);
    RoundError(p, x);
    WiderIsCloser(x, p);
    RoundError(53, v);
    RoundBinade(53, v);
    Pow2Monotone(MIN_EXPONENT, Exponent(v));
    ScaleOrder(v, x + Scale(x, -64), -53);
    ScaleSum(x, Scale(x, -64), -53);
    ScaleAdd(x, -64, -53);
  }

  lemma WiderIsCloser(x: real, p: int)
    requires x >= 0.0 && p >= 64
    ensures Scale(x, -p) <= Scale(x, -64)
  {
    Pow2Monotone(-p, -64);
    hide Pow2;
    ProductsInOrder(x, Pow2(-p), Pow2(-64));
  }

  lemma ProductsInOrder(x: real, a: real, b: real)
    requires x >= 0.0 && a <= b
    ensures x * a <= x * b
  {
    assert x * (b - a) >= 0.0;
  }

  lemma ScaleSum(a: real, b: real, e: int)
    ensures Scale(a + b, e) == Scale(a, e) + Scale(b, e)
  {
    hide Pow2;
  }

  /** A larger amount is never worth less, and never less likely to be refused. */
  lemma ValueMonotone(a: nat, b: nat, decimals: nat, priceUSD: real)
    requires a <= b && priceUSD > 0.0
    ensures var less := CalculateValueUSD(Some(a), decimals, priceUSD);
      var more := CalculateValueUSD(Some(b), decimals, priceUSD);
      && (less.Err? ==> more.Err?)
      && (less.Ok? && more.Ok? ==> AtMost(less.value, more.value))
  {
    QuotientMonotone(a, b, decimals);
    MagnitudeMonotone(Quotient(a, decimals), Quotient(b, decimals));
    hide Quotient, MagnitudeToFloat64, Product;
    if TokenValue(b, decimals).Finite? && b > 0 {
      ProductMonotone(0.0, TokenValue(b, decimals).value, priceUSD);
      ProductMonotone(TokenValue(a, decimals).value, TokenValue(b, decimals).value, priceUSD);
    }
  }

  lemma ProductMonotone(s: real, t: real, y: real)
    requires 0.0 <= s <= t && y > 0.0
    ensures AtMost(Product(s, y), Product(t, y)) && AtMost(Finite(0.0), Product(t, y))
  {
    hide ToFloat64;
    TimesOrder(0.0, s, y);
    TimesOrder(s, t, y);
    ConversionMonotone(s * y, t * y);
  }

  lemma ConversionMonotone(u: real, w: real)
    requires 0.0 <= u <= w
    ensures AtMost(ToFloat64(u), ToFloat64(w)) && AtMost(Finite(0.0), ToFloat64(w))
  {
    hide MagnitudeToFloat64;
    MagnitudeMonotone(u, w);
    NonNegative(w);
    OverflowSign(w);
  }

  lemma OverflowSign(w: real)
    requires w >= 0.0
    ensures MagnitudeToFloat64(w).Infinite? ==> MagnitudeToFloat64(w) == Infinite(false)
  {
    hide Pow2, Scale, Exponent, Round;
  }
}
