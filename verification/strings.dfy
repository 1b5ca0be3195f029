/** The string operations the service uses, on ASCII text, and decimal printing. */
module Strings {
  import opened Powers

  // ---- Case and affixes ------------------------------------------------

  function LowerChar(c: char): char
  {
    if 'A' <= c <= 'Z' then (c as int + 32) as char else c
  }

  function UpperChar(c: char): char
  {
    if 'a' <= c <= 'z' then (c as int - 32) as char else c
  }

  function ToLower(s: string): (r: string)
    ensures |r| == |s| && forall i :: 0 <= i < |s| ==> r[i] == LowerChar(s[i])
  {
    seq(|s|, i requires 0 <= i < |s| => LowerChar(s[i]))
  }

  lemma LowerTwice(s: string)
    ensures ToLower(ToLower(s)) == ToLower(s)
  {
  }

  function ToUpper(s: string): (r: string)
    ensures |r| == |s| && forall i :: 0 <= i < |s| ==> r[i] == UpperChar(s[i])
  {
    seq(|s|, i requires 0 <= i < |s| => UpperChar(s[i]))
  }

  predicate EqualFold(a: string, b: string)
  {
    ToLower(a) == ToLower(b)
  }

  /** Folding to upper case tells the same texts apart as folding to lower case. */
  lemma UpperFolds(a: string, b: string)
    ensures ToUpper(a) == ToUpper(b) <==> EqualFold(a, b)
  {
    assert forall c: char, d: char :: UpperChar(c) == UpperChar(d) <==> LowerChar(c) == LowerChar(d);
    if ToUpper(a) == ToUpper(b) {
      assert |a| == |b| && forall i :: 0 <= i < |a| ==> ToUpper(a)[i] == ToUpper(b)[i];
    }
    if EqualFold(a, b) {
      assert |a| == |b| && forall i :: 0 <= i < |a| ==> ToLower(a)[i] == ToLower(b)[i];
    }
  }

  predicate HasSuffix(s: string, suffix: string)
  {
    |suffix| <= |s| && s[|s| - |suffix|..] == suffix
  }

  function TrimSuffix(s: string, suffix: string): string
  {
    if HasSuffix(s, suffix) then s[..|s| - |suffix|] else s
  }

  /** The file extension: the final dot and what follows, or nothing. */
  function Ext(name: string): string
    decreases |name|
  {
    if name == "" || name[|name| - 1] == '/' then ""
    else if name[|name| - 1] == '.' then "."
    else
      var rest := Ext(name[..|name| - 1]);
      if rest == "" then "" else rest + [name[|name| - 1]]
  }

  function TrimRight(s: string, c: char): string
  {
    if s != "" && s[|s| - 1] == c then TrimRight(s[..|s| - 1], c) else s
  }

  /** The index of the first dot, or the length. */
  function DotIndex(s: string): (i: nat)
    ensures i <= |s|
    ensures forall j :: 0 <= j < i ==> s[j] != '.'
    ensures i < |s| ==> s[i] == '.'
  {
    if s == "" || s[0] == '.' then 0 else 1 + DotIndex(s[1..])
  }

  // ---- Decimal digits --------------------------------------------------

  predicate IsDigit(c: char)
  {
    '0' <= c <= '9'
  }

  predicate AllDigits(s: string)
  {
    forall i :: 0 <= i < |s| ==> IsDigit(s[i])
  }

  function DigitChar(d: nat): (c: char)
    requires d < 10
    ensures IsDigit(c) && c as int - '0' as int == d
  {
    ('0' as int + d) as char
  }

  /** The number a digit string spells. */
  function ReadDigits(s: string): nat
    requires AllDigits(s)
  {
    if s == "" then 0 else 10 * ReadDigits(s[..|s| - 1]) + (s[|s| - 1] as int - '0' as int)
  }

  function FormatUint(n: nat): (s: string)
    ensures s != "" && AllDigits(s) && ReadDigits(s) == n
  {
    if n < 10 then [DigitChar(n)]
    else
      var front := FormatUint(n / 10);
      var s := front + [DigitChar(n % 10)];
      assert s[..|s| - 1] == front;
      s
  }

  /** Printing in decimal is injective. */
  lemma FormatUintInjective(a: nat, b: nat)
    ensures FormatUint(a) == FormatUint(b) <==> a == b
  {
    if FormatUint(a) == FormatUint(b) {
      assert ReadDigits(FormatUint(a)) == a && ReadDigits(FormatUint(b)) == b;
    }
  }

  /** m printed with exactly d digits. */
  function PadDigits(m: nat, d: nat): (s: string)
    requires m < Pow10(d)
    ensures |s| == d && AllDigits(s) && ReadDigits(s) == m
  {
    if d == 0 then ""
    else
      var front := PadDigits(m / 10, d - 1);
      var s := front + [DigitChar(m % 10)];
      assert s[..|s| - 1] == front;
      s
  }

  lemma {:induction false} ReadDigitsConcat(a: string, b: string)
    requires AllDigits(a) && AllDigits(b)
    ensures AllDigits(a + b) && ReadDigits(a + b) == ReadDigits(a) * Pow10(|b|) + ReadDigits(b)
    decreases |b|
  {
    if b == "" {
      assert a + b == a;
    } else {
      var front := b[..|b| - 1];
      ReadDigitsConcat(a, front);
      assert (a + b)[..|a + b| - 1] == a + front;
      assert ReadDigits(a) * (10 * Pow10(|front|)) == 10 * (ReadDigits(a) * Pow10(|front|));
    }
  }

  /** Removing trailing zeros divides by the power of ten they stand for. */
  lemma {:induction false} TrimZeros(s: string)
    requires AllDigits(s)
    ensures var t := TrimRight(s, '0');
      |t| <= |s| && s[..|t|] == t && AllDigits(t) && ReadDigits(s) == ReadDigits(t) * Pow10(|s| - |t|)
    decreases |s|
  {
    if s != "" && s[|s| - 1] == '0' {
      var front := s[..|s| - 1];
      TrimZeros(front);
      var t := TrimRight(front, '0');
      assert s[..|t|] == front[..|t|];
      assert ReadDigits(t) * (10 * Pow10(|front| - |t|)) == 10 * (ReadDigits(t) * Pow10(|front| - |t|));
    } else {
      assert s[..|s|] == s;
    }
  }

  /** Trimming stops at the first character to keep. */
  lemma {:induction false} TrimRightAppend(front: string, back: string, c: char)
    requires front != "" && front[|front| - 1] != c
    ensures TrimRight(front + back, c) == front + TrimRight(back, c)
    decreases |back|
  {
    if back == "" {
      assert front + back == front;
    } else if back[|back| - 1] == c {
      assert (front + back)[..|front + back| - 1] == front + back[..|back| - 1];
      TrimRightAppend(front, back[..|back| - 1], c);
    }
  }

  // ---- Decimal fractions -----------------------------------------------

  function WholePart(s: string): string
  {
    s[..DotIndex(s)]
  }

  function FractionPart(s: string): string
  {
    if DotIndex(s) == |s| then "" else s[DotIndex(s) + 1..]
  }

  /** Digits, or digits, a dot and more digits. */
  predicate IsDecimal(s: string)
  {
    && WholePart(s) != "" && AllDigits(WholePart(s)) && AllDigits(FractionPart(s))
    && (DotIndex(s) < |s| ==> FractionPart(s) != "")
  }

  /** The number a decimal fraction denotes. */
  function ParseDecimal(s: string): real
    requires IsDecimal(s)
  {
    assert AllDigits(WholePart(s) + FractionPart(s));
    ReadDigits(WholePart(s) + FractionPart(s)) as real / Pow10(|FractionPart(s)|) as real
  }

  lemma DotIndexOf(whole: string, rest: string)
    requires AllDigits(whole)
    ensures DotIndex(whole) == |whole|
    ensures DotIndex(whole + "." + rest) == |whole|
  {
    var s := whole + "." + rest;
    assert s[|whole|] == '.';
    assert forall i :: 0 <= i < |whole| ==> whole[i] != '.' && s[i] == whole[i];
  }
}
