/** Exact parsing and comparison of the decimal strings that carry quantities and prices. */
module Decimals {
  import opened Contracts
  import opened Numerals

  const MAX_LENGTH := 128

  // ----- positive integers -----

  predicate IsPositiveInteger(s: string) {
    0 < |s| <= MAX_LENGTH && AllDigits(s) && NatValue(s) > 0
  }

  method PositiveInteger(value: string) returns (parsed: nat, ok: bool)
    ensures ok <==> IsPositiveInteger(value)
    ensures ok <==> 0 < |value| <= 128 && AllDigits(value) && NatValue(value) > 0
    ensures ok ==> parsed == NatValue(value)
  {
    parsed, ok := 0, false;
    if value == "" || |value| > MAX_LENGTH {
      return;
    }
    for i := 0 to |value|
      invariant AllDigits(value[..i])
    {
      if !IsDigit(value[i]) {
        return;
      }
    }
    assert value[..|value|] == value;
    parsed := NatValue(value);
    ok := parsed > 0;
  }

  /** big.Int's SetString in base 10: an optional sign and at least one digit. */
  function BigInt(s: string): Option<int> {
    if s == "" then None
    else if s[0] == '-' || s[0] == '+' then
      if |s| > 1 && AllDigits(s[1..]) then
        Some(if s[0] == '-' then -(NatValue(s[1..]) as int) else NatValue(s[1..]) as int)
      else None
    else if AllDigits(s) then Some(NatValue(s)) else None
  }

  predicate SamePositiveInteger(left: string, right: string) {
    BigInt(left).Some? && BigInt(left) == BigInt(right) && BigInt(left).value > 0
  }

  /** A plus sign does not count, and nothing negative is a positive integer. */
  lemma SignedNumerals(s: string, t: string)
    requires AllDigits(s) && AllDigits(t) && s != "" && t != ""
    ensures SamePositiveInteger(s, t) <==> NatValue(s) == NatValue(t) > 0
    ensures SamePositiveInteger("+" + s, t) <==> NatValue(s) == NatValue(t) > 0
    ensures !SamePositiveInteger("-" + s, t) && !SamePositiveInteger("-" + s, "-" + t)
  {
    assert IsDigit(s[0]) && IsDigit(t[0]);
    assert ("+" + s)[1..] == s && ("-" + s)[1..] == s && ("-" + t)[1..] == t;
  }

  // ----- positive decimals -----

  /** The position of the first dot, or the length when there is none. */
  function Dot(s: string): (d: nat)
    ensures d <= |s|
    ensures d < |s| ==> s[d] == '.'
    ensures forall i | 0 <= i < d :: s[i] != '.'
  {
    if s == "" || s[0] == '.' then 0 else 1 + Dot(s[1..])
  }

  function IntPart(s: string): string {
    s[..Dot(s)]
  }

  function FracPart(s: string): string {
    if Dot(s) < |s| then s[Dot(s) + 1..] else ""
  }

  /** Digits, optionally a dot and more digits; never a bare dot at either end. */
  predicate IsDecimal(s: string) {
    && |s| <= MAX_LENGTH
    && AllDigits(IntPart(s)) && IntPart(s) != ""
    && AllDigits(FracPart(s)) && (Dot(s) < |s| ==> FracPart(s) != "")
  }

  /** An exact fraction, as big.Rat keeps it (up to lowest terms). */
  datatype Rat = Rat(num: nat, den: nat)

  function RatOf(s: string): (r: Rat)
    requires IsDecimal(s)
    ensures r.den > 0
  {
    Rat(NatValue(IntPart(s) + FracPart(s)), Pow10(|FracPart(s)|))
  }

  predicate IsPositiveDecimal(s: string) {
    IsDecimal(s) && RatOf(s).num > 0
  }

  method PositiveDecimal(value: string) returns (parsed: Rat, ok: bool)
    ensures ok <==> IsPositiveDecimal(value)
    ensures ok ==> parsed == RatOf(value)
  {
    parsed, ok := Rat(0, 1), false;
    if value == "" || |value| > MAX_LENGTH {
      return;
    }
    var dot := -1;
    for index := 0 to |value|
      invariant -1 <= dot < index || dot == -1
      invariant forall i | 0 <= i < index :: IsDigit(value[i]) || i == dot
      invariant dot >= 0 ==> value[dot] == '.' && dot == Dot(value)
      invariant dot == -1 ==> index <= Dot(value)
    {
      if IsDigit(value[index]) {
      } else if value[index] == '.' && dot == -1 {
        dot := index;
      } else {
        assert !IsDecimal(value) by {
          if dot >= 0 {
            assert FracPart(value)[index - dot - 1] == value[index];
          } else if index < Dot(value) {
            assert IntPart(value)[index] == value[index];
          }
        }
        return;
      }
    }
    if dot == 0 || dot == |value| - 1 {
      return;
    }
    parsed := RatOf(value);
    ok := parsed.num > 0;
  }

  /** big.Rat's Mul and Cmp, by cross multiplication. */
  function Mul(a: Rat, b: Rat): Rat {
    Rat(a.num * b.num, a.den * b.den)
  }

  predicate AtMost(a: Rat, b: Rat) {
    a.num * b.den <= b.num * a.den
  }

  predicate Same(a: Rat, b: Rat) {
    a.num * b.den == b.num * a.den
  }

  predicate SamePositiveDecimal(left: string, right: string) {
    IsPositiveDecimal(left) && IsPositiveDecimal(right) && Same(RatOf(left), RatOf(right))
  }

  // ----- what equal decimals look like -----

  function StripLeft(s: string): string {
    if s != "" && s[0] == '0' then StripLeft(s[1..]) else s
  }

  function StripRight(s: string): string {
    if s != "" && s[|s| - 1] == '0' then StripRight(s[..|s| - 1]) else s
  }

  /** A decimal without its leading integer zeros and trailing fractional zeros. */
  function Canonical(s: string): (string, string) {
    (StripLeft(IntPart(s)), StripRight(FracPart(s)))
  }

  lemma LeadingDigit(s: string)
    requires AllDigits(s) && s != ""
    ensures NatValue(s) == DigitValue(s[0]) * Pow10(|s| - 1) + NatValue(s[1..])
  {
    var head, tail := [s[0]], s[1..];
    assert head + tail == s && |tail| == |s| - 1;
    OneDigit(s[0]);
    NatValueConcat(head, tail);
  }

  lemma MulAtLeast(d: nat, p: nat)
    requires d >= 1
    ensures d * p >= p
  {
    assert (d - 1) * p >= 0;
  }

  lemma {:induction false} StripLeftValue(s: string)
    requires AllDigits(s)
    ensures AllDigits(StripLeft(s)) && NatValue(StripLeft(s)) == NatValue(s)
    ensures StripLeft(s) == "" || NatValue(s) >= Pow10(|StripLeft(s)| - 1)
  {
    if s != "" {
      LeadingDigit(s);
      if s[0] == '0' {
        StripLeftValue(s[1..]);
      } else {
        MulAtLeast(DigitValue(s[0]), Pow10(|s| - 1));
      }
    }
  }

  lemma IntPartsAgree(a: string, b: string)
    requires AllDigits(a) && AllDigits(b)
    ensures NatValue(a) == NatValue(b) <==> StripLeft(a) == StripLeft(b)
  {
    StripLeftValue(a);
    StripLeftValue(b);
    var x, y := StripLeft(a), StripLeft(b);
    if NatValue(a) == NatValue(b) {
      NatValueBound(x);
      NatValueBound(y);
      if |x| < |y| {
        Pow10Monotone(|x|, |y| - 1);
      } else if |y| < |x| {
        Pow10Monotone(|y|, |x| - 1);
      }
      NatValueInjective(x, y);
    }
  }

  lemma {:induction false} StripRightZeros(s: string, n: nat)
    ensures StripRight(s + Zeros(n)) == StripRight(s)
  {
    if n == 0 {
      assert s + Zeros(0) == s;
    } else {
      StripRightZeros(s, n - 1);
      var t := s + Zeros(n);
      assert t[..|t| - 1] == s + Zeros(n - 1);
    }
  }

  lemma {:induction false} StripRightPads(s: string)
    ensures |StripRight(s)| <= |s| && s == StripRight(s) + Zeros(|s| - |StripRight(s)|)
  {
    if s != "" && s[|s| - 1] == '0' {
      StripRightPads(s[..|s| - 1]);
    } else {
      assert s == s + Zeros(0);
    }
  }

  lemma PaddedValue(s: string, n: nat)
    requires AllDigits(s)
    ensures AllDigits(s + Zeros(n)) && NatValue(s + Zeros(n)) == NatValue(s) * Pow10(n)
  {
    NatValueConcat(s, Zeros(n));
    ZerosValue(n);
  }

  lemma FracPartsAgree(f: string, g: string)
    requires AllDigits(f) && AllDigits(g)
    ensures NatValue(f) * Pow10(|g|) == NatValue(g) * Pow10(|f|) <==> StripRight(f) == StripRight(g)
  {
    var x, y := f + Zeros(|g|), g + Zeros(|f|);
    PaddedValue(f, |g|);
    PaddedValue(g, |f|);
    StripRightZeros(f, |g|);
    StripRightZeros(g, |f|);
    if NatValue(x) == NatValue(y) {
      NatValueInjective(x, y);
    }
    if StripRight(f) == StripRight(g) {
      StripRightPads(x);
      StripRightPads(y);
    }
  }

  lemma MulBelow(f: nat, p: nat, q: nat)
    requires f < p && q > 0
    ensures 0 <= f * q < p * q
  {
    MulAtLeast(p - f, q);
    assert (p - f) * q == p * q - f * q;
    assert f * q >= 0;
  }

  /** The integer and the fractional digits of a fraction are compared independently. */
  lemma SplitEquation(i1: nat, f1: nat, p1: nat, i2: nat, f2: nat, p2: nat)
    requires f1 < p1 && f2 < p2
    ensures (i1 * p1 + f1) * p2 == (i2 * p2 + f2) * p1 <==> i1 == i2 && f1 * p2 == f2 * p1
  {
    var p, x, y := p1 * p2, f1 * p2, f2 * p1;
    assert (i1 * p1 + f1) * p2 == i1 * p + x by { Distribute(i1, p1, f1, p2); }
    assert (i2 * p2 + f2) * p1 == i2 * p + y by { Distribute(i2, p2, f2, p1); }
    MulBelow(f1, p1, p2);
    MulBelow(f2, p2, p1);
    Digits(i1, x, i2, y, p);
  }

  lemma Distribute(i: nat, p: nat, f: nat, q: nat)
    ensures (i * p + f) * q == i * (p * q) + f * q
  {
    assert (i * p) * q == i * (p * q);
  }

  lemma Digits(i: nat, x: nat, j: nat, y: nat, p: nat)
    requires x < p && y < p
    ensures i * p + x == j * p + y <==> i == j && x == y
  {
    if i < j {
      MulAtLeast(j - i, p);
      assert (j - i) * p == j * p - i * p;
    } else if j < i {
      MulAtLeast(i - j, p);
      assert (i - j) * p == i * p - j * p;
    }
  }

  /** The comparison sees exactly the canonical form: it is blind to leading zeros and to
      trailing fractional zeros, and to nothing else. */
  lemma SameIffCanonical(a: string, b: string)
    requires IsPositiveDecimal(a) && IsPositiveDecimal(b)
    ensures SamePositiveDecimal(a, b) <==> Canonical(a) == Canonical(b)
  {
    var i1, f1, i2, f2 := IntPart(a), FracPart(a), IntPart(b), FracPart(b);
    NatValueConcat(i1, f1);
    NatValueConcat(i2, f2);
    NatValueBound(f1);
    NatValueBound(f2);
    SplitEquation(NatValue(i1), NatValue(f1), Pow10(|f1|), NatValue(i2), NatValue(f2), Pow10(|f2|));
    IntPartsAgree(i1, i2);
    FracPartsAgree(f1, f2);
  }

  lemma SameDecimalTransitive(a: string, b: string, c: string)
    requires SamePositiveDecimal(a, b) && SamePositiveDecimal(b, c)
    ensures SamePositiveDecimal(a, c) && SamePositiveDecimal(c, a)
  {
    SameIffCanonical(a, b);
    SameIffCanonical(b, c);
    SameIffCanonical(a, c);
    SameIffCanonical(c, a);
  }
}
