/** The order caps: each verdict is exactly a comparison of quantity times price with the cap. */
module Caps {
  import opened Contracts
  import opened Numerals
  import opened Decimals

  const ORDER_LIMIT_EXCEEDED := "order_limit_exceeded"
  const MAX_ORDER_QUANTITY := 100
  const MAX_NOTIONAL_KRW := 1_000_000
  const MAX_NOTIONAL_USD := 1_000
  const MAX_ALPACA_NOTIONAL_USD := 10

  /** The number a decimal string denotes. */
  function Value(s: string): (v: real)
    requires IsDecimal(s)
  {
    Quotient(RatOf(s))
  }

  function Quotient(r: Rat): real
    requires r.den > 0
  {
    r.num as real / r.den as real
  }

  predicate Exceeds(quantity: real, price: real, cap: nat) {
    quantity * price > cap as real
  }

  /** Comparing a product of fractions by cross multiplication compares the numbers. */
  lemma ProductAtMost(a: Rat, b: Rat, cap: nat)
    requires a.den > 0 && b.den > 0
    ensures Mul(a, b).den > 0
    ensures AtMost(Mul(a, b), Rat(cap, 1)) <==> !Exceeds(Quotient(a), Quotient(b), cap)
  {
    var x, y := Quotient(a), Quotient(b);
    var ad, bd := a.den as real, b.den as real;
    assert x * ad == a.num as real && y * bd == b.num as real;
    assert a.den * b.den > 0 by { MulAtLeast(a.den, b.den); }
    hide Quotient;
    assert Mul(a, b).den as real == ad * bd;
    assert Mul(a, b).num as real == x * ad * (y * bd);
    Regroup(x, ad, y, bd);
    Scale(x * y, cap as real, ad * bd);
    assert (cap * Mul(a, b).den) as real == cap as real * (ad * bd);
  }

  lemma Regroup(x: real, a: real, y: real, b: real)
    ensures (x * a) * (y * b) == x * y * (a * b)
  {
  }

  lemma Scale(x: real, y: real, d: real)
    requires d > 0.0
    ensures x * d <= y * d <==> x <= y
  {
  }

  function ShareVerdict(quantity: string, price: string): string {
    if !IsPositiveInteger(quantity) || !IsPositiveInteger(price) then INVALID_COMMAND
    else if NatValue(quantity) > MAX_ORDER_QUANTITY || NatValue(price) * NatValue(quantity) > MAX_NOTIONAL_KRW
    then ORDER_LIMIT_EXCEEDED
    else ""
  }

  function USShareVerdict(quantity: string, price: string): string {
    if !IsPositiveInteger(quantity) || !IsPositiveDecimal(price) then INVALID_COMMAND
    else if NatValue(quantity) > MAX_ORDER_QUANTITY || Exceeds(NatValue(quantity) as real, Value(price),
        MAX_NOTIONAL_USD)
    then ORDER_LIMIT_EXCEEDED
    else ""
  }

  function AlpacaVerdict(quantity: string, price: string): string {
    if !IsPositiveDecimal(quantity) || !IsPositiveDecimal(price) then INVALID_COMMAND
    else if Exceeds(Value(quantity), Value(price), MAX_ALPACA_NOTIONAL_USD) then ORDER_LIMIT_EXCEEDED
    else ""
  }

  /** ValidateOrderCaps, by account scope. */
  function CapVerdict(scope: Scope, quantity: string, price: string): string {
    match scope
    case KISMock => ShareVerdict(quantity, price)
    case KISMockUS => USShareVerdict(quantity, price)
    case AlpacaPaperCrypto => AlpacaVerdict(quantity, price)
    case _ => INVALID_COMMAND
  }

  method ShareCaps(quantity: string, price: string) returns (error: string)
    ensures error == ShareVerdict(quantity, price)
  {
    var shares, validQuantity := PositiveInteger(quantity);
    var each, validPrice := PositiveInteger(price);
    if !validQuantity || !validPrice {
      return INVALID_COMMAND;
    }
    if shares > MAX_ORDER_QUANTITY {
      return ORDER_LIMIT_EXCEEDED;
    }
    var notional := each * shares;
    if notional > MAX_NOTIONAL_KRW {
      return ORDER_LIMIT_EXCEEDED;
    }
    return "";
  }

  method USShareCaps(quantity: string, price: string) returns (error: string)
    ensures error == USShareVerdict(quantity, price)
  {
    var shares, validQuantity := PositiveInteger(quantity);
    var each, validPrice := PositiveDecimal(price);
    if !validQuantity || !validPrice {
      return INVALID_COMMAND;
    }
    if shares > MAX_ORDER_QUANTITY {
      return ORDER_LIMIT_EXCEEDED;
    }
    var notional := Mul(Rat(shares, 1), each);
    assert Quotient(Rat(shares, 1)) == shares as real;
    hide IsPositiveDecimal, IsPositiveInteger, Quotient, Mul, AtMost, Exceeds;
    ProductAtMost(Rat(shares, 1), each, MAX_NOTIONAL_USD);
    if !AtMost(notional, Rat(MAX_NOTIONAL_USD, 1)) {
      return ORDER_LIMIT_EXCEEDED;
    }
    return "";
  }

  method AlpacaCaps(quantity: string, price: string) returns (error: string)
    ensures error == AlpacaVerdict(quantity, price)
  {
    var size, validQuantity := PositiveDecimal(quantity);
    var each, validPrice := PositiveDecimal(price);
    if !validQuantity || !validPrice {
      return INVALID_COMMAND;
    }
    var notional := Mul(size, each);
    hide IsPositiveDecimal, Quotient, Mul, AtMost, Exceeds;
    ProductAtMost(size, each, MAX_ALPACA_NOTIONAL_USD);
    if !AtMost(notional, Rat(MAX_ALPACA_NOTIONAL_USD, 1)) {
      return ORDER_LIMIT_EXCEEDED;
    }
    return "";
  }

  method ValidateOrderCaps(scope: Scope, quantity: string, price: string) returns (error: string)
    ensures error == CapVerdict(scope, quantity, price)
  {
    match scope {
      case KISMock => error := ShareCaps(quantity, price);
      case KISMockUS => error := USShareCaps(quantity, price);
      case AlpacaPaperCrypto => error := AlpacaCaps(quantity, price);
      case _ => error := INVALID_COMMAND;
    }
  }

  /** A decimal denotes its whole part and, behind the dot, as many tenths, hundredths and so on. */
  lemma DecimalDenotes(whole: nat, fraction: string)
    requires AllDigits(fraction) && fraction != "" && IsDecimal(Print(whole) + "." + fraction)
    ensures Value(Print(whole) + "." + fraction)
         == whole as real + NatValue(fraction) as real / Pow10(|fraction|) as real
  {
    hide IsDecimal, Print, NatValue, Pow10, IntPart, FracPart, Dot, AllDigits;
    PartsOf(Print(whole), fraction);
    ReadPrinted(whole);
    NatValueConcat(Print(whole), fraction);
    Divided(whole, Pow10(|fraction|), NatValue(fraction));
  }

  lemma PartsOf(whole: string, fraction: string)
    requires AllDigits(whole)
    ensures IntPart(whole + "." + fraction) == whole && FracPart(whole + "." + fraction) == fraction
  {
    var s := whole + "." + fraction;
    assert forall i | 0 <= i < |whole| :: s[i] == whole[i] && IsDigit(whole[i]);
    DotAt(s, |whole|);
    assert s[..|whole|] == whole && s[|whole| + 1..] == fraction;
  }

  lemma Divided(whole: nat, scale: nat, rest: nat)
    requires scale > 0
    ensures (whole * scale + rest) as real / scale as real == whole as real + rest as real / scale as real
  {
    var d := scale as real;
    assert (whole * scale + rest) as real == whole as real * d + rest as real;
    assert (whole as real * d) / d == whole as real;
  }

  lemma {:induction false} DotAt(s: string, k: nat)
    requires k < |s| && s[k] == '.' && forall i | 0 <= i < k :: s[i] != '.'
    ensures Dot(s) == k
  {
    if k > 0 {
      DotAt(s[1..], k - 1);
    }
  }

  lemma PrintedIsPositive(n: nat)
    requires 0 < n < Pow10(MAX_LENGTH)
    ensures IsPositiveInteger(Print(n)) && NatValue(Print(n)) == n
  {
    hide Pow10, Print, NatValue;
    PrintedLength(n, MAX_LENGTH);
    ReadPrinted(n);
  }

  /** The caps in numbers: a domestic order passes up to 100 shares and 1,000,000 won, an overseas one up
      to 100 shares and 1,000 dollars, a crypto one up to 10 dollars; one more of either is refused. */
  lemma CapsInNumbers(q: nat, p: nat, quantity: string, price: string)
    requires 0 < q < Pow10(MAX_LENGTH) && 0 < p < Pow10(MAX_LENGTH)
    requires IsPositiveDecimal(quantity) && IsPositiveDecimal(price)
    ensures CapVerdict(KISMock, Print(q), Print(p))
         == if q <= 100 && q * p <= 1_000_000 then "" else "order_limit_exceeded"
    ensures CapVerdict(KISMockUS, Print(q), price)
         == if q <= 100 && q as real * Value(price) <= 1000.0 then "" else "order_limit_exceeded"
    ensures CapVerdict(AlpacaPaperCrypto, quantity, price)
         == if Value(quantity) * Value(price) <= 10.0 then "" else "order_limit_exceeded"
  {
    hide Pow10, Print, NatValue, IsPositiveInteger, IsPositiveDecimal, Value;
    PrintedIsPositive(q);
    PrintedIsPositive(p);
  }

  /** Equal decimals, in the sense of the order comparison, denote equal numbers. */
  lemma SameIsEqual(a: string, b: string)
    requires IsPositiveDecimal(a) && IsPositiveDecimal(b)
    ensures SamePositiveDecimal(a, b) <==> Value(a) == Value(b)
  {
    hide RatOf, Quotient, IsDecimal, Same;
    SameQuotient(RatOf(a), RatOf(b));
  }

  lemma SameQuotient(r: Rat, s: Rat)
    requires r.den > 0 && s.den > 0
    ensures Same(r, s) <==> Quotient(r) == Quotient(s)
  {
    var x, y := r.den as real, s.den as real;
    var n, m := r.num as real, s.num as real;
    var v, w := Quotient(r), Quotient(s);
    assert v * x == n && w * y == m;
    var p, q := r.num * s.den, s.num * r.den;
    assert Same(r, s) <==> p == q;
    assert p as real == n * y && q as real == m * x;
    assert p == q <==> p as real == q as real;
    hide *;
    CrossMultiply(v, x, w, y);
  }

  lemma CrossMultiply(v: real, x: real, w: real, y: real)
    requires x > 0.0 && y > 0.0
    ensures (v * x) * y == (w * y) * x <==> v == w
  {
    assert (v * x) * y == v * (x * y) && (w * y) * x == w * (x * y);
    assert x * y > 0.0;
    if v * (x * y) == w * (x * y) {
      assert v == w;
    }
  }

  lemma SameIntegerIsEqual(a: string, b: string)
    requires IsPositiveInteger(a) && IsPositiveInteger(b)
    ensures SamePositiveInteger(a, b) <==> NatValue(a) == NatValue(b)
  {
    assert BigInt(a) == Some(NatValue(a)) && BigInt(b) == Some(NatValue(b));
  }

  predicate SameInteger(a: string, b: string) {
    IsPositiveInteger(a) && IsPositiveInteger(b) && SamePositiveInteger(a, b)
  }

  /** The two orders have the numbers of one order, in the form their scope reads. */
  predicate SameNumbers(scope: Scope, q: string, p: string, q2: string, p2: string) {
    match scope
    case KISMock => SameInteger(q, q2) && SameInteger(p, p2)
    case KISMockUS => SameInteger(q, q2) && SamePositiveDecimal(p, p2)
    case AlpacaPaperCrypto => SamePositiveDecimal(q, q2) && SamePositiveDecimal(p, p2)
    case _ => true
  }

  /** Rewriting a price or a quantity without changing its value never changes a cap verdict. */
  lemma VerdictDependsOnValue(scope: Scope, q: string, p: string, q2: string, p2: string)
    requires SameNumbers(scope, q, p, q2, p2)
    ensures CapVerdict(scope, q, p) == CapVerdict(scope, q2, p2)
  {
    hide IsPositiveDecimal, IsPositiveInteger, Value, Exceeds, SamePositiveInteger, RatOf, Same, NatValue;
    match scope {
      case KISMock =>
        SameIntegerIsEqual(q, q2);
        SameIntegerIsEqual(p, p2);
      case KISMockUS =>
        SameIntegerIsEqual(q, q2);
        SameIsEqual(p, p2);
      case AlpacaPaperCrypto =>
        SameIsEqual(q, q2);
        SameIsEqual(p, p2);
      case _ =>
    }
  }
}
