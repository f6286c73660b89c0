/** How the canary derives an order price from the daily band, and why the edge accepts it. */
module CanaryPrice {
  import opened Contracts
  import opened Numerals
  import opened Decimals
  import opened Ticks

  /** The band fields the price is derived from, as the broker sent them. */
  datatype Band = Band(lowerLimit: string, basePrice: string)

  /** The canary's own reading of a positive integer knows no length limit. */
  predicate Positive(s: string) {
    s != "" && AllDigits(s) && NatValue(s) > 0
  }

  method ReadPositive(value: string) returns (parsed: nat, ok: bool)
    ensures ok <==> Positive(value)
    ensures ok ==> parsed == NatValue(value)
  {
    parsed, ok := 0, false;
    for i := 0 to |value|
      invariant AllDigits(value[..i])
    {
      if !IsDigit(value[i]) {
        return;
      }
    }
    assert value[..|value|] == value;
    if value == "" {
      return;
    }
    parsed := NatValue(value);
    ok := parsed > 0;
  }

  method RoundUpToTick(price: nat) returns (rounded: nat)
    requires price > 0
    ensures LeastOnTick(rounded, price)
  {
    var tick := TickSize(price);
    var quotient, remainder := price / tick, price % tick;
    RoundsUp(price);
    if remainder != 0 {
      quotient := quotient + 1;
    }
    rounded := quotient * tick;
  }

  /** 0.7 of the base price, rounded up to a whole number. */
  function SevenTenths(base: nat): (ceiling: nat)
    ensures 7 * base <= 10 * ceiling < 7 * base + 10
  {
    (7 * base + 9) / 10
  }

  /** Go's quotient and remainder turned into a quotient rounded up. */
  function CeilDiv(n: nat, d: nat): nat
    requires d > 0
  {
    n / d + if n % d != 0 then 1 else 0
  }

  lemma CeilDivIs(n: nat, d: nat, k: nat)
    requires d > 0
    ensures k == CeilDiv(n, d) <==> n <= k * d < n + d
  {
    var q := n / d;
    assert n == q * d + n % d;
    assert (q + 1) * d == q * d + d;
    if n <= k * d < n + d {
      if k * d == n {
        DivisionIsUnique(n, k, 0, d);
      } else {
        assert (k - 1) * d == k * d - d;
        DivisionIsUnique(n, k - 1, n - (k - 1) * d, d);
      }
    }
  }

  /** The multiple of ten ticks above the scaled price is the multiple of one tick above its ceiling. */
  lemma ScaledMultiple(scaled: nat, ceiling: nat, tick: nat)
    requires tick > 0 && scaled <= 10 * ceiling < scaled + 10
    ensures CeilDiv(scaled, tick * 10) == CeilDiv(ceiling, tick)
    ensures scaled <= 10 * (CeilDiv(ceiling, tick) * tick) < scaled + 10 * tick
  {
    var k := CeilDiv(ceiling, tick);
    CeilDivIs(ceiling, tick, k);
    assert k * (tick * 10) == 10 * (k * tick);
    CeilDivIs(scaled, tick * 10, k);
  }

  /** bandFloorKR keeps tenths exact: it is the least accepted price at or above 0.7 of the base,
      less than one tick above it. */
  method BandFloor(base: nat) returns (floor: nat)
    requires base > 0
    ensures LeastOnTick(floor, SevenTenths(base))
    ensures 7 * base <= 10 * floor < 7 * base + 10 * TickSize(SevenTenths(base))
  {
    var scaled := base * 7;
    var ceiling := scaled / 10;
    if scaled % 10 != 0 {
      ceiling := ceiling + 1;
    }
    var tick := TickSize(ceiling);
    var divisor := tick * 10;
    var multiples := scaled / divisor;
    ScaledMultiple(scaled, ceiling, tick);
    if scaled % divisor != 0 {
      multiples := multiples + 1;
    }
    floor := multiples * tick;
    assert ceiling == SevenTenths(base);
    hide LeastOnTick, TickSize;
    RoundsUp(ceiling);
  }

  /** The canary rounds up exactly as the edge adjusts a sell. */
  method RoundLikeSell(price: nat) returns (rounded: nat, adjusted: int)
    requires price > 0
    ensures rounded == adjusted
  {
    rounded := RoundUpToTick(price);
    var ok;
    adjusted, ok := AdjustTickSize(price, "sell");
    LeastIsUnique(rounded, adjusted, price);
  }

  /** The band floor, computed in tenths, is seven tenths of the base rounded up to a won and then
      to a tick. */
  method FloorLikeRounding(base: nat) returns (floor: nat, rounded: nat)
    requires base > 0
    ensures floor == rounded
  {
    floor := BandFloor(base);
    rounded := RoundUpToTick(SevenTenths(base));
    LeastIsUnique(floor, rounded, SevenTenths(base));
  }

  /** What the price is rounded up from: the lower limit, or else 0.7 of the base price. */
  function PriceFloor(band: Band): Option<nat> {
    if Positive(band.lowerLimit) then Some(NatValue(band.lowerLimit))
    else if Positive(band.basePrice) then Some(SevenTenths(NatValue(band.basePrice)))
    else None
  }

  method DerivePrice(band: Band) returns (price: nat, ok: bool)
    ensures ok <==> PriceFloor(band).Some?
    ensures ok ==> LeastOnTick(price, PriceFloor(band).value)
  {
    var lower, hasLower := ReadPositive(band.lowerLimit);
    if hasLower {
      price := RoundUpToTick(lower);
      return price, true;
    }
    var base, hasBase := ReadPositive(band.basePrice);
    if hasBase {
      price := BandFloor(base);
      return price, true;
    }
    return 0, false;
  }

  /** A readable lower limit decides the price alone; the base price counts only without one, and then
      the price is the least accepted one at or above seven tenths of it. */
  lemma LowerLimitComesFirst(band: Band, price: nat)
    requires PriceFloor(band).Some? && LeastOnTick(price, PriceFloor(band).value)
    ensures Positive(band.lowerLimit) ==>
              price >= NatValue(band.lowerLimit) && forall q | NatValue(band.lowerLimit) <= q < price :: !OnTick(q)
    ensures !Positive(band.lowerLimit) ==>
              && Positive(band.basePrice) && 10 * price >= 7 * NatValue(band.basePrice)
              && forall q | 7 * NatValue(band.basePrice) <= 10 * q && q < price :: !OnTick(q)
  {
  }

  /** Powers of ten are on a tick, so rounding up never adds more than one digit. */
  lemma Pow10OnTick(n: nat)
    ensures OnTick(Pow10(n))
  {
    assert Pow10(0) == 1 && Pow10(1) == 10 && Pow10(2) == 100 && Pow10(3) == 1_000;
    assert Pow10(4) == 10_000 && Pow10(5) == 100_000 && Pow10(6) == 1_000_000;
    if n >= 6 {
      Pow10Monotone(6, n);
      Pow10Sum(n - 3, 3);
      MultipleHasNoRemainder(Pow10(n - 3), 1_000);
    }
  }

  lemma FloorIsBounded(band: Band, digits: nat)
    requires PriceFloor(band).Some? && |band.lowerLimit| <= digits && |band.basePrice| <= digits
    ensures 0 < PriceFloor(band).value <= Pow10(digits)
  {
    if Positive(band.lowerLimit) {
      NatValueBound(band.lowerLimit);
      Pow10Monotone(|band.lowerLimit|, digits);
    } else {
      NatValueBound(band.basePrice);
      Pow10Monotone(|band.basePrice|, digits);
    }
  }

  /** The price the canary prints for any band is never a tick mismatch at the edge, and the edge
      accepts it exactly when it has at most 128 digits. */
  lemma DerivedPriceVerdict(band: Band, price: nat, side: string, stockCode: string, quantity: string)
    requires PriceFloor(band).Some? && LeastOnTick(price, PriceFloor(band).value)
    requires Sides(side) && |stockCode| == 6 && AllDigits(stockCode) && IsPositiveInteger(quantity)
    ensures KISMockVerdict(side, stockCode, quantity, Print(price))
            == if price < Pow10(MAX_LENGTH) then "" else INVALID_COMMAND
  {
    ReadPrinted(price);
    PrintedLength(price, MAX_LENGTH);
  }

  /** The price inquiry passes on fields of at most sixteen digits; any up to 127 would do. */
  lemma DerivedPriceIsAccepted(band: Band, price: nat, digits: nat, side: string, stockCode: string, quantity: string)
    requires PriceFloor(band).Some? && LeastOnTick(price, PriceFloor(band).value)
    requires |band.lowerLimit| <= digits && |band.basePrice| <= digits && digits < MAX_LENGTH
    requires Sides(side) && |stockCode| == 6 && AllDigits(stockCode) && IsPositiveInteger(quantity)
    ensures KISMockVerdict(side, stockCode, quantity, Print(price)) == ""
  {
    FloorIsBounded(band, digits);
    Pow10OnTick(digits);
    assert price <= Pow10(digits);
    Pow10Monotone(digits, MAX_LENGTH - 1);
    assert Pow10(MAX_LENGTH) == 10 * Pow10(MAX_LENGTH - 1);
    DerivedPriceVerdict(band, price, side, stockCode, quantity);
  }

  function Nines(n: nat): (s: string)
    ensures |s| == n && AllDigits(s)
  {
    if n == 0 then "" else Nines(n - 1) + "9"
  }

  lemma {:induction false} NinesValue(n: nat)
    ensures NatValue(Nines(n)) == Pow10(n) - 1
  {
    if n > 0 {
      NinesValue(n - 1);
      assert Nines(n)[..n - 1] == Nines(n - 1);
    }
  }

  lemma NineNinetyNine(n: nat)
    requires n >= 1_000_000 && OnTick(n)
    ensures !OnTick(n - 1)
  {
    assert TickSize(n) == 1_000 && TickSize(n - 1) == 1_000;
  }

  lemma LargePower(n: nat)
    requires n >= 6
    ensures Pow10(n) >= 1_000_000 && OnTick(Pow10(n)) && !OnTick(Pow10(n) - 1) && Pow10(n) < Pow10(n + 1)
  {
    assert Pow10(6) == 1_000_000;
    Pow10Monotone(6, n);
    Pow10OnTick(n);
    hide OnTick;
    NineNinetyNine(Pow10(n));
  }

  /** The bound on the fields is exact: a lower limit written with n nines gives a price one digit
      longer, so 128 of them pass the canary's own reading and are refused by the edge. */
  lemma NinesGrowADigit(n: nat, price: nat)
    requires n >= 6 && LeastOnTick(price, NatValue(Nines(n)))
    ensures Positive(Nines(n)) && |Print(price)| == n + 1 && IsPositiveInteger(Print(price)) == (n < MAX_LENGTH)
  {
    hide Pow10, Print, NatValue, Nines, OnTick;
    NinesValue(n);
    LargePower(n);
    assert price == Pow10(n);
    PrintedLength(price, n);
    PrintedLength(price, n + 1);
    ReadPrinted(price);
  }
}
