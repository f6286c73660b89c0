/** The KRX tick table, the edge's tick check and the structural check of a kis_mock command. */
module Ticks {
  import opened Contracts
  import opened Numerals
  import opened Decimals

  const TICK_MISMATCH := "tick_mismatch"

  function TickSize(price: int): (tick: nat)
    ensures tick > 0
  {
    if price < 2_000 then 1
    else if price < 5_000 then 5
    else if price < 20_000 then 10
    else if price < 50_000 then 50
    else if price < 200_000 then 100
    else if price < 500_000 then 500
    else 1_000
  }

  /** The prices the exchange accepts: whole ticks of their own tier. */
  predicate OnTick(price: nat) {
    price > 0 && price % TickSize(price) == 0
  }

  ghost predicate LeastOnTick(price: nat, floor: nat) {
    OnTick(price) && floor <= price && forall q | floor <= q < price :: !OnTick(q)
  }

  ghost predicate GreatestOnTick(price: nat, ceiling: nat) {
    OnTick(price) && price <= ceiling && forall q | price < q <= ceiling :: !OnTick(q)
  }

  lemma LeastIsUnique(a: nat, b: nat, floor: nat)
    requires LeastOnTick(a, floor) && LeastOnTick(b, floor)
    ensures a == b
  {
  }

  /** The tiers by their first prices: a won more than one of them is accepted in the lowest tier alone,
      and the price itself is the first at which its tier's tick counts. */
  lemma TierTable(price: nat)
    requires price > 0
    ensures price < 2_000 ==> OnTick(price)
    ensures 2_000 <= price < 5_000 ==> (OnTick(price) <==> price % 5 == 0)
    ensures 5_000 <= price < 20_000 ==> (OnTick(price) <==> price % 10 == 0)
    ensures 20_000 <= price < 50_000 ==> (OnTick(price) <==> price % 50 == 0)
    ensures 50_000 <= price < 200_000 ==> (OnTick(price) <==> price % 100 == 0)
    ensures 200_000 <= price < 500_000 ==> (OnTick(price) <==> price % 500 == 0)
    ensures 500_000 <= price ==> (OnTick(price) <==> price % 1_000 == 0)
  {
  }

  // ----- rounding within and across tiers -----

  /** Quotient and remainder give the multiples next to a price. */
  lemma Neighbours(price: nat, tick: nat)
    requires tick > 0
    ensures price == price / tick * tick + price % tick
    ensures price / tick * tick % tick == 0 && (price / tick + 1) * tick % tick == 0
    ensures forall q | price / tick * tick < q < (price / tick + 1) * tick :: q % tick != 0
  {
    var k := price / tick;
    MultipleHasNoRemainder(k, tick);
    MultipleHasNoRemainder(k + 1, tick);
    assert (k + 1) * tick == k * tick + tick;
    forall q | k * tick < q < (k + 1) * tick ensures q % tick != 0 {
      BetweenMultiples(q, k, tick);
    }
  }

  lemma MultipleHasNoRemainder(k: nat, tick: nat)
    requires tick > 0
    ensures k * tick % tick == 0
  {
    DivisionIsUnique(k * tick, k, 0, tick);
  }

  lemma BetweenMultiples(q: nat, k: nat, tick: nat)
    requires tick > 0 && k * tick < q < k * tick + tick
    ensures q % tick != 0
  {
    DivisionIsUnique(q, k, q - k * tick, tick);
  }

  lemma DivisionIsUnique(q: nat, k: nat, r: nat, tick: nat)
    requires tick > 0 && r < tick && q == k * tick + r
    ensures q / tick == k && q % tick == r
  {
    var d := q / tick - k;
    assert q == q / tick * tick + q % tick;
    assert d * tick == r - q % tick;
    if d > 0 {
      MulAtLeast(d, tick);
    }
  }

  /** Where the tier of a price ends, when it does. */
  function TierEnd(price: int): Option<nat> {
    if price < 2_000 then Some(2_000)
    else if price < 5_000 then Some(5_000)
    else if price < 20_000 then Some(20_000)
    else if price < 50_000 then Some(50_000)
    else if price < 200_000 then Some(200_000)
    else if price < 500_000 then Some(500_000)
    else None
  }

  function TierStart(price: int): nat {
    if price < 2_000 then 0
    else if price < 5_000 then 2_000
    else if price < 20_000 then 5_000
    else if price < 50_000 then 20_000
    else if price < 200_000 then 50_000
    else if price < 500_000 then 200_000
    else 500_000
  }

  /** Rounding up to a tick multiple crosses a tier at its boundary only, which both tiers accept. */
  lemma RoundsUp(price: nat)
    requires price > 0
    ensures LeastOnTick((price / TickSize(price) + if price % TickSize(price) != 0 then 1 else 0) * TickSize(price),
        price)
  {
    var tick := TickSize(price);
    var up := (price / tick + if price % tick != 0 then 1 else 0) * tick;
    Neighbours(price, tick);
    assert forall q | price <= q < up :: q % tick != 0;
    if TierEnd(price).Some? {
      var end := TierEnd(price).value;
      assert end % tick == 0;
      assert up <= end;
      assert end % TickSize(end) == 0;
    }
    assert forall q | price <= q < up :: TickSize(q) == tick;
  }

  /** Rounding down never leaves the tier. */
  lemma RoundsDown(price: nat)
    requires price > 0
    ensures GreatestOnTick(price / TickSize(price) * TickSize(price), price)
  {
    var tick := TickSize(price);
    var down := price / tick * tick;
    Neighbours(price, tick);
    assert (price / tick + 1) * tick == down + tick;
    var start := TierStart(price);
    assert start % tick == 0 && start <= price;
    if down < start {
      assert false;
    }
    if start == 0 {
      assert tick == 1 && down == price;
    }
  }

  // ----- the edge's check -----

  predicate Sides(side: string) {
    side == "buy" || side == "sell"
  }

  /** AdjustTickSizeKR: a buy rounds down, a sell rounds up, and zero becomes one. */
  method AdjustTickSize(price: int, side: string) returns (adjusted: int, ok: bool)
    ensures ok <==> price >= 0 && Sides(side)
    ensures ok && price == 0 ==> adjusted == 1
    ensures ok && price > 0 && side == "sell" ==> adjusted > 0 && LeastOnTick(adjusted, price)
    ensures ok && price > 0 && side == "buy" ==> adjusted > 0 && GreatestOnTick(adjusted, price)
  {
    adjusted, ok := 0, false;
    if price < 0 || !Sides(side) {
      return;
    }
    var tick := TickSize(price);
    var quotient, remainder := price / tick, price % tick;
    if price > 0 {
      RoundsUp(price);
      RoundsDown(price);
    }
    assert remainder != 0 ==> (quotient + 1) * tick == quotient * tick + tick;
    adjusted := quotient * tick;
    if side == "sell" && remainder != 0 {
      adjusted := adjusted + tick;
    }
    if adjusted == 0 {
      adjusted := 1;
    }
    ok := true;
  }

  /** Both sides accept exactly the prices on a tick. */
  method TickMatches(price: int, side: string) returns (matches: bool)
    ensures matches <==> price > 0 && Sides(side) && OnTick(price)
  {
    var adjusted, valid := AdjustTickSize(price, side);
    matches := valid && price == adjusted;
  }

  /** Adjusting twice is adjusting once, on either side. */
  method AdjustTwice(price: nat, side: string) returns (once: int, twice: int)
    requires Sides(side)
    ensures once == twice && once > 0 && OnTick(once)
  {
    var ok1, ok2;
    once, ok1 := AdjustTickSize(price, side);
    twice, ok2 := AdjustTickSize(once, side);
    assert OnTick(1);
  }

  /** What validateKISMockCommand answers: the empty string accepts. */
  function KISMockVerdict(side: string, stockCode: string, quantity: string, price: string): string {
    if !Sides(side) || |stockCode| != 6 || !AllDigits(stockCode)
       || !IsPositiveInteger(quantity) || !IsPositiveInteger(price) then INVALID_COMMAND
    else if !OnTick(NatValue(price)) then TICK_MISMATCH
    else ""
  }

  method ValidateKISMock(side: string, stockCode: string, quantity: string, price: string) returns (error: string)
    ensures error == KISMockVerdict(side, stockCode, quantity, price)
    ensures error in ["", "tick_mismatch", "invalid_command"]
    ensures error != "invalid_command" <==>
              && (side == "buy" || side == "sell") && |stockCode| == 6 && AllDigits(stockCode)
              && IsPositiveInteger(quantity) && IsPositiveInteger(price)
    ensures error == "" ==> OnTick(NatValue(price))
    ensures error == "tick_mismatch" ==> !OnTick(NatValue(price))
  {
    if !Sides(side) || |stockCode| != 6 || !AllDigits(stockCode) {
      return INVALID_COMMAND;
    }
    var _, validQuantity := PositiveInteger(quantity);
    var value, validPrice := PositiveInteger(price);
    if !validQuantity || !validPrice {
      return INVALID_COMMAND;
    }
    var matches := TickMatches(value, side);
    if !matches {
      return TICK_MISMATCH;
    }
    return "";
  }
}
