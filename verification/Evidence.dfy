/** Which broker order answers for an UNKNOWN command, and what a completed read concludes. */
module Evidence {
  import opened Contracts
  import opened Decimals
  import opened Tables
  import opened Text

  /** One row of a day's order history, domestic or overseas. */
  datatype Order = Order(
    brokerOrderId: string, side: string, stockCode: string, quantity: string, price: string,
    orderedAt: Time)

  // ----- time -----

  const SECOND: Time := 1_000_000_000
  const MINUTE: Time := 60 * SECOND
  const DAY: Time := 24 * 60 * MINUTE
  const KST_OFFSET: Time := 9 * 60 * MINUTE
  const DEFAULT_GRACE: Time := 10 * MINUTE
  const DEFAULT_WINDOW: Time := 5 * MINUTE

  const MAX_DURATION: int := 0x7FFF_FFFF_FFFF_FFFF
  const MIN_DURATION: int := -0x8000_0000_0000_0000

  /** The calendar day, counted from the epoch, on which an instant falls in Korea. */
  function KisDay(t: Time): int {
    (t + KST_OFFSET) / DAY
  }

  /** Days in Korea begin at three in the afternoon, universal time. */
  lemma KoreanDays(t: Time, day: int)
    ensures KisDay(t) == day <==> day * 86_400_000_000_000 <= t + 32_400_000_000_000 < (day + 1) * 86_400_000_000_000
  {
  }

  /** time.Time's Sub saturates at the ends of the 64-bit Duration. */
  function Sub(t: Time, u: Time): int {
    if t - u > MAX_DURATION then MAX_DURATION
    else if t - u < MIN_DURATION then MIN_DURATION
    else t - u
  }

  /** absDuration, whose negation wraps: the least Duration is its own negation. */
  function AbsDuration(d: int): int {
    if d < 0 then (if d == MIN_DURATION then MIN_DURATION else -d) else d
  }

  predicate WithinWindow(orderedAt: Time, sentAt: Time, window: Time) {
    AbsDuration(Sub(orderedAt, sentAt)) <= window
  }

  /** The window test is the intended distance test except for an order dated 2^63 ns (292
      years) or more before the send, which it accepts. */
  lemma WindowIsDistance(orderedAt: Time, sentAt: Time, window: Time)
    requires 0 <= window < MAX_DURATION
    ensures WithinWindow(orderedAt, sentAt, window)
       <==> -window <= orderedAt - sentAt <= window || orderedAt - sentAt <= MIN_DURATION
  {
  }

  /** The one day the resolver reads covers the whole match window exactly when the send was at
      least a window after, and more than a window before, midnight in Korea. */
  lemma OneDayCoversWindow(sentAt: Time, window: Time)
    requires 0 <= window
    ensures (forall t | sentAt - window <= t <= sentAt + window :: KisDay(t) == KisDay(sentAt))
       <==> window <= (sentAt + KST_OFFSET) % DAY < DAY - window
  {
    var s := sentAt + KST_OFFSET;
    if window <= s % DAY < DAY - window {
      forall t | sentAt - window <= t <= sentAt + window ensures KisDay(t) == KisDay(sentAt) {
        SameQuotient(t + KST_OFFSET, s / DAY);
      }
    } else if s % DAY < window {
      var t := sentAt - s % DAY - 1;
      if s % DAY + 1 <= window {
        SameQuotient(t + KST_OFFSET, s / DAY - 1);
        assert KisDay(t) != KisDay(sentAt);
      }
    } else {
      var t := sentAt + (DAY - s % DAY);
      SameQuotient(t + KST_OFFSET, s / DAY + 1);
      assert KisDay(t) != KisDay(sentAt);
    }
  }

  lemma SameQuotient(x: int, q: int)
    requires q * DAY <= x < (q + 1) * DAY
    ensures x / DAY == q
  {
  }

  // ----- matching -----

  /** normalizeKISMockUSSymbol: the database spelling of a class share. */
  function NormalizeSymbol(s: string): string {
    var t := TrimSpace(s);
    seq(|t|, i requires 0 <= i < |t| => if t[i] == '/' then '.' else t[i])
  }

  /** The facts of an order, compared the way its scope compares them. */
  predicate SameFacts(scope: Scope, order: Order, item: Item) {
    && order.side == item.side
    && SamePositiveInteger(order.quantity, item.quantity)
    && if scope == KISMockUS then
         NormalizeSymbol(order.stockCode) == item.stockCode && SamePositiveDecimal(order.price, item.price)
       else
         order.stockCode == item.stockCode && SamePositiveInteger(order.price, item.price)
  }

  predicate Matches(item: Item, order: Order, window: Time) {
    && item.contextPresent
    && SameFacts(item.scope, order, item)
    && WithinWindow(order.orderedAt, item.sentAt, window)
  }

  function Matching(item: Item, orders: seq<Order>, window: Time): (ms: seq<Order>)
    ensures forall o :: o in ms <==> o in orders && Matches(item, o, window)
  {
    if orders == [] then []
    else
      var rest := Matching(item, orders[..|orders| - 1], window);
      if Matches(item, orders[|orders| - 1], window) then rest + [orders[|orders| - 1]] else rest
  }

  // ----- conclusions -----

  /** What one broker read returned. `Unread` is a failed read or a missing reader. */
  datatype Evidence =
    | Unread
    | DayOrders(orders: seq<Order>)
    | ClientOrder(found: bool, brokerOrderId: string)

  /** The read that can answer for an item: one KST day of its scope, or its client order id. */
  datatype EvidenceKey = DayKey(scope: Scope, day: int) | ClientKey(clientOrderId: string)

  function KeyOf(item: Item): EvidenceKey {
    if item.scope == AlpacaPaperCrypto then ClientKey(item.clientOrderId)
    else DayKey(item.scope, KisDay(item.sentAt))
  }

  datatype Conclusion = Leave | Accept(brokerOrderId: string) | Absent

  /** A just-sent order is not declared absent before the grace has passed. */
  predicate GraceOver(item: Item, now: Time, grace: Time) {
    now >= item.sentAt + grace
  }

  /** resolveEvidence's decision for one item of a completed KIS day read. */
  function JudgeDay(item: Item, orders: seq<Order>, now: Time, grace: Time, window: Time): Conclusion {
    var ms := Matching(item, orders, window);
    if |ms| == 1 then Accept(ms[0].brokerOrderId)
    else if |ms| == 0 && (item.contextPresent || orders == []) && GraceOver(item, now, grace) then Absent
    else Leave
  }

  /** An Alpaca item is answerable only when its stored client order id is its command id. */
  predicate ClientMapped(item: Item) {
    item.contextPresent && item.clientOrderId == item.id && ValidCommandId(item.clientOrderId)
  }

  /** The decision for one item. The two callers part only on a found order without an id:
      the single check goes on to the grace rule, the batch leaves the item alone. */
  function Judge(item: Item, evidence: Evidence, now: Time, grace: Time, window: Time, single: bool): Conclusion {
    match evidence
    case Unread => Leave
    case DayOrders(orders) =>
      if item.scope == KISMock || item.scope == KISMockUS then JudgeDay(item, orders, now, grace, window)
      else Leave
    case ClientOrder(found, oid) =>
      if item.scope != AlpacaPaperCrypto || !ClientMapped(item) then Leave
      else if found && oid != "" then Accept(oid)
      else if found && !single then Leave
      else if GraceOver(item, now, grace) then Absent
      else Leave
  }

  // ----- what a listing decides -----

  /** The row at this place answers for the item, and no other row of the listing does. */
  predicate OnlyMatch(item: Item, orders: seq<Order>, window: Time, k: nat) {
    && k < |orders| && Matches(item, orders[k], window)
    && forall j | 0 <= j < |orders| && j != k :: !Matches(item, orders[j], window)
  }

  predicate TwoMatch(item: Item, orders: seq<Order>, window: Time) {
    exists j, k :: 0 <= j < k < |orders| && Matches(item, orders[j], window) && Matches(item, orders[k], window)
  }

  predicate NoneMatches(item: Item, orders: seq<Order>, window: Time) {
    forall j | 0 <= j < |orders| :: !Matches(item, orders[j], window)
  }

  lemma {:induction false} NoneCounted(item: Item, orders: seq<Order>, window: Time)
    requires NoneMatches(item, orders, window)
    ensures Matching(item, orders, window) == []
  {
    hide Matches;
    if orders != [] {
      NoneCounted(item, orders[..|orders| - 1], window);
    }
  }

  lemma {:induction false} OneCounted(item: Item, orders: seq<Order>, window: Time, k: nat)
    requires OnlyMatch(item, orders, window, k)
    ensures Matching(item, orders, window) == [orders[k]]
  {
    hide Matches;
    var front := orders[..|orders| - 1];
    if k < |front| {
      OneCounted(item, front, window, k);
    } else {
      NoneCounted(item, front, window);
    }
  }

  lemma {:induction false} TwoCounted(item: Item, orders: seq<Order>, window: Time, j: nat, k: nat)
    requires j < k < |orders| && Matches(item, orders[j], window) && Matches(item, orders[k], window)
    ensures |Matching(item, orders, window)| >= 2
  {
    hide Matches;
    var front := orders[..|orders| - 1];
    if k < |front| {
      TwoCounted(item, front, window, j, k);
    } else {
      assert orders[j] in front;
      assert orders[j] in Matching(item, front, window);
    }
  }

  /** A completed day read decides a KIS command by the rows of the listing alone. Exactly one match
      accepts it with that row's order id, whatever else the day lists; several leave it; none is
      absence if and only if the grace is over and the command has a context or the day is empty. */
  lemma DayDecides(item: Item, orders: seq<Order>, now: Time, grace: Time, window: Time, single: bool)
    requires item.scope == KISMock || item.scope == KISMockUS
    ensures var c := Judge(item, DayOrders(orders), now, grace, window, single);
            && (forall k: nat | OnlyMatch(item, orders, window, k) :: c == Accept(orders[k].brokerOrderId))
            && (TwoMatch(item, orders, window) ==> c == Leave)
            && (NoneMatches(item, orders, window) ==>
                  if now >= item.sentAt + grace && (item.contextPresent || orders == []) then c == Absent
                  else c == Leave)
  {
    forall k: nat | OnlyMatch(item, orders, window, k) ensures Matching(item, orders, window) == [orders[k]] {
      OneCounted(item, orders, window, k);
    }
    if TwoMatch(item, orders, window) {
      var j, k :| 0 <= j < k < |orders| && Matches(item, orders[j], window) && Matches(item, orders[k], window);
      TwoCounted(item, orders, window, j, k);
    }
    if NoneMatches(item, orders, window) {
      NoneCounted(item, orders, window);
    }
  }

  /** One of the three is always the case. */
  lemma ListingCases(item: Item, orders: seq<Order>, window: Time)
    ensures NoneMatches(item, orders, window) || TwoMatch(item, orders, window)
            || exists k: nat :: OnlyMatch(item, orders, window, k)
  {
    hide Matches;
    if !NoneMatches(item, orders, window) {
      var k :| 0 <= k < |orders| && Matches(item, orders[k], window);
      if !OnlyMatch(item, orders, window, k) {
        var j :| 0 <= j < |orders| && j != k && Matches(item, orders[j], window);
        assert j < k || k < j;
      }
    }
  }

  /** A completed lookup decides an Alpaca command: never without the stored client order id being its
      own; a found order accepts it with its id; a missing one is absence once the grace is over, and so
      is, for the single check alone, one found without an id. */
  lemma LookupDecides(item: Item, found: bool, oid: string, now: Time, grace: Time, window: Time, single: bool)
    requires item.scope == AlpacaPaperCrypto
    ensures var c := Judge(item, ClientOrder(found, oid), now, grace, window, single);
            if !item.contextPresent || item.clientOrderId != item.id || !ValidCommandId(item.id) then c == Leave
            else if found && oid != "" then c == Accept(oid)
            else if (!found || single) && now >= item.sentAt + grace then c == Absent
            else c == Leave
  {
  }

  /** The row a conclusion appends. */
  function RowFor(c: Conclusion, at: Time): Resolution
    requires c != Leave
  {
    match c
    case Accept(oid) => Resolution(Accepted, oid, "", at)
    case Absent => Resolution(NotCreated, "", RESOLVED_ABSENT, at)
  }

  /** A listed order with the item's facts, inside its window, rules absence out: the item is
      then accepted with that order's id or left ambiguous. */
  lemma MatchRulesOutAbsence(item: Item, orders: seq<Order>, o: Order, now: Time, grace: Time, window: Time)
    requires o in orders && Matches(item, o, window)
    ensures JudgeDay(item, orders, now, grace, window) != Absent
    ensures JudgeDay(item, orders, now, grace, window).Accept? ==>
              JudgeDay(item, orders, now, grace, window).brokerOrderId == o.brokerOrderId
  {
    var ms := Matching(item, orders, window);
    assert o in ms;
  }

  /** A day read that returns everything the broker dated on that day in Korea. */
  ghost predicate CompleteDay(book: seq<Order>, day: int, orders: seq<Order>) {
    forall o :: o in orders <==> o in book && KisDay(o.orderedAt) == day
  }

  /** Away from midnight a complete day read shows a command's order wherever in the window it
      was dated, so it cannot be concluded absent. */
  lemma CompleteDayShowsOrder(item: Item, book: seq<Order>, orders: seq<Order>, o: Order, now: Time,
                              grace: Time, window: Time)
    requires 0 <= window < MAX_DURATION && o in book && Matches(item, o, window)
    requires o.orderedAt - item.sentAt > MIN_DURATION
    requires window <= (item.sentAt + KST_OFFSET) % DAY < DAY - window
    requires CompleteDay(book, KisDay(item.sentAt), orders)
    ensures o in orders && JudgeDay(item, orders, now, grace, window) != Absent
  {
    WindowIsDistance(o.orderedAt, item.sentAt, window);
    OneDayCoversWindow(item.sentAt, window);
    assert KisDay(o.orderedAt) == KisDay(item.sentAt);
    MatchRulesOutAbsence(item, orders, o, now, grace, window);
  }

  /** Complete reads of the one day are enough exactly away from midnight. Nearer to it, some order
      with the facts of the command, dated inside its window, is declared absent once the grace is
      over. The order's date must lie within 292 years of the send. */
  lemma CompleteReadsSufficeIff(item: Item, facts: Order, now: Time, grace: Time, window: Time)
    requires item.contextPresent && SameFacts(item.scope, facts, item) && GraceOver(item, now, grace)
    requires 0 <= window < MAX_DURATION
    ensures (forall book, orders, o | o in book && Matches(item, o, window) && o.orderedAt - item.sentAt > MIN_DURATION
                                      && CompleteDay(book, KisDay(item.sentAt), orders) ::
               JudgeDay(item, orders, now, grace, window) != Absent)
       <==> window <= (item.sentAt + KST_OFFSET) % DAY < DAY - window
  {
    hide JudgeDay;
    if window <= (item.sentAt + KST_OFFSET) % DAY < DAY - window {
      forall book, orders, o | o in book && Matches(item, o, window) && o.orderedAt - item.sentAt > MIN_DURATION
                               && CompleteDay(book, KisDay(item.sentAt), orders)
        ensures JudgeDay(item, orders, now, grace, window) != Absent
      {
        CompleteDayShowsOrder(item, book, orders, o, now, grace, window);
      }
    } else {
      OneDayCoversWindow(item.sentAt, window);
      var t :| item.sentAt - window <= t <= item.sentAt + window && KisDay(t) != KisDay(item.sentAt);
      OtherDayIsMissed(item, facts.(orderedAt := t), now, grace, window);
    }
  }

  /** An order the broker dates on another day is missed by a complete read of the day of the send. */
  lemma OtherDayIsMissed(item: Item, o: Order, now: Time, grace: Time, window: Time)
    requires item.contextPresent && SameFacts(item.scope, o, item) && GraceOver(item, now, grace)
    requires -window <= o.orderedAt - item.sentAt <= window < MAX_DURATION
    requires KisDay(o.orderedAt) != KisDay(item.sentAt)
    ensures o in [o] && Matches(item, o, window) && CompleteDay([o], KisDay(item.sentAt), [])
    ensures JudgeDay(item, [], now, grace, window) == Absent
  {
    WindowIsDistance(o.orderedAt, item.sentAt, window);
  }

  /** An acceptance always names a listed order with the item's own facts. */
  lemma AcceptanceHasOrder(item: Item, orders: seq<Order>, now: Time, grace: Time, window: Time)
    returns (o: Order)
    requires JudgeDay(item, orders, now, grace, window).Accept?
    ensures o in orders && Matches(item, o, window)
    ensures o.brokerOrderId == JudgeDay(item, orders, now, grace, window).brokerOrderId
  {
    o := Matching(item, orders, window)[0];
    assert o in Matching(item, orders, window);
  }

  method MatchingOrders(item: Item, orders: seq<Order>, window: Time) returns (matches: seq<Order>)
    ensures matches == Matching(item, orders, window)
  {
    matches := [];
    if !item.contextPresent {
      NothingMatches(item, orders, window);
      return;
    }
    for i := 0 to |orders|
      invariant matches == Matching(item, orders[..i], window)
    {
      assert orders[..i + 1][..i] == orders[..i];
      if !SameFacts(item.scope, orders[i], item) || !WithinWindow(orders[i].orderedAt, item.sentAt, window) {
        continue;
      }
      matches := matches + [orders[i]];
    }
    assert orders[..|orders|] == orders;
  }

  lemma {:induction false} NothingMatches(item: Item, orders: seq<Order>, window: Time)
    requires !item.contextPresent
    ensures Matching(item, orders, window) == []
  {
    if orders != [] {
      NothingMatches(item, orders[..|orders| - 1], window);
    }
  }
}
