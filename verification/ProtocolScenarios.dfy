/** Concrete runs in which promises of the design fail, each the reason for a premise elsewhere. */
module ProtocolScenarios {
  import opened Contracts
  import opened Tables
  import opened Evidence
  import opened Protocol
  import opened ProtocolInvariant
  import opened ProtocolAnswers

  const EMPTY := World(0, Db([], map[], map[], map[], map[]), map[], [], [])
  const ORDER_COMMAND := Command("a", KISMock, "buy", "005930", "1", "70000")

  /** A placement up to its send. */
  function Sent(w: World, pid: Pid, cmd: Command): World {
    var w1 := Next(w, Begin(pid, Place(cmd)));
    var w2 := Step(w1, pid, Nothing);
    var w3 := Step(w2, pid, Judged(Prepared));
    var w4 := Step(w3, pid, Nothing);
    Step(w4, pid, Nothing)
  }

  /** A single check with the default settings, up to its judgement of the given day and to its end. */
  function DayRead(w: World, pid: Pid, id: Id, key: EvidenceKey, orders: seq<Order>): World {
    CheckRead(w, pid, id, 0, 0, key, DayOrders(orders))
  }

  function CheckedAgainst(w: World, pid: Pid, id: Id, key: EvidenceKey, orders: seq<Order>): World {
    CheckConclude(DayRead(w, pid, id, key, orders), pid)
  }

  /** A placement of a new command, undisturbed up to its send, leaves its pending row and its context. */
  lemma SentIs(w: World, pid: Pid, cmd: Command)
    requires pid !in w.callers && cmd.id !in w.db.commands && ValidCommandId(cmd.id) && PlaceableScope(cmd.scope)
    ensures Sent(w, pid, cmd)
            == w.(db := Reserved(w, cmd), callers := w.callers[pid := Placing(Awaiting(cmd))], sends := w.sends + [cmd])
  {
    var pending := Receipt(cmd.id, Unknown, "", SEND_PENDING, w.now);
    PlaceStepIs(w, pid, Looking(cmd), Nothing);
    PlaceStepIs(w, pid, Judging(cmd), Judged(Prepared));
    PlaceStepIs(w, pid, Reserving(cmd, pending), Nothing);
    PlaceStepIs(w.(db := Reserved(w, cmd)), pid, Sending(cmd), Nothing);
  }

  function Reserved(w: World, cmd: Command): Db {
    Tables.ReservePending(w.db, Receipt(cmd.id, Unknown, "", SEND_PENDING, w.now), cmd).0
  }

  function Placed(w: World, pid: Pid, pc: PlacePc): World {
    w.(callers := w.callers[pid := Placing(pc)])
  }

  lemma PlaceStepIs(w: World, pid: Pid, pc: PlacePc, input: Input)
    ensures var s := ExecPlace(w.db, w.now, pc, input, Fine);
            Step(Placed(w, pid, pc), pid, input)
            == Placed(w.(db := s.db, sends := if s.sent.Some? then w.sends + [s.sent.value] else w.sends), pid, s.pc)
  {
    var s := ExecPlace(w.db, w.now, pc, input, Fine);
    assert w.callers[pid := Placing(pc)][pid := Placing(s.pc)] == w.callers[pid := Placing(s.pc)];
  }

  /** The item of a command sent at the given time. */
  function ItemOf(cmd: Command, sentAt: Time): Item {
    Item(cmd.id, cmd.scope, cmd.side, cmd.stockCode, cmd.quantity, cmd.price, sentAt, true,
         if cmd.scope == AlpacaPaperCrypto then cmd.id else "")
  }

  const SENT_ITEM := ItemOf(ORDER_COMMAND, 0)

  lemma ReservedAndSent()
    ensures var w := Sent(EMPTY, 1, ORDER_COMMAND);
            && w.callers == map[1 := Placing(Awaiting(ORDER_COMMAND))]
            && w.sends == [ORDER_COMMAND] && w.now == 0
            && Unresolved(w.db, "a") && PendingItem(w.db, "a") == SENT_ITEM
            && w.db.commands["a"].phase == Pending
            && Effective(w.db, "a") == Some(Receipt("a", Unknown, "", SEND_PENDING, 0))
  {
    assert ValidCommandId("a");
    SentIs(EMPTY, 1, ORDER_COMMAND);
    assert EMPTY.callers[1 := Placing(Awaiting(ORDER_COMMAND))] == map[1 := Placing(Awaiting(ORDER_COMMAND))];
    assert EMPTY.sends + [ORDER_COMMAND] == [ORDER_COMMAND];
  }

  lemma DayIsRead(w: World, pid: Pid, id: Id, orders: seq<Order>)
    requires pid !in w.callers && ValidCommandId(id) && Unresolved(w.db, id)
    ensures var item := PendingItem(w.db, id);
            DayRead(w, pid, id, KeyOf(item), orders)
            == At(w, pid, Concluding(DayOrders(orders), [item], [], PlanFor(0, 0).(single := Effective(w.db, id))))
  {
    hide CheckRead, KeyOf, Effective;
    CheckReads(w, pid, id, 0, 0, DayOrders(orders), PlanFor(0, 0).(single := Effective(w.db, id)));
  }

  lemma DayIsConcluded(w: World, pid: Pid, item: Item, orders: seq<Order>, plan: Plan, c: Conclusion)
    requires Unresolved(w.db, item.id) && plan.single.Some?
    requires item.scope == KISMock || item.scope == KISMockUS
    requires c == JudgeDay(item, orders, w.now, plan.grace, plan.window) && c != Leave
    requires ValidResolution(item.id, RowFor(c, w.now))
    ensures var db := AppendResolution(w.db, item.id, RowFor(c, w.now));
            CheckConclude(At(w, pid, Concluding(DayOrders(orders), [item], [], plan)), pid)
            == At(w.(db := db), pid, Checked(Effective(db, item.id).value))
  {
    hide CheckConclude, JudgeDay;
    ProtocolAnswers.CheckAppends(w, pid, item, DayOrders(orders), plan, c);
  }

  /** A single check of an unresolved item ends with exactly the row its judgement calls for. */
  lemma DayCheckAppends(w: World, pid: Pid, item: Item, orders: seq<Order>, c: Conclusion)
    requires pid !in w.callers && ValidCommandId(item.id) && Unresolved(w.db, item.id)
    requires item == PendingItem(w.db, item.id) && (item.scope == KISMock || item.scope == KISMockUS)
    requires c == JudgeDay(item, orders, w.now, DEFAULT_GRACE, DEFAULT_WINDOW) && c != Leave
    requires ValidResolution(item.id, RowFor(c, w.now))
    ensures var db := AppendResolution(w.db, item.id, RowFor(c, w.now));
            CheckedAgainst(w, pid, item.id, KeyOf(item), orders)
            == At(w.(db := db), pid, Checked(Effective(db, item.id).value))
  {
    DayIsRead(w, pid, item.id, orders);
    DayIsConcluded(w, pid, item, orders, PlanFor(0, 0).(single := Effective(w.db, item.id)), c);
  }

  /** The broker accepts the order and the placement finalizes. */
  function Accepts(w: World, pid: Pid, oid: string): World {
    Step(Step(w, pid, Protocol.Sent(BrokerResult(true, oid, "", ""))), pid, Nothing)
  }

  /** Whatever was resolved beside it, an acceptance that arrives is finalized and answered. */
  lemma AcceptsIs(w: World, pid: Pid, cmd: Command, oid: string)
    requires pid in w.callers && w.callers[pid] == Placing(Awaiting(cmd)) && oid != ""
    requires cmd.id in w.db.commands && w.db.commands[cmd.id].phase == Pending
    ensures var receipt := Receipt(cmd.id, Accepted, oid, "", w.now);
            Accepts(w, pid, oid)
            == Placed(w.(db := FinalizePending(w.db, receipt, "").0), pid,
                      Replied(receipt, false, Contradicted(w.db, receipt)))
  {
    assert w == Placed(w, pid, Awaiting(cmd));
    PlaceStepIs(w, pid, Awaiting(cmd), Protocol.Sent(BrokerResult(true, oid, "", "")));
    PlaceStepIs(w, pid, Finalizing(Receipt(cmd.id, Accepted, oid, "", w.now), ""), Nothing);
  }

  /** A check beside a send in flight, then the broker's acceptance: the caller is told its own
      receipt, and the tables keep the resolution's outcome. */
  lemma AcceptsAfterCheck(w: World, pid: Pid, checker: Pid, cmd: Command, orders: seq<Order>, c: Conclusion,
      oid: string)
    requires pid in w.callers && w.callers[pid] == Placing(Awaiting(cmd)) && checker !in w.callers && oid != ""
    requires ValidCommandId(cmd.id) && Unresolved(w.db, cmd.id) && w.db.commands[cmd.id].phase == Pending
    requires var item := PendingItem(w.db, cmd.id);
             && (item.scope == KISMock || item.scope == KISMockUS)
             && c == JudgeDay(item, orders, w.now, DEFAULT_GRACE, DEFAULT_WINDOW)
    requires c != Leave && ValidResolution(cmd.id, RowFor(c, w.now))
    ensures var v := Accepts(CheckedAgainst(w, checker, cmd.id, KeyOf(PendingItem(w.db, cmd.id)), orders), pid, oid);
            var row := RowFor(c, w.now); var receipt := Receipt(cmd.id, Accepted, oid, "", w.now);
            && v.now == w.now && v.sends == w.sends && pid in v.callers
            && v.callers[pid] == Placing(Replied(receipt, false,
                 (row.disposition, row.brokerOrderId, row.errorCode) != Outcome(receipt)))
            && Effective(v.db, cmd.id) == Some(Receipt(cmd.id, row.disposition, row.brokerOrderId, row.errorCode,
                w.now))
  {
    var item := PendingItem(w.db, cmd.id);
    DayCheckAppends(w, checker, item, orders, c);
    hide JudgeDay, CheckedAgainst, Accepts, ValidResolution, KeyOf;
    var checked := CheckedAgainst(w, checker, item.id, KeyOf(item), orders);
    AcceptsIs(checked, pid, cmd, oid);
  }

  /** Finalize can contradict the tables for good. The broker answers only after the grace; by
      then a check has read an empty day. The caller is told ACCEPTED with an order id, without
      an error, while Find reports NOT_CREATED and no cancel target exists. */
  lemma LateAcceptanceIsContradicted()
    ensures var late := Next(Sent(EMPTY, 1, ORDER_COMMAND), Tick(DEFAULT_GRACE));
            var v := Accepts(CheckedAgainst(late, 2, "a", KeyOf(SENT_ITEM), []), 1, "7");
            && 1 in v.callers
            && v.callers[1] == Placing(Replied(Receipt("a", Accepted, "7", "", DEFAULT_GRACE), false, true))
            && v.sends == [ORDER_COMMAND]
            && Effective(v.db, "a") == Some(Receipt("a", NotCreated, "", RESOLVED_ABSENT, DEFAULT_GRACE))
            && CancelTarget(v.db, "a") == None
  {
    ReservedAndSent();
    var late := Next(Sent(EMPTY, 1, ORDER_COMMAND), Tick(DEFAULT_GRACE));
    assert ValidCommandId("a");
    hide Sent, CheckedAgainst, Accepts;
    AcceptsAfterCheck(late, 1, 2, ORDER_COMMAND, [], Absent, "7");
  }

  const OTHER_ORDER := Order("8", "buy", "005930", "1", "70000", 0)

  /** Nor need the grace be over. While the send is in flight a check reads a day that lists another
      order with the same facts and takes it; then the broker answers. The caller is told order "7",
      without an error, while every cancel of the command names order "8". */
  lemma InFlightCheckTakesAnotherOrder()
    ensures var v := Accepts(CheckedAgainst(Sent(EMPTY, 1, ORDER_COMMAND), 2, "a", KeyOf(SENT_ITEM), [OTHER_ORDER]),
        1, "7");
            && 1 in v.callers && v.now == 0
            && v.callers[1] == Placing(Replied(Receipt("a", Accepted, "7", "", 0), false, true))
            && Effective(v.db, "a") == Some(Receipt("a", Accepted, "8", "", 0))
            && CancelTarget(v.db, "a").Some? && CancelTarget(v.db, "a").value.brokerOrderId == "8"
  {
    ReservedAndSent();
    var w := Sent(EMPTY, 1, ORDER_COMMAND);
    assert ValidCommandId("a");
    SamePositive("1");
    SamePositive("70000");
    OnlyOrderMatches(SENT_ITEM, OTHER_ORDER);
    hide Sent, CheckedAgainst, Accepts, Matches;
    AcceptsAfterCheck(w, 1, 2, ORDER_COMMAND, [OTHER_ORDER], Accept("8"), "7");
  }

  /** A read made inside the grace can be judged after it. The check reads an empty day the instant
      the order is sent, time passes, and the absence is recorded, although the broker holds the
      order from then on: what a resolver still holds when the grace is over must count. */
  lemma EarlyReadDeclaresAbsence()
    ensures var early := DayRead(Sent(EMPTY, 1, ORDER_COMMAND), 2, "a", KeyOf(SENT_ITEM), []);
            var v := CheckConclude(Next(early, Tick(DEFAULT_GRACE)), 2);
            && early.now == 0 && !GraceOver(SENT_ITEM, early.now, DEFAULT_GRACE)
            && Matches(SENT_ITEM, OTHER_ORDER, DEFAULT_WINDOW)
            && v.sends == [ORDER_COMMAND] && ResolvedAbsent(v.db, "a")
  {
    ReservedAndSent();
    var w := Sent(EMPTY, 1, ORDER_COMMAND);
    assert ValidCommandId("a");
    SamePositive("1");
    SamePositive("70000");
    var late := w.(now := DEFAULT_GRACE);
    assert Absent == JudgeDay(SENT_ITEM, [], late.now, DEFAULT_GRACE, DEFAULT_WINDOW);
    hide Sent, DayRead, CheckConclude, Matches, JudgeDay;
    JudgedLater(w, 2, SENT_ITEM, [], DEFAULT_GRACE, Absent);
  }

  /** A check judges by its own clock at the time, whenever it read. */
  lemma JudgedLater(w: World, pid: Pid, item: Item, orders: seq<Order>, elapsed: nat, c: Conclusion)
    requires pid !in w.callers && ValidCommandId(item.id) && Unresolved(w.db, item.id)
    requires item == PendingItem(w.db, item.id) && (item.scope == KISMock || item.scope == KISMockUS)
    requires c == JudgeDay(item, orders, w.now + elapsed, DEFAULT_GRACE, DEFAULT_WINDOW) && c != Leave
    requires ValidResolution(item.id, RowFor(c, w.now + elapsed))
    ensures var early := DayRead(w, pid, item.id, KeyOf(item), orders);
            var v := CheckConclude(Next(early, Tick(elapsed)), pid);
            && early.now == w.now && v.sends == w.sends
            && v.db == AppendResolution(w.db, item.id, RowFor(c, w.now + elapsed))
  {
    DayIsRead(w, pid, item.id, orders);
    hide DayRead, CheckConclude, JudgeDay, ValidResolution, Next;
    HeldJudgedLater(w, pid, item, orders, PlanFor(0, 0).(single := Effective(w.db, item.id)), elapsed, c);
  }

  lemma HeldJudgedLater(w: World, pid: Pid, item: Item, orders: seq<Order>, plan: Plan, elapsed: nat, c: Conclusion)
    requires Unresolved(w.db, item.id) && plan.single.Some? && (item.scope == KISMock || item.scope == KISMockUS)
    requires c == JudgeDay(item, orders, w.now + elapsed, plan.grace, plan.window) && c != Leave
    requires ValidResolution(item.id, RowFor(c, w.now + elapsed))
    ensures var held := At(w, pid, Concluding(DayOrders(orders), [item], [], plan));
            var v := CheckConclude(Next(held, Tick(elapsed)), pid);
            v.sends == w.sends && v.db == AppendResolution(w.db, item.id, RowFor(c, w.now + elapsed))
  {
    TimeIs(w, pid, Concluding(DayOrders(orders), [item], [], plan), elapsed);
    hide CheckConclude, JudgeDay, ValidResolution, Next, RowFor, AppendResolution, Unresolved;
    DayIsConcluded(w.(now := w.now + elapsed), pid, item, orders, plan, c);
  }

  lemma TimeIs(w: World, pid: Pid, pc: ResolvePc, elapsed: nat)
    ensures Next(At(w, pid, pc), Tick(elapsed)) == At(w.(now := w.now + elapsed), pid, pc)
  {
  }

  /** An answer given before the tables are looked at may differ from what they hold: the reserved
      scope is refused for an id whose order is accepted and stays so. */
  lemma UnstoredAnswerCanDiffer(w: World, pid: Pid, cmd: Command)
    requires pid !in w.callers && cmd.scope == KISLive && Cancellable(w.db, cmd.id)
    ensures var v := Next(w, Begin(pid, Place(cmd)));
            && v.db == w.db && v.callers[pid] == Placing(Unstored(Receipt(cmd.id, NotCreated, "", INVALID_COMMAND,
                w.now)))
            && Effective(v.db, cmd.id).value.disposition == Accepted
  {
  }

  /** Matching does not subtract order ids another command already holds. Whenever a day lists
      the one order of an accepted command, and an unresolved command has the same facts within
      the window, the check gives it that order too: a cancel of either then names it. */
  lemma OneOrderAnswersForTwins(w: World, pid: Pid, accepted: Id, twin: Id, o: Order)
    requires DbOk(w.db) && pid !in w.callers && o.brokerOrderId != ""
    requires CancelTarget(w.db, accepted).Some? && CancelTarget(w.db, accepted).value.brokerOrderId == o.brokerOrderId
    requires Unresolved(w.db, twin)
    requires var item := PendingItem(w.db, twin);
             (item.scope == KISMock || item.scope == KISMockUS) && Matches(item, o, DEFAULT_WINDOW)
    ensures var v := CheckedAgainst(w, pid, twin, KeyOf(PendingItem(w.db, twin)), [o]);
            && v.sends == w.sends && CancelTarget(v.db, accepted).Some? && CancelTarget(v.db, twin).Some?
            && CancelTarget(v.db, accepted).value.brokerOrderId == o.brokerOrderId
            && CancelTarget(v.db, twin).value.brokerOrderId == o.brokerOrderId
  {
    var item := PendingItem(w.db, twin);
    var c := Accept(o.brokerOrderId);
    assert RowOk(w.db, twin);
    OnlyOrderMatches(item, o);
    DayCheckAppends(w, pid, item, [o], c);
    AppendResolutionKeeps(w.db, twin, RowFor(c, w.now));
    assert GrowsAt(w.db, AppendResolution(w.db, twin, RowFor(c, w.now)), accepted);
  }

  lemma OnlyOrderMatches(item: Item, o: Order)
    requires Matches(item, o, DEFAULT_WINDOW)
    ensures Matching(item, [o], DEFAULT_WINDOW) == [o]
  {
    assert [o][..0] == [];
  }

  const TWIN_COMMAND := ORDER_COMMAND.(id := "b")

  /** The same order placed twice: the first is accepted; beside the second send, still in flight,
      a check reads the day. */
  function TwoPlaced(w: World, first: Command, oid: string, second: Command): World {
    Sent(Accepts(Sent(w, 1, first), 1, oid), 2, second)
  }

  /** Both commands end with one broker order, and a cancel of either names it. */
  lemma TwinsShareOneOrder()
    ensures var w := TwoPlaced(EMPTY, ORDER_COMMAND, "8", TWIN_COMMAND);
            var v := CheckedAgainst(w, 3, "b", KeyOf(ItemOf(TWIN_COMMAND, 0)), [OTHER_ORDER]);
            && v.sends == [ORDER_COMMAND, TWIN_COMMAND]
            && CancelTarget(v.db, "a").Some? && CancelTarget(v.db, "a").value.brokerOrderId == "8"
            && CancelTarget(v.db, "b").Some? && CancelTarget(v.db, "b").value.brokerOrderId == "8"
  {
    assert ValidCommandId("a") && ValidCommandId("b") && DbOk(EMPTY.db);
    assert [] + [ORDER_COMMAND] + [TWIN_COMMAND] == [ORDER_COMMAND, TWIN_COMMAND];
    SamePositive("1");
    SamePositive("70000");
    assert Matches(ItemOf(TWIN_COMMAND, 0), OTHER_ORDER, DEFAULT_WINDOW);
    hide Matches, TwoPlaced, CheckedAgainst, CancelTarget, KeyOf, ValidCommandId, DbOk;
    TwinsTakeOneOrder(EMPTY, ORDER_COMMAND, TWIN_COMMAND, OTHER_ORDER);
  }

  /** Wherever two commands are placed one after the other and the second has the facts of the
      first one's order, a check beside the second send gives it that order too. */
  lemma TwinsTakeOneOrder(w: World, first: Command, second: Command, o: Order)
    requires DbOk(w.db) && w.callers == map[] && first.id != second.id && o.brokerOrderId != ""
    requires first.id !in w.db.commands && second.id !in w.db.commands
    requires ValidCommandId(first.id) && PlaceableScope(first.scope)
    requires ValidCommandId(second.id) && (second.scope == KISMock || second.scope == KISMockUS)
    requires Matches(ItemOf(second, w.now), o, DEFAULT_WINDOW)
    ensures var v := CheckedAgainst(TwoPlaced(w, first, o.brokerOrderId, second), 3, second.id,
                                    KeyOf(ItemOf(second, w.now)), [o]);
            && v.sends == w.sends + [first] + [second]
            && CancelTarget(v.db, first.id).Some? && CancelTarget(v.db, first.id).value.brokerOrderId == o.brokerOrderId
            && CancelTarget(v.db, second.id).Some? && CancelTarget(v.db, second.id).value.brokerOrderId
                == o.brokerOrderId
  {
    hide Sent, Accepts, DbOk, CancelTarget, Unresolved, PendingItem, Matches, CheckedAgainst, KeyOf, ValidCommandId;
    NextSent(w, 1, first, second.id);
    var w1 := Sent(w, 1, first);
    FirstAccepted(w1, 1, first, o.brokerOrderId);
    NextSent(Accepts(w1, 1, o.brokerOrderId), 2, second, first.id);
    OneOrderAnswersForTwins(TwoPlaced(w, first, o.brokerOrderId, second), 3, first.id, second.id, o);
  }

  lemma FirstAccepted(w: World, pid: Pid, cmd: Command, oid: string)
    requires DbOk(w.db) && pid in w.callers && w.callers[pid] == Placing(Awaiting(cmd)) && oid != ""
    requires Unresolved(w.db, cmd.id) && w.db.commands[cmd.id].phase == Pending
    ensures var v := Accepts(w, pid, oid);
            && DbOk(v.db) && v.callers.Keys == w.callers.Keys && v.sends == w.sends && v.now == w.now
            && v.db.commands.Keys == w.db.commands.Keys
            && CancelTarget(v.db, cmd.id).Some? && CancelTarget(v.db, cmd.id).value.brokerOrderId == oid
  {
    AcceptsIs(w, pid, cmd, oid);
    var receipt := Receipt(cmd.id, Accepted, oid, "", w.now);
    assert RowOk(w.db, cmd.id);
    hide Accepts, RowOk, GrowsAt, LeavesAt;
    FinalizePendingKeeps(w.db, receipt, "");
    assert forall id :: RowOk(FinalizePending(w.db, receipt, "").0, id);
  }

  lemma NextSent(w: World, pid: Pid, cmd: Command, other: Id)
    requires DbOk(w.db) && pid !in w.callers && cmd.id !in w.db.commands
    requires ValidCommandId(cmd.id) && PlaceableScope(cmd.scope)
    ensures var v := Sent(w, pid, cmd);
            && DbOk(v.db) && v.callers == w.callers[pid := Placing(Awaiting(cmd))] && v.sends == w.sends + [cmd]
            && v.now == w.now && v.db.commands.Keys == w.db.commands.Keys + {cmd.id}
            && (CancelTarget(w.db, other).Some? ==> CancelTarget(v.db, other) == CancelTarget(w.db, other))
            && Unresolved(v.db, cmd.id) && v.db.commands[cmd.id].phase == Pending
            && PendingItem(v.db, cmd.id) == ItemOf(cmd, w.now)
  {
    SentIs(w, pid, cmd);
    assert RowOk(w.db, cmd.id);
    hide Sent, RowOk, GrowsAt, LeavesAt;
    ReservePendingKeeps(w.db, Receipt(cmd.id, Unknown, "", SEND_PENDING, w.now), cmd);
    assert forall id :: RowOk(Reserved(w, cmd), id);
  }

  /** Across midnight it can: sent at 23:59:00 in Korea and dated by the broker two minutes
      later, the order is inside the window, but the one day that is read does not list it. */
  lemma OrderPastMidnightIsDeclaredAbsent()
    ensures var item := SENT_ITEM.(sentAt := DAY - KST_OFFSET - MINUTE);
            var o := Order("7", "buy", "005930", "1", "70000", DAY - KST_OFFSET + MINUTE);
            && Matches(item, o, DEFAULT_WINDOW)
            && CompleteDay([o], KisDay(item.sentAt), [])
            && JudgeDay(item, [], item.sentAt + DEFAULT_GRACE, DEFAULT_GRACE, DEFAULT_WINDOW) == Absent
  {
    var item := SENT_ITEM.(sentAt := DAY - KST_OFFSET - MINUTE);
    var o := Order("7", "buy", "005930", "1", "70000", DAY - KST_OFFSET + MINUTE);
    assert Decimals.SamePositiveInteger("1", "1") && Decimals.SamePositiveInteger("70000", "70000") by {
      SamePositive("1");
      SamePositive("70000");
    }
    assert KisDay(o.orderedAt) == 1 && KisDay(item.sentAt) == 0;
  }

  lemma SamePositive(s: string)
    requires s in ["1", "70000"]
    ensures Decimals.SamePositiveInteger(s, s)
  {
    assert "1"[..0] == "";
    assert "70000"[..4] == "7000" && "7000"[..3] == "700" && "700"[..2] == "70" && "70"[..1] == "7" && "7"[..0] == "";
  }
}
