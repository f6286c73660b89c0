/** The invariant of the shared tables and of every caller, kept by every event. */
module ProtocolInvariant {
  import opened Contracts
  import opened Tables
  import opened Evidence
  import opened Protocol

  // ----- who may write which row -----

  /** The command whose pending row a placement reserved and has yet to finalize. */
  function Owns(c: Caller): Option<Id> {
    match c
    case Placing(Sending(cmd)) => Some(cmd.id)
    case Placing(Awaiting(cmd)) => Some(cmd.id)
    case Placing(Finalizing(receipt, _)) => Some(receipt.id)
    case _ => None
  }

  function OwnsCancel(c: Caller): Option<Id> {
    match c
    case Cancelling(CancelSending(target)) => Some(target.id)
    case Cancelling(CancelAwaiting(target)) => Some(target.id)
    case Cancelling(CancelFinalizing(receipt)) => Some(receipt.id)
    case _ => None
  }

  function SentIds(sends: seq<Command>): set<Id> {
    set i | 0 <= i < |sends| :: sends[i].id
  }

  function CancelledIds(sends: seq<Target>): set<Id> {
    set i | 0 <= i < |sends| :: sends[i].id
  }

  // ----- what each caller may rely on -----

  /** A reserved, unfinalized row whose context holds exactly the command's facts. */
  ghost predicate Reserved(db: Db, cmd: Command) {
    && Committed(db, cmd)
    && db.commands[cmd.id].phase == Pending
  }

  ghost predicate Committed(db: Db, cmd: Command) {
    && cmd.id in db.commands && cmd.id in db.contexts
    && db.commands[cmd.id].scope == cmd.scope
    && db.contexts[cmd.id] == FactsOf(cmd, db.contexts[cmd.id].sentAt)
  }

  /** An answer is UNKNOWN, which claims nothing, or the whole effective outcome: disposition,
      order id and error code. */
  ghost predicate Agrees(db: Db, receipt: Receipt) {
    && receipt.id in db.commands
    && (receipt.disposition == Unknown || Outcome(Effective(db, receipt.id).value) == Outcome(receipt))
  }

  ghost predicate PlaceOk(db: Db, sends: seq<Command>, pc: PlacePc) {
    match pc
    case Looking(cmd) => ValidCommandId(cmd.id)
    case Judging(cmd) => ValidCommandId(cmd.id)
    case Rejecting(receipt) => ValidCommandId(receipt.id) && receipt.disposition == NotCreated
    case RejectReading(receipt) => receipt.id in db.commands
    case Reserving(cmd, receipt) =>
      ValidCommandId(cmd.id) && receipt.id == cmd.id && receipt.disposition == Unknown
    case ReserveReading(id) => id in db.commands
    case Sending(cmd) => Reserved(db, cmd) && cmd.id !in SentIds(sends)
    case Awaiting(cmd) => Reserved(db, cmd)
    case Finalizing(receipt, _) =>
      && receipt.id in db.commands && receipt.id in db.contexts
      && db.commands[receipt.id].phase == Pending
      && (receipt.disposition == Unknown
          || (receipt.disposition == Accepted && receipt.brokerOrderId != "" && receipt.errorCode == ""))
    case FinalReading(receipt) => false
    case Replied(receipt, failed, overruled) =>
      failed || if overruled then receipt.id in db.commands && Contradicted(db, receipt) else Agrees(db, receipt)
    case Unstored(receipt) => receipt.disposition == NotCreated && receipt.errorCode == INVALID_COMMAND
  }

  /** The target's order id is the effective accepted one. */
  ghost predicate TargetLive(db: Db, target: Target) {
    Cancellable(db, target.id) && Effective(db, target.id).value.brokerOrderId == target.brokerOrderId
  }

  ghost predicate CancelPending(db: Db, id: Id) {
    id in db.cancels && db.cancels[id].state == CancelUnknown
  }

  ghost predicate CancelOk(db: Db, sends: seq<Target>, pc: CancelPc) {
    match pc
    case AttemptLooking(id) => true
    case TargetLooking(id) => true
    case Preparing(target) => TargetLive(db, target)
    case CancelReserving(target, receipt) =>
      TargetLive(db, target) && receipt.id == target.id && receipt.state == CancelUnknown
    case CancelReserveReading(id) => id in db.cancels
    case CancelSending(target) =>
      TargetLive(db, target) && CancelPending(db, target.id) && target.id !in CancelledIds(sends)
    case CancelAwaiting(target) => TargetLive(db, target) && CancelPending(db, target.id)
    case CancelFinalizing(receipt) => CancelPending(db, receipt.id)
    case CancelFinalReading(id) => false
    case CancelReplied(receipt) =>
      && receipt.id in db.cancels
      && (receipt.state == CancelUnknown || db.cancels[receipt.id].state == receipt.state)
    case CancelFailed => true
  }

  /** A snapshot item still is what a fresh query would return for its facts. */
  ghost predicate ItemOk(db: Db, x: Item) {
    x.id in db.commands && x == PendingItem(db, x.id)
  }

  ghost predicate ItemsOk(db: Db, items: seq<Item>) {
    forall i | 0 <= i < |items| :: ItemOk(db, items[i])
  }

  ghost predicate PlanOk(db: Db, plan: Plan) {
    plan.single.Some? ==> plan.single.value.id in db.commands && plan.single.value.disposition == Unknown
  }

  ghost predicate ResolveOk(db: Db, pc: ResolvePc) {
    match pc
    case Finding(id, plan) => true
    case Fetching(id, plan) => PlanOk(db, plan)
    case FetchingKIS(plan) => PlanOk(db, plan)
    case FetchingAlpaca(todo, plan) => ItemsOk(db, todo) && PlanOk(db, plan)
    case Choosing(todo, plan) => ItemsOk(db, todo) && PlanOk(db, plan)
    case Reading(key, items, todo, plan) =>
      && ItemsOk(db, items) && ItemsOk(db, todo) && PlanOk(db, plan)
      && (forall i | 0 <= i < |items| :: KeyOf(items[i]) == key)
    case Concluding(_, items, todo, plan) => ItemsOk(db, items) && ItemsOk(db, todo) && PlanOk(db, plan)
    case Appending(_, _, items, todo, plan) => ItemsOk(db, items) && ItemsOk(db, todo) && PlanOk(db, plan)
    case Confirming(id, _, items, todo, plan) =>
      Settled(db, id) && ItemsOk(db, items) && ItemsOk(db, todo) && PlanOk(db, plan)
    case Checked(receipt) => Agrees(db, receipt)
    case Finished(_) => true
  }

  ghost predicate CallerOk(w: World, c: Caller) {
    match c
    case Placing(pc) => PlaceOk(w.db, w.sends, pc)
    case Cancelling(pc) => CancelOk(w.db, w.cancelSends, pc)
    case Resolving(pc) => ResolveOk(w.db, pc)
  }

  ghost predicate LogsOk(w: World) {
    && (forall i, j | 0 <= i < j < |w.sends| :: w.sends[i].id != w.sends[j].id)
    && (forall i | 0 <= i < |w.sends| :: Committed(w.db, w.sends[i]))
    && (forall i, j | 0 <= i < j < |w.cancelSends| :: w.cancelSends[i].id != w.cancelSends[j].id)
    && (forall i | 0 <= i < |w.cancelSends| ::
          TargetLive(w.db, w.cancelSends[i]) && w.cancelSends[i].id in w.db.cancels)
  }

  ghost predicate OwnersOk(callers: map<Pid, Caller>) {
    forall p, q | p in callers && q in callers && p != q ::
      && (Owns(callers[p]).Some? ==> Owns(callers[p]) != Owns(callers[q]))
      && (OwnsCancel(callers[p]).Some? ==> OwnsCancel(callers[p]) != OwnsCancel(callers[q]))
  }

  ghost predicate Inv(w: World) {
    && DbOk(w.db) && OrderOk(w.db)
    && (forall p | p in w.callers :: CallerOk(w, w.callers[p]))
    && OwnersOk(w.callers)
    && LogsOk(w)
  }

  // ----- what a statement by somebody else leaves standing -----

  lemma AgreesStable(a: Db, b: Db, touched: Id, cancelled: Id, receipt: Receipt)
    requires Keeps(a, b, touched, cancelled) && Agrees(a, receipt)
    ensures Agrees(b, receipt)
  {
    assert GrowsAt(a, b, receipt.id);
  }

  lemma TargetStable(a: Db, b: Db, touched: Id, cancelled: Id, target: Target)
    requires Keeps(a, b, touched, cancelled) && TargetLive(a, target)
    ensures TargetLive(b, target)
  {
    assert GrowsAt(a, b, target.id);
  }

  lemma ItemsStable(a: Db, b: Db, touched: Id, cancelled: Id, items: seq<Item>)
    requires DbOk(a) && Keeps(a, b, touched, cancelled) && ItemsOk(a, items)
    requires touched in a.commands ==> touched in a.contexts
    ensures ItemsOk(b, items)
  {
    forall i | 0 <= i < |items| ensures ItemOk(b, items[i]) {
      var id := items[i].id;
      assert ItemOk(a, items[i]);
      assert GrowsAt(a, b, id) && LeavesAt(a, b, touched, cancelled, id);
    }
  }

  lemma PlaceStable(w: World, v: World, pc: PlacePc, touched: Id, cancelled: Id)
    requires DbOk(w.db) && Keeps(w.db, v.db, touched, cancelled)
    requires PlaceOk(w.db, w.sends, pc)
    requires Owns(Placing(pc)) != Some(touched)
    requires Owns(Placing(pc)).Some? && Owns(Placing(pc)).value !in SentIds(w.sends) ==>
               Owns(Placing(pc)).value !in SentIds(v.sends)
    ensures PlaceOk(v.db, v.sends, pc)
  {
    match pc {
      case RejectReading(receipt) => assert GrowsAt(w.db, v.db, receipt.id);
      case ReserveReading(id) => assert GrowsAt(w.db, v.db, id);
      case Sending(cmd) =>
        assert GrowsAt(w.db, v.db, cmd.id) && LeavesAt(w.db, v.db, touched, cancelled, cmd.id);
      case Awaiting(cmd) =>
        assert GrowsAt(w.db, v.db, cmd.id) && LeavesAt(w.db, v.db, touched, cancelled, cmd.id);
      case Finalizing(receipt, _) =>
        assert GrowsAt(w.db, v.db, receipt.id) && LeavesAt(w.db, v.db, touched, cancelled, receipt.id);
      case Replied(receipt, failed, overruled) => assert GrowsAt(w.db, v.db, receipt.id);
      case _ =>
    }
  }

  lemma CancelStable(w: World, v: World, pc: CancelPc, touched: Id, cancelled: Id)
    requires Keeps(w.db, v.db, touched, cancelled)
    requires CancelOk(w.db, w.cancelSends, pc)
    requires OwnsCancel(Cancelling(pc)) != Some(cancelled)
    requires cancelled in w.db.cancels ==> CancelPending(w.db, cancelled)
    requires OwnsCancel(Cancelling(pc)).Some? && OwnsCancel(Cancelling(pc)).value !in CancelledIds(w.cancelSends) ==>
               OwnsCancel(Cancelling(pc)).value !in CancelledIds(v.cancelSends)
    ensures CancelOk(v.db, v.cancelSends, pc)
  {
    match pc {
      case Preparing(target) => TargetStable(w.db, v.db, touched, cancelled, target);
      case CancelReserving(target, _) => TargetStable(w.db, v.db, touched, cancelled, target);
      case CancelReserveReading(id) => assert GrowsAt(w.db, v.db, id);
      case CancelSending(target) =>
        TargetStable(w.db, v.db, touched, cancelled, target);
        assert LeavesAt(w.db, v.db, touched, cancelled, target.id);
      case CancelAwaiting(target) =>
        TargetStable(w.db, v.db, touched, cancelled, target);
        assert LeavesAt(w.db, v.db, touched, cancelled, target.id);
      case CancelFinalizing(receipt) => assert LeavesAt(w.db, v.db, touched, cancelled, receipt.id);
      case CancelReplied(receipt) =>
        assert LeavesAt(w.db, v.db, touched, cancelled, receipt.id) && GrowsAt(w.db, v.db, receipt.id);
      case _ =>
    }
  }

  lemma PlanStable(a: Db, b: Db, touched: Id, cancelled: Id, plan: Plan)
    requires Keeps(a, b, touched, cancelled) && PlanOk(a, plan)
    ensures PlanOk(b, plan)
  {
    if plan.single.Some? {
      assert GrowsAt(a, b, plan.single.value.id);
    }
  }

  lemma ResolveStable(a: Db, b: Db, pc: ResolvePc, touched: Id, cancelled: Id)
    requires DbOk(a) && Keeps(a, b, touched, cancelled) && ResolveOk(a, pc)
    requires touched in a.commands ==> touched in a.contexts
    ensures ResolveOk(b, pc)
  {
    match pc {
      case Fetching(_, plan) => PlanStable(a, b, touched, cancelled, plan);
      case FetchingKIS(plan) => PlanStable(a, b, touched, cancelled, plan);
      case FetchingAlpaca(todo, plan) =>
        PlanStable(a, b, touched, cancelled, plan);
        ItemsStable(a, b, touched, cancelled, todo);
      case Choosing(todo, plan) =>
        PlanStable(a, b, touched, cancelled, plan);
        ItemsStable(a, b, touched, cancelled, todo);
      case Reading(_, items, todo, plan) => GroupStable(a, b, touched, cancelled, items, todo, plan);
      case Concluding(_, items, todo, plan) => GroupStable(a, b, touched, cancelled, items, todo, plan);
      case Appending(_, _, items, todo, plan) => GroupStable(a, b, touched, cancelled, items, todo, plan);
      case Confirming(id, _, items, todo, plan) =>
        GroupStable(a, b, touched, cancelled, items, todo, plan);
        assert GrowsAt(a, b, id);
      case Checked(receipt) => AgreesStable(a, b, touched, cancelled, receipt);
      case _ =>
    }
  }

  lemma GroupStable(a: Db, b: Db, touched: Id, cancelled: Id, items: seq<Item>, todo: seq<Item>, plan: Plan)
    requires DbOk(a) && Keeps(a, b, touched, cancelled)
    requires ItemsOk(a, items) && ItemsOk(a, todo) && PlanOk(a, plan)
    requires touched in a.commands ==> touched in a.contexts
    ensures ItemsOk(b, items) && ItemsOk(b, todo) && PlanOk(b, plan)
  {
    ItemsStable(a, b, touched, cancelled, items);
    ItemsStable(a, b, touched, cancelled, todo);
    PlanStable(a, b, touched, cancelled, plan);
  }

  lemma LogsStable(w: World, v: World, touched: Id, cancelled: Id)
    requires Keeps(w.db, v.db, touched, cancelled) && LogsOk(w)
    requires v.sends == w.sends && v.cancelSends == w.cancelSends
    ensures LogsOk(v)
  {
    forall i | 0 <= i < |w.sends| ensures Committed(v.db, w.sends[i]) {
      assert GrowsAt(w.db, v.db, w.sends[i].id);
    }
    forall i | 0 <= i < |w.cancelSends|
      ensures TargetLive(v.db, w.cancelSends[i]) && w.cancelSends[i].id in v.db.cancels
    {
      TargetStable(w.db, v.db, touched, cancelled, w.cancelSends[i]);
      assert GrowsAt(w.db, v.db, w.cancelSends[i].id);
    }
  }

  // ----- what each caller's own step establishes -----

  function TouchedBy(pc: PlacePc): Id {
    if pc.Finalizing? then pc.receipt.id else ""
  }

  lemma SameDbKeeps(db: Db)
    requires DbOk(db)
    ensures Keeps(db, db, "", "")
  {
    forall id ensures RowOk(db, id) && GrowsAt(db, db, id) && LeavesAt(db, db, "", "", id) {
    }
  }

  lemma NoEmptyId(db: Db)
    requires DbOk(db)
    ensures "" !in db.commands && "" !in db.cancels
  {
    assert RowOk(db, "") && !ValidCommandId("");
  }

  lemma KeepsMore(a: Db, b: Db, touched: Id, cancelled: Id)
    requires Keeps(a, b, "", "") && DbOk(a)
    ensures Keeps(a, b, touched, cancelled)
  {
    forall id ensures RowOk(b, id) && GrowsAt(a, b, id) && LeavesAt(a, b, touched, cancelled, id) {
      assert RowOk(a, id) && RowOk(b, id) && GrowsAt(a, b, id) && LeavesAt(a, b, "", "", id);
      assert !ValidCommandId("");
    }
  }

  lemma PlaceDb(db: Db, now: Time, pc: PlacePc, input: Input, fault: Fault, sends: seq<Command>)
    requires DbOk(db) && PlaceOk(db, sends, pc)
    ensures Keeps(db, ExecPlace(db, now, pc, input, fault).db, TouchedBy(pc), "")
    ensures OrderOk(db) ==> OrderOk(ExecPlace(db, now, pc, input, fault).db)
  {
    SameDbKeeps(db);
    KeepsMore(db, db, TouchedBy(pc), "");
    match pc {
      case Rejecting(receipt) => InsertFinalKeeps(db, receipt);
      case Reserving(cmd, receipt) => ReservePendingKeeps(db, receipt, cmd);
      case Finalizing(receipt, orgNo) => FinalizePendingKeeps(db, receipt, orgNo);
      case _ =>
    }
  }

  lemma PlaceSelf(w: World, now: Time, pc: PlacePc, input: Input, fault: Fault)
    requires DbOk(w.db) && LogsOk(w) && PlaceOk(w.db, w.sends, pc)
    ensures var s := ExecPlace(w.db, now, pc, input, fault);
            var sends := if s.sent.Some? then w.sends + [s.sent.value] else w.sends;
            && PlaceOk(s.db, sends, s.pc)
            && (Owns(Placing(s.pc)).Some? ==>
                  Owns(Placing(s.pc)) == Owns(Placing(pc)) || Owns(Placing(s.pc)).value !in w.db.commands)
            && (s.sent.Some? ==>
                  && pc == Sending(s.sent.value) && s.db == w.db
                  && s.sent.value.id !in SentIds(w.sends) && Committed(w.db, s.sent.value))
  {
    var s := ExecPlace(w.db, now, pc, input, fault);
    match pc {
      case Rejecting(receipt) => assert RowOk(w.db, receipt.id);
      case Reserving(cmd, receipt) =>
        assert RowOk(w.db, cmd.id);
        assert cmd.id in SentIds(w.sends) ==> cmd.id in w.db.commands;
      case Finalizing(receipt, orgNo) => assert RowOk(w.db, receipt.id);
      case _ =>
    }
  }

  lemma CancelDb(db: Db, now: Time, pc: CancelPc, input: Input, fault: Fault)
    requires DbOk(db)
    ensures Keeps(db, ExecCancel(db, now, pc, input, fault).db, "", CancelledBy(pc))
    ensures OrderOk(db) ==> OrderOk(ExecCancel(db, now, pc, input, fault).db)
  {
    SameDbKeeps(db);
    KeepsMore(db, db, "", CancelledBy(pc));
    match pc {
      case CancelReserving(target, receipt) => ReserveCancelKeeps(db, receipt);
      case CancelFinalizing(receipt) => FinalizeCancelKeeps(db, receipt);
      case _ =>
    }
  }

  function CancelledBy(pc: CancelPc): Id {
    if pc.CancelFinalizing? then pc.receipt.id else ""
  }

  lemma CancelSelf(w: World, now: Time, pc: CancelPc, input: Input, fault: Fault)
    requires DbOk(w.db) && LogsOk(w) && CancelOk(w.db, w.cancelSends, pc)
    ensures var s := ExecCancel(w.db, now, pc, input, fault);
            var sends := if s.sent.Some? then w.cancelSends + [s.sent.value] else w.cancelSends;
            && CancelOk(s.db, sends, s.pc)
            && (OwnsCancel(Cancelling(s.pc)).Some? ==>
                  OwnsCancel(Cancelling(s.pc)) == OwnsCancel(Cancelling(pc))
                      || OwnsCancel(Cancelling(s.pc)).value !in w.db.cancels)
            && (s.sent.Some? ==>
                  && pc == CancelSending(s.sent.value) && s.db == w.db
                  && s.sent.value.id !in CancelledIds(w.cancelSends) && TargetLive(w.db, s.sent.value)
                  && s.sent.value.id in w.db.cancels)
  {
    var s := ExecCancel(w.db, now, pc, input, fault);
    match pc {
      case CancelReserving(target, receipt) =>
        ReserveCancelKeeps(w.db, receipt);
        TargetStable(w.db, s.db, "", "", target);
        assert target.id in CancelledIds(w.cancelSends) ==> target.id in w.db.cancels;
      case _ =>
    }
  }

  lemma ResolveDb(db: Db, now: Time, pc: ResolvePc, input: Input, fault: Fault)
    requires DbOk(db)
    ensures Keeps(db, ExecResolve(db, now, pc, input, fault).db, "", "")
    ensures OrderOk(db) ==> OrderOk(ExecResolve(db, now, pc, input, fault).db)
  {
    SameDbKeeps(db);
    match pc {
      case Appending(c, _, items, _, _) =>
        if items != [] && c != Leave && ValidResolution(items[0].id, RowFor(c, now)) {
          AppendResolutionKeeps(db, items[0].id, RowFor(c, now));
        }
      case _ =>
    }
  }

  lemma ItemsOkIn(db: Db, items: seq<Item>)
    requires forall x | x in items :: ItemOk(db, x)
    ensures ItemsOk(db, items)
  {
  }

  lemma ResolveSelf(db: Db, now: Time, pc: ResolvePc, input: Input, fault: Fault)
    requires DbOk(db) && ResolveOk(db, pc)
    ensures var s := ExecResolve(db, now, pc, input, fault); ResolveOk(s.db, s.pc)
  {
    var s := ExecResolve(db, now, pc, input, fault);
    match pc {
      case Fetching(id, plan) =>
      case FetchingKIS(plan) => ItemsOkIn(db, PendingAmong(db, KIS_SCOPES, db.order));
      case FetchingAlpaca(todo, plan) => ItemsOkIn(db, todo + PendingAmong(db, ALPACA_SCOPES, db.order));
      case Choosing(todo, plan) =>
        if input.Chosen? {
          ItemsOkIn(db, WithKey(todo, input.key));
          ItemsOkIn(db, WithoutKey(todo, input.key));
        }
      case Concluding(_, items, todo, plan) =>
        if items != [] {
          assert ItemsOk(db, items[1..]) by { ItemsOkIn(db, items[1..]); }
        }
      case Appending(c, evidence, items, todo, plan) =>
        if s.pc.Confirming? {
          AppendResolutionKeeps(db, items[0].id, RowFor(c, now));
          ItemsOkIn(db, items[1..]);
          assert ItemOk(db, items[0]);
          NoEmptyId(db);
          GroupStable(db, s.db, "", "", items[1..], todo, plan);
        }
      case Confirming(id, _, items, todo, plan) =>
      case _ =>
    }
  }

  // ----- every event -----

  lemma OthersStable(w: World, v: World, c: Caller, touched: Id, cancelled: Id)
    requires DbOk(w.db) && Keeps(w.db, v.db, touched, cancelled) && CallerOk(w, c)
    requires touched in w.db.commands ==> touched in w.db.contexts
    requires cancelled in w.db.cancels ==> CancelPending(w.db, cancelled)
    requires Owns(c) != Some(touched) && OwnsCancel(c) != Some(cancelled)
    requires Owns(c).Some? && Owns(c).value !in SentIds(w.sends) ==> Owns(c).value !in SentIds(v.sends)
    requires OwnsCancel(c).Some? && OwnsCancel(c).value !in CancelledIds(w.cancelSends) ==>
               OwnsCancel(c).value !in CancelledIds(v.cancelSends)
    ensures CallerOk(v, c)
  {
    match c {
      case Placing(pc) => PlaceStable(w, v, pc, touched, cancelled);
      case Cancelling(pc) => CancelStable(w, v, pc, touched, cancelled);
      case Resolving(pc) => ResolveStable(w.db, v.db, pc, touched, cancelled);
    }
  }

  /** An owned id is a stored one, so a newly reserved id is owned by nobody else. */
  lemma OwnedIsStored(w: World, c: Caller)
    requires DbOk(w.db) && CallerOk(w, c)
    ensures Owns(c).Some? ==> Owns(c).value in w.db.commands && Owns(c).value in w.db.contexts && Owns(c).value != ""
    ensures OwnsCancel(c).Some? ==> CancelPending(w.db, OwnsCancel(c).value) && OwnsCancel(c).value != ""
  {
    if Owns(c).Some? {
      assert RowOk(w.db, Owns(c).value);
    }
    if OwnsCancel(c).Some? {
      assert RowOk(w.db, OwnsCancel(c).value);
    }
  }

  /** A caller owns what it owned before, or a row that was not there. */
  ghost predicate OwnsNoMore(w: World, before: Caller, after: Caller) {
    && (Owns(after).Some? ==> Owns(after) == Owns(before) || Owns(after).value !in w.db.commands)
    && (OwnsCancel(after).Some? ==> OwnsCancel(after) == OwnsCancel(before) || OwnsCancel(after).value !in w.db.cancels)
  }

  lemma OwnersAfter(w: World, callers: map<Pid, Caller>, pid: Pid)
    requires Inv(w) && pid in w.callers && pid in callers && callers == w.callers[pid := callers[pid]]
    requires OwnsNoMore(w, w.callers[pid], callers[pid])
    ensures OwnersOk(callers)
  {
    hide Owns, OwnsCancel, CallerOk, LogsOk, OrderOk, DbOk;
    forall p, q | p in callers && q in callers && p != q
      ensures Owns(callers[p]).Some? ==> Owns(callers[p]) != Owns(callers[q])
      ensures OwnsCancel(callers[p]).Some? ==> OwnsCancel(callers[p]) != OwnsCancel(callers[q])
    {
      OwnedIsStored(w, w.callers[p]);
      OwnedIsStored(w, w.callers[q]);
    }
  }

  /** What a caller writes and sends, it writes and sends as the owner, so all others stand. */
  lemma OthersAfter(w: World, v: World, pid: Pid, q: Pid, touched: Id, cancelled: Id)
    requires Inv(w) && pid in w.callers && q in w.callers && q != pid && Keeps(w.db, v.db, touched, cancelled)
    requires touched == "" || Owns(w.callers[pid]) == Some(touched)
    requires cancelled == "" || OwnsCancel(w.callers[pid]) == Some(cancelled)
    requires forall id | id in SentIds(v.sends) :: id in SentIds(w.sends) || Owns(w.callers[pid]) == Some(id)
    requires forall id | id in CancelledIds(v.cancelSends) ::
               id in CancelledIds(w.cancelSends) || OwnsCancel(w.callers[pid]) == Some(id)
    ensures CallerOk(v, w.callers[q])
  {
    hide CallerOk, Owns, OwnsCancel, LogsOk, OrderOk, DbOk, Keeps, SentIds, CancelledIds;
    OwnedIsStored(w, w.callers[pid]);
    OwnedIsStored(w, w.callers[q]);
    NoEmptyId(w.db);
    OthersStable(w, v, w.callers[q], touched, cancelled);
  }

  lemma PlaceTurnKeeps(w: World, pid: Pid, input: Input, fault: Fault)
    requires Inv(w) && pid in w.callers && w.callers[pid].Placing?
    ensures Inv(Next(w, Turn(pid, input, fault)))
  {
    hide ExecPlace, PlaceOk, CancelOk, ResolveOk, RowOk, GrowsAt, LeavesAt, OwnersOk, TargetLive, LogsOk, Committed,
         SentIds,
         CancelledIds;
    var pc := w.callers[pid].place;
    var v := Next(w, Turn(pid, input, fault));
    var s := ExecPlace(w.db, w.now, pc, input, fault);
    assert CallerOk(w, w.callers[pid]);
    PlaceDb(w.db, w.now, pc, input, fault, w.sends);
    PlaceSelf(w, w.now, pc, input, fault);
    SentOne(w.sends, s.sent);
    forall q | q in v.callers ensures CallerOk(v, v.callers[q]) {
      if q != pid {
        OthersAfter(w, v, pid, q, TouchedBy(pc), "");
      }
    }
    OwnersAfter(w, v.callers, pid);
    if s.sent.None? {
      LogsStable(w, v, TouchedBy(pc), "");
    } else {
      PlaceLogged(w, v, s.sent.value);
    }
  }

  lemma SentOne(sends: seq<Command>, sent: Option<Command>)
    ensures SentIds(if sent.Some? then sends + [sent.value] else sends)
            == SentIds(sends) + if sent.Some? then {sent.value.id} else {}
    ensures forall i | 0 <= i < |sends| :: sends[i].id in SentIds(sends)
  {
    if sent.Some? {
      var more := sends + [sent.value];
      assert more[|sends|] == sent.value && forall i | 0 <= i < |sends| :: more[i] == sends[i];
    }
  }

  lemma CancelSentOne(sends: seq<Target>, sent: Option<Target>)
    ensures CancelledIds(if sent.Some? then sends + [sent.value] else sends)
            == CancelledIds(sends) + if sent.Some? then {sent.value.id} else {}
    ensures forall i | 0 <= i < |sends| :: sends[i].id in CancelledIds(sends)
  {
    if sent.Some? {
      var more := sends + [sent.value];
      assert more[|sends|] == sent.value && forall i | 0 <= i < |sends| :: more[i] == sends[i];
    }
  }

  lemma CancelTurnKeeps(w: World, pid: Pid, input: Input, fault: Fault)
    requires Inv(w) && pid in w.callers && w.callers[pid].Cancelling?
    ensures Inv(Next(w, Turn(pid, input, fault)))
  {
    hide ExecCancel, PlaceOk, CancelOk, ResolveOk, RowOk, GrowsAt, LeavesAt, OwnersOk, TargetLive, LogsOk, Committed,
         SentIds,
         CancelledIds;
    var pc := w.callers[pid].cancel;
    var v := Next(w, Turn(pid, input, fault));
    var s := ExecCancel(w.db, w.now, pc, input, fault);
    assert CallerOk(w, w.callers[pid]);
    CancelDb(w.db, w.now, pc, input, fault);
    CancelSelf(w, w.now, pc, input, fault);
    CancelSentOne(w.cancelSends, s.sent);
    forall q | q in v.callers ensures CallerOk(v, v.callers[q]) {
      if q != pid {
        OthersAfter(w, v, pid, q, "", CancelledBy(pc));
      }
    }
    OwnersAfter(w, v.callers, pid);
    if s.sent.None? {
      LogsStable(w, v, "", CancelledBy(pc));
    } else {
      CancelLogged(w, v, s.sent.value);
    }
  }

  lemma CancelLogged(w: World, v: World, target: Target)
    requires LogsOk(w) && v.db == w.db && v.sends == w.sends && v.cancelSends == w.cancelSends + [target]
    requires target.id !in CancelledIds(w.cancelSends) && TargetLive(w.db, target) && target.id in w.db.cancels
    ensures LogsOk(v)
  {
    hide TargetLive, Committed;
    assert forall i | 0 <= i < |w.cancelSends| :: w.cancelSends[i].id in CancelledIds(w.cancelSends);
  }

  lemma PlaceLogged(w: World, v: World, cmd: Command)
    requires LogsOk(w) && v.db == w.db && v.sends == w.sends + [cmd] && v.cancelSends == w.cancelSends
    requires cmd.id !in SentIds(w.sends) && Committed(w.db, cmd)
    ensures LogsOk(v)
  {
    hide TargetLive, Committed;
    assert forall i | 0 <= i < |w.sends| :: w.sends[i].id in SentIds(w.sends);
  }

  lemma ResolveTurnKeeps(w: World, pid: Pid, input: Input, fault: Fault)
    requires Inv(w) && pid in w.callers && w.callers[pid].Resolving?
    ensures Inv(Next(w, Turn(pid, input, fault)))
  {
    hide ExecResolve, PlaceOk, CancelOk, ResolveOk, RowOk, GrowsAt, LeavesAt, OwnersOk, TargetLive, LogsOk,
         Committed, SentIds,
         CancelledIds;
    var pc := w.callers[pid].resolve;
    var v := Next(w, Turn(pid, input, fault));
    assert CallerOk(w, w.callers[pid]);
    ResolveDb(w.db, w.now, pc, input, fault);
    ResolveSelf(w.db, w.now, pc, input, fault);
    forall q | q in v.callers ensures CallerOk(v, v.callers[q]) {
      if q != pid {
        OthersAfter(w, v, pid, q, "", "");
      }
    }
    OwnersAfter(w, v.callers, pid);
    LogsStable(w, v, "", "");
  }

  lemma StartOk(w: World, call: Call)
    ensures CallerOk(w, Start(call, w.now))
    ensures Owns(Start(call, w.now)) == None && OwnsCancel(Start(call, w.now)) == None
  {
    hide RowOk, TargetLive, Committed;
  }

  lemma BeginKeeps(w: World, pid: Pid, call: Call)
    requires Inv(w)
    ensures Inv(Next(w, Begin(pid, call)))
  {
    hide RowOk, TargetLive, Committed, PlaceOk, CancelOk, ResolveOk, Owns, OwnsCancel, Start;
    var v := Next(w, Begin(pid, call));
    StartOk(w, call);
    forall q | q in v.callers ensures CallerOk(v, v.callers[q]) {
      if q in w.callers {
        assert CallerOk(w, w.callers[q]);
      }
    }
  }

  /** A crash or the passing of time changes nothing any caller relies on. */
  lemma QuietKeeps(w: World, v: World)
    requires Inv(w) && v.db == w.db && v.sends == w.sends && v.cancelSends == w.cancelSends
    requires forall q | q in v.callers :: q in w.callers && v.callers[q] == w.callers[q]
    ensures Inv(v)
  {
    hide RowOk, TargetLive, Committed, PlaceOk, CancelOk, ResolveOk, Owns, OwnsCancel;
    forall q | q in v.callers ensures CallerOk(v, v.callers[q]) {
      assert CallerOk(w, w.callers[q]);
    }
  }

  lemma NextKeeps(w: World, e: Event)
    requires Inv(w)
    ensures Inv(Next(w, e))
  {
    hide Inv, ExecPlace, ExecCancel, ExecResolve;
    match e {
      case Turn(pid, input, fault) =>
        if pid in w.callers {
          match w.callers[pid] {
            case Placing(_) => PlaceTurnKeeps(w, pid, input, fault);
            case Cancelling(_) => CancelTurnKeeps(w, pid, input, fault);
            case Resolving(_) => ResolveTurnKeeps(w, pid, input, fault);
          }
        }
      case Begin(pid, call) => BeginKeeps(w, pid, call);
      case Crash(_) => QuietKeeps(w, Next(w, e));
      case Tick(_) => QuietKeeps(w, Next(w, e));
    }
  }

  /** Over every interleaving, fault, crash and restart, the invariant stands. */
  lemma {:induction false} RunKeeps(w: World, events: seq<Event>)
    requires Inv(w)
    ensures Inv(Run(w, events))
  {
    hide Inv, Next;
    if events != [] {
      RunKeeps(w, events[..|events| - 1]);
      NextKeeps(Run(w, events[..|events| - 1]), events[|events| - 1]);
    }
  }

  lemma InitHolds(w: World)
    requires Init(w)
    ensures Inv(w)
  {
  }
}
