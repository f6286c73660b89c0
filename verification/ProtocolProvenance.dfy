/**
 * Nothing is made up: whatever final row, cancel row or resolution row a run adds, some earlier
 * event of that run is the outside saying it, to a caller that had asked about that command.
 */
module ProtocolProvenance {
  import opened Contracts
  import opened Tables
  import opened Evidence
  import opened Protocol
  import opened ProtocolInvariant
  import opened ProtocolSafety
  import opened ProtocolEvidence
  import opened ProtocolAnswers

  /** What the outside can say, and when. */
  datatype Claim =
    | Answer(id: Id, result: BrokerResult, at: Time)
    | Denial(id: Id, code: string, at: Time)
    | CancelAnswer(id: Id, state: Option<CancelState>, code: string, at: Time)
    | Read(key: EvidenceKey, evidence: Evidence)
    | Settings(grace: Time, window: Time)

  /** The event is the outside saying so, to the caller whose step asks for it. */
  predicate Says(w: World, e: Event, claim: Claim) {
    match claim
    case Answer(id, result, at) =>
      && e.Turn? && e.pid in w.callers && w.callers[e.pid].Placing? && w.callers[e.pid].place.Awaiting?
      && w.callers[e.pid].place.cmd.id == id && e.input == Sent(result) && at == w.now
    case Denial(id, code, at) =>
      && e.Turn? && e.pid in w.callers && w.callers[e.pid].Placing? && w.callers[e.pid].place.Judging?
      && w.callers[e.pid].place.cmd.id == id && e.input == Judged(Rejected(code)) && at == w.now
    case CancelAnswer(id, state, code, at) =>
      && e.Turn? && e.pid in w.callers && w.callers[e.pid].Cancelling? && w.callers[e.pid].cancel.CancelAwaiting?
      && w.callers[e.pid].cancel.target.id == id && e.input == CancelSent(state, code) && at == w.now
    case Read(key, evidence) =>
      && e.Turn? && e.pid in w.callers && w.callers[e.pid].Resolving? && w.callers[e.pid].resolve.Reading?
      && w.callers[e.pid].resolve.key == key && e.input == Answered(evidence)
    case Settings(grace, window) =>
      && e.Begin? && (e.call.ResolveOne? || e.call.ResolveAll?)
      && grace == GraceAsked(e.call.grace) && window == WindowAsked(e.call.window)
  }

  ghost predicate Heard(w: World, events: seq<Event>, claim: Claim) {
    exists k :: 0 <= k < |events| && Says(Run(w, events[..k]), events[k], claim)
  }

  ghost function AllHeard(w: World, events: seq<Event>): iset<Claim> {
    iset claim | Heard(w, events, claim)
  }

  lemma HeardMore(w: World, front: seq<Event>, e: Event)
    ensures AllHeard(w, front) <= AllHeard(w, front + [e])
    ensures forall claim | Says(Run(w, front), e, claim) :: claim in AllHeard(w, front + [e])
  {
    hide Run, Says;
    var events := front + [e];
    assert events[..|front|] == front && events[|front|] == e;
    forall claim | Heard(w, front, claim) ensures Heard(w, events, claim) {
      var k :| 0 <= k < |front| && Says(Run(w, front[..k]), front[k], claim);
      assert front[..k] == events[..k] && front[k] == events[k];
    }
  }

  // ----- placements -----

  /** The outcome, code and office number that an answer of the broker comes to. */
  predicate Fits(r: BrokerResult, disposition: Disposition, oid: string, code: string, orgNo: string) {
    if r.accepted && r.brokerOrderId != "" then
      disposition == Accepted && oid == r.brokerOrderId && code == "" && orgNo == r.orgNo
    else
      disposition == Unknown && oid == "" && orgNo == ""
      && code == if r.errorCode == "" then "broker_unknown" else r.errorCode
  }

  ghost predicate AnswerHeard(heard: iset<Claim>, receipt: Receipt, orgNo: string) {
    exists r: BrokerResult ::
      Answer(receipt.id, r, receipt.recordedAt) in heard
      && Fits(r, receipt.disposition, receipt.brokerOrderId, receipt.errorCode, orgNo)
  }

  ghost predicate DenialHeard(heard: iset<Claim>, receipt: Receipt) {
    receipt.disposition == NotCreated && receipt.brokerOrderId == ""
    && Denial(receipt.id, receipt.errorCode, receipt.recordedAt) in heard
  }

  /** A final row is an answer of the broker to a send, or the denial of a command before any. */
  ghost predicate RowHeard(heard: iset<Claim>, id: Id, row: CommandRow) {
    var receipt := Receipt(id, row.disposition, row.brokerOrderId, row.errorCode, row.recordedAt);
    AnswerHeard(heard, receipt, row.orgNo)
    || (DenialHeard(heard, receipt) && row.scope == KISMock && row.orgNo == "")
  }

  /** What a placement is about to write was heard. */
  ghost predicate PlacerHeard(heard: iset<Claim>, pc: PlacePc) {
    match pc
    case Finalizing(receipt, orgNo) => AnswerHeard(heard, receipt, orgNo)
    case Rejecting(receipt) => DenialHeard(heard, receipt)
    case _ => true
  }

  ghost predicate RowsHeard(before: Db, db: Db, heard: iset<Claim>) {
    forall id | id in db.commands && db.commands[id].phase == Final ::
      (id in before.commands && before.commands[id] == db.commands[id]) || RowHeard(heard, id, db.commands[id])
  }

  ghost predicate PlacementsHeard(before: Db, v: World, heard: iset<Claim>) {
    && RowsHeard(before, v.db, heard)
    && forall p | p in v.callers && v.callers[p].Placing? :: PlacerHeard(heard, v.callers[p].place)
  }

  lemma RowHeardMore(heard: iset<Claim>, more: iset<Claim>, id: Id, row: CommandRow)
    requires heard <= more && RowHeard(heard, id, row)
    ensures RowHeard(more, id, row)
  {
    hide Fits;
    var receipt := Receipt(id, row.disposition, row.brokerOrderId, row.errorCode, row.recordedAt);
    if AnswerHeard(heard, receipt, row.orgNo) {
      AnswerHeardMore(heard, more, receipt, row.orgNo);
    }
  }

  lemma AnswerHeardMore(heard: iset<Claim>, more: iset<Claim>, receipt: Receipt, orgNo: string)
    requires heard <= more && AnswerHeard(heard, receipt, orgNo)
    ensures AnswerHeard(more, receipt, orgNo)
  {
    hide Fits;
    var r :| Answer(receipt.id, r, receipt.recordedAt) in heard
             && Fits(r, receipt.disposition, receipt.brokerOrderId, receipt.errorCode, orgNo);
    assert Answer(receipt.id, r, receipt.recordedAt) in more;
  }

  lemma PlacerHeardMore(heard: iset<Claim>, more: iset<Claim>, pc: PlacePc)
    requires heard <= more && PlacerHeard(heard, pc)
    ensures PlacerHeard(more, pc)
  {
    if pc.Finalizing? {
      AnswerHeardMore(heard, more, pc.receipt, pc.orgNo);
    }
  }

  lemma RowsHeardMore(before: Db, db: Db, heard: iset<Claim>, more: iset<Claim>)
    requires heard <= more && RowsHeard(before, db, heard)
    ensures RowsHeard(before, db, more)
  {
    forall id | id in db.commands && db.commands[id].phase == Final
      ensures (id in before.commands && before.commands[id] == db.commands[id]) || RowHeard(more, id, db.commands[id])
    {
      if !(id in before.commands && before.commands[id] == db.commands[id]) {
        RowHeardMore(heard, more, id, db.commands[id]);
      }
    }
  }

  /** A step of a placement writes what it was about to, and is about to write what it just heard. */
  lemma PlacingHeard(before: Db, w: World, e: Event, heard: iset<Claim>)
    requires e.Turn? && e.pid in w.callers && w.callers[e.pid].Placing?
    requires RowsHeard(before, w.db, heard) && PlacerHeard(heard, w.callers[e.pid].place)
    requires forall claim | Says(w, e, claim) :: claim in heard
    ensures var s := ExecPlace(w.db, w.now, w.callers[e.pid].place, e.input, e.fault);
            RowsHeard(before, s.db, heard) && PlacerHeard(heard, s.pc)
  {
    hide RowHeard, AnswerHeard;
    var pc := w.callers[e.pid].place;
    match pc {
      case Awaiting(cmd) =>
        if e.input.Sent? {
          assert Says(w, e, Answer(cmd.id, e.input.result, w.now));
          HeardFits(heard, cmd.id, e.input.result, w.now);
        }
      case Judging(cmd) =>
        if e.input.Judged? && e.input.verdict.Rejected? {
          assert Says(w, e, Denial(cmd.id, e.input.verdict.code, w.now));
        }
      case Finalizing(receipt, orgNo) => FinalizedHeard(heard, w.db, receipt, orgNo);
      case Rejecting(receipt) => DeniedHeard(heard, receipt);
      case _ =>
    }
  }

  lemma HeardFits(heard: iset<Claim>, id: Id, r: BrokerResult, now: Time)
    requires Answer(id, r, now) in heard
    ensures var receipt := ReceiptFor(id, r, now);
            AnswerHeard(heard, receipt, if receipt.disposition == Accepted then r.orgNo else "")
  {
    var receipt := ReceiptFor(id, r, now);
    assert Fits(r, receipt.disposition, receipt.brokerOrderId, receipt.errorCode,
                if receipt.disposition == Accepted then r.orgNo else "");
  }

  lemma FinalizedHeard(heard: iset<Claim>, db: Db, receipt: Receipt, orgNo: string)
    requires AnswerHeard(heard, receipt, orgNo)
    ensures var after := FinalizePending(db, receipt, orgNo).0;
            FinalizePending(db, receipt, orgNo).1 ==> RowHeard(heard, receipt.id, after.commands[receipt.id])
  {
  }

  lemma DeniedHeard(heard: iset<Claim>, receipt: Receipt)
    requires DenialHeard(heard, receipt)
    ensures RowHeard(heard, receipt.id, CommandRow(receipt.disposition, receipt.brokerOrderId, receipt.errorCode,
                                                   receipt.recordedAt, Final, KISMock, ""))
  {
  }

  lemma CancellingKeepsRows(db: Db, now: Time, pc: CancelPc, input: Input, fault: Fault)
    ensures var after := ExecCancel(db, now, pc, input, fault).db;
            after.commands == db.commands && after.resolutions == db.resolutions
  {
  }

  lemma ResolvingKeepsRows(db: Db, now: Time, pc: ResolvePc, input: Input, fault: Fault)
    ensures var after := ExecResolve(db, now, pc, input, fault).db;
            after.commands == db.commands && after.cancels == db.cancels
  {
    hide Judge, ValidResolution;
  }

  lemma PlacingKeepsOthers(db: Db, now: Time, pc: PlacePc, input: Input, fault: Fault)
    ensures var after := ExecPlace(db, now, pc, input, fault).db;
            after.resolutions == db.resolutions && after.cancels == db.cancels
  {
  }

  lemma PlacementsHeardStep(before: Db, w: World, e: Event, heard: iset<Claim>, more: iset<Claim>)
    requires PlacementsHeard(before, w, heard) && heard <= more
    requires forall claim | Says(w, e, claim) :: claim in more
    ensures PlacementsHeard(before, Next(w, e), more)
  {
    hide ExecPlace, ExecCancel, ExecResolve, RowsHeard, PlacerHeard, Says;
    var v := Next(w, e);
    RowsHeardMore(before, w.db, heard, more);
    forall p | p in w.callers && w.callers[p].Placing? ensures PlacerHeard(more, w.callers[p].place) {
      PlacerHeardMore(heard, more, w.callers[p].place);
    }
    if e.Turn? && e.pid in w.callers {
      match w.callers[e.pid] {
        case Placing(pc) => PlacingHeard(before, w, e, more);
        case Cancelling(pc) =>
          CancellingKeepsRows(w.db, w.now, pc, e.input, e.fault);
          SameRowsHeard(before, w.db, v.db, more);
        case Resolving(pc) =>
          ResolvingKeepsRows(w.db, w.now, pc, e.input, e.fault);
          SameRowsHeard(before, w.db, v.db, more);
      }
    } else if e.Begin? {
      NewcomerHeard(e.call, w.now, more);
    }
  }

  lemma SameRowsHeard(before: Db, a: Db, b: Db, heard: iset<Claim>)
    requires RowsHeard(before, a, heard) && a.commands == b.commands
    ensures RowsHeard(before, b, heard)
  {
  }

  lemma NewcomerHeard(call: Call, now: Time, heard: iset<Claim>)
    ensures Start(call, now).Placing? ==> PlacerHeard(heard, Start(call, now).place)
  {
  }

  lemma {:induction false} RunPlacementsHeard(w: World, events: seq<Event>)
    requires w.callers == map[]
    ensures PlacementsHeard(w.db, Run(w, events), AllHeard(w, events))
  {
    hide RowHeard, PlacerHeard, Next, AllHeard;
    if events != [] {
      var front, last := events[..|events| - 1], events[|events| - 1];
      RunPlacementsHeard(w, front);
      HeardMore(w, front, last);
      assert front + [last] == events;
      PlacementsHeardStep(w.db, Run(w, front), last, AllHeard(w, front), AllHeard(w, events));
    }
  }

  predicate SameRow(before: Db, db: Db, id: Id)
    requires id in db.commands
  {
    id in before.commands && before.commands[id] == db.commands[id]
  }

  /** The row is what the broker answered to a send of the command, or the code it was denied with. */
  ghost predicate FinalRowSaid(w: World, events: seq<Event>, id: Id, row: CommandRow) {
    || (exists r: BrokerResult ::
          && Heard(w, events, Answer(id, r, row.recordedAt))
          && Fits(r, row.disposition, row.brokerOrderId, row.errorCode, row.orgNo))
    || (Heard(w, events, Denial(id, row.errorCode, row.recordedAt))
        && row == CommandRow(NotCreated, "", row.errorCode, row.recordedAt, Final, KISMock, ""))
  }

  /** Over every run, each final commands row that was not there before is, in its whole content, what
      the broker answered to a send of that command, or the code it was denied with before any send. */
  lemma FinalRowsWereSaid(w: World, events: seq<Event>, id: Id)
    requires Init(w)
    requires var db := Run(w, events).db;
             id in db.commands && db.commands[id].phase == Final && !SameRow(w.db, db, id)
    ensures FinalRowSaid(w, events, id, Run(w, events).db.commands[id])
  {
    RunPlacementsHeard(w, events);
    hide Run, Heard, Fits;
    var row := Run(w, events).db.commands[id];
    assert RowHeard(AllHeard(w, events), id, row);
  }

  // ----- cancellations -----

  /** The state and the code that an answer of the broker to a cancel comes to. */
  predicate CancelFits(said: Option<CancelState>, code: string, state: CancelState, recorded: string) {
    match said
    case Some(Cancelled) => state == Cancelled && recorded == code
    case Some(CancelNotFound) => state == CancelNotFound && recorded == if code == "" then "cancel_not_found" else code
    case _ => state == CancelUnknown && recorded == if code == "" then "broker_unknown" else code
  }

  ghost predicate CancelHeard(heard: iset<Claim>, receipt: CancelReceipt) {
    exists said: Option<CancelState>, code: string ::
      CancelAnswer(receipt.id, said, code, receipt.recordedAt) in heard
      && CancelFits(said, code, receipt.state, receipt.errorCode)
  }

  ghost predicate CancellerHeard(heard: iset<Claim>, pc: CancelPc) {
    match pc
    case CancelReserving(_, receipt) => receipt.state == CancelUnknown && receipt.errorCode == "cancel_send_pending"
    case CancelFinalizing(receipt) => CancelHeard(heard, receipt)
    case _ => true
  }

  /** A cancel row is the marker of an attempt, or what the broker answered to it. */
  ghost predicate CancelRowHeard(heard: iset<Claim>, id: Id, row: CancelRow) {
    (row.state == CancelUnknown && row.errorCode == "cancel_send_pending")
    || CancelHeard(heard, CancelReceipt(id, row.state, row.errorCode, row.recordedAt))
  }

  ghost predicate CancelsHeard(before: Db, v: World, heard: iset<Claim>) {
    && (forall p | p in v.callers && v.callers[p].Cancelling? :: CancellerHeard(heard, v.callers[p].cancel))
    && (forall id | id in v.db.cancels ::
          (id in before.cancels && before.cancels[id] == v.db.cancels[id])
          || CancelRowHeard(heard, id, v.db.cancels[id]))
  }

  lemma CancelHeardMore(heard: iset<Claim>, more: iset<Claim>, receipt: CancelReceipt)
    requires heard <= more
    ensures CancelHeard(heard, receipt) ==> CancelHeard(more, receipt)
  {
    hide CancelFits;
    if said: Option<CancelState>, code: string :|
      CancelAnswer(receipt.id, said, code, receipt.recordedAt) in heard
      && CancelFits(said, code, receipt.state, receipt.errorCode)
    {
      assert CancelAnswer(receipt.id, said, code, receipt.recordedAt) in more;
    }
  }

  lemma CancelAnswered(heard: iset<Claim>, id: Id, said: Option<CancelState>, code: string, now: Time)
    requires CancelAnswer(id, said, code, now) in heard
    ensures CancelHeard(heard, CancelReceiptFor(id, said, code, now))
  {
    var receipt := CancelReceiptFor(id, said, code, now);
    assert CancelFits(said, code, receipt.state, receipt.errorCode);
  }

  lemma CancelsHeardMore(before: Db, w: World, heard: iset<Claim>, more: iset<Claim>)
    requires CancelsHeard(before, w, heard) && heard <= more
    ensures CancelsHeard(before, w, more)
  {
    hide CancelHeard;
    forall receipt: CancelReceipt ensures CancelHeard(heard, receipt) ==> CancelHeard(more, receipt) {
      CancelHeardMore(heard, more, receipt);
    }
  }

  lemma CancelsHeardStep(before: Db, w: World, e: Event, heard: iset<Claim>)
    requires CancelsHeard(before, w, heard)
    requires forall claim | Says(w, e, claim) :: claim in heard
    ensures CancelsHeard(before, Next(w, e), heard)
  {
    hide CancelHeard, ExecPlace, ExecResolve;
    if e.Turn? && e.pid in w.callers {
      match w.callers[e.pid] {
        case Placing(pc) => PlacingKeepsOthers(w.db, w.now, pc, e.input, e.fault);
        case Resolving(pc) => ResolvingKeepsRows(w.db, w.now, pc, e.input, e.fault);
        case Cancelling(pc) =>
          if pc.CancelAwaiting? && e.input.CancelSent? {
            assert Says(w, e, CancelAnswer(pc.target.id, e.input.state, e.input.errorCode, w.now));
            CancelAnswered(heard, pc.target.id, e.input.state, e.input.errorCode, w.now);
          }
      }
    }
  }

  lemma {:induction false} RunCancelsHeard(w: World, events: seq<Event>)
    requires w.callers == map[]
    ensures CancelsHeard(w.db, Run(w, events), AllHeard(w, events))
  {
    hide CancelRowHeard, CancellerHeard, Next, AllHeard, Says;
    if events != [] {
      var front, last := events[..|events| - 1], events[|events| - 1];
      RunCancelsHeard(w, front);
      HeardMore(w, front, last);
      assert front + [last] == events;
      CancelsHeardMore(w.db, Run(w, front), AllHeard(w, front), AllHeard(w, events));
      CancelsHeardStep(w.db, Run(w, front), last, AllHeard(w, events));
    }
  }

  predicate SameCancel(before: Db, db: Db, id: Id)
    requires id in db.cancels
  {
    id in before.cancels && before.cancels[id] == db.cancels[id]
  }

  /** The broker answered the cancel of the command with exactly the state of the row. */
  ghost predicate CancelSaid(w: World, events: seq<Event>, id: Id, row: CancelRow) {
    exists code :: Heard(w, events, CancelAnswer(id, Some(row.state), code, row.recordedAt))
                   && (row.errorCode == code
                       || (row.state == CancelNotFound && code == "" && row.errorCode == "cancel_not_found"))
  }

  /** Over every run, each cancel row that says CANCELLED or NOT_FOUND and was not there before is what
      the broker answered to the cancel of that command, state, code and time. */
  lemma CancelStatesWereSaid(w: World, events: seq<Event>, id: Id)
    requires Init(w)
    requires var db := Run(w, events).db;
             id in db.cancels && db.cancels[id].state != CancelUnknown && !SameCancel(w.db, db, id)
    ensures CancelSaid(w, events, id, Run(w, events).db.cancels[id])
  {
    RunCancelsHeard(w, events);
    hide Run, Heard;
    var row := Run(w, events).db.cancels[id];
    assert CancelRowHeard(AllHeard(w, events), id, row);
    var said, code :| CancelAnswer(id, said, code, row.recordedAt) in AllHeard(w, events)
                      && CancelFits(said, code, row.state, row.errorCode);
    assert said == Some(row.state);
  }
  // ----- resolutions -----

  predicate SaysAbsent(row: Resolution, since: Time) {
    row.disposition == NotCreated && row.brokerOrderId == "" && row.errorCode == "resolved_absent"
    && row.resolvedAt >= since
  }

  predicate SaysAccepted(row: Resolution, oid: string) {
    row.disposition == Accepted && row.brokerOrderId == oid && row.errorCode == ""
  }

  /** The evidence entitles a resolver with these settings to the row: the one order of the day that
      matches, or the order found by the client order id; or an absence, late enough, of any. */
  ghost predicate Justifies(item: Item, evidence: Evidence, grace: Time, window: Time, row: Resolution) {
    match evidence
    case Unread => false
    case DayOrders(orders) =>
      && (item.scope == KISMock || item.scope == KISMockUS)
      && ((exists k: nat :: OnlyMatch(item, orders, window, k) && SaysAccepted(row, orders[k].brokerOrderId))
          || (NoneMatches(item, orders, window) && (item.contextPresent || orders == [])
              && SaysAbsent(row, item.sentAt + grace)))
    case ClientOrder(found, oid) =>
      && item.scope == AlpacaPaperCrypto && item.contextPresent && item.clientOrderId == item.id
      && if found && oid != "" then SaysAccepted(row, oid) else SaysAbsent(row, item.sentAt + grace)
  }

  ghost predicate ResolutionHeard(heard: iset<Claim>, item: Item, row: Resolution) {
    exists evidence: Evidence, grace: Time, window: Time ::
      Read(KeyOf(item), evidence) in heard && Settings(grace, window) in heard
      && Justifies(item, evidence, grace, window, row)
  }

  /** What a resolver works from was heard, and what it is about to append is justified by it. */
  ghost predicate ResolverHeard(heard: iset<Claim>, now: Time, pc: ResolvePc) {
    && (PlanOf(pc).Some? ==> Settings(PlanOf(pc).value.grace, PlanOf(pc).value.window) in heard)
    && (forall i | 0 <= i < |Holding(pc).1| :: Read(KeyOf(Holding(pc).1[i]), Holding(pc).0) in heard)
    && (pc.Appending? && pc.items != [] && pc.conclusion != Leave ==>
          Justifies(pc.items[0], pc.evidence, pc.plan.grace, pc.plan.window, RowFor(pc.conclusion, now)))
  }

  ghost predicate ResolutionsHeard(before: Db, db: Db, heard: iset<Claim>) {
    forall id | id in db.resolutions ::
      (id in before.resolutions && before.resolutions[id] == db.resolutions[id])
      || (id in db.commands && ResolutionHeard(heard, PendingItem(db, id), db.resolutions[id]))
  }

  ghost predicate ResolversHeard(before: Db, v: World, heard: iset<Claim>) {
    && ResolutionsHeard(before, v.db, heard)
    && forall p | p in v.callers && v.callers[p].Resolving? :: ResolverHeard(heard, v.now, v.callers[p].resolve)
  }

  /** Later and with more heard, everything still is. */
  lemma ResolutionHeardMore(heard: iset<Claim>, more: iset<Claim>, item: Item, row: Resolution)
    requires heard <= more && ResolutionHeard(heard, item, row)
    ensures ResolutionHeard(more, item, row)
  {
    hide Justifies, KeyOf;
    var evidence, grace, window :| Read(KeyOf(item), evidence) in heard && Settings(grace, window) in heard
                                   && Justifies(item, evidence, grace, window, row);
    assert Read(KeyOf(item), evidence) in more && Settings(grace, window) in more;
  }

  lemma ResolverHeardMore(heard: iset<Claim>, more: iset<Claim>, now: Time, later: Time, pc: ResolvePc)
    requires heard <= more && now <= later && ResolverHeard(heard, now, pc)
    ensures ResolverHeard(more, later, pc)
  {
    hide OnlyMatch, NoneMatches, KeyOf;
    if pc.Appending? && pc.items != [] && pc.conclusion != Leave {
      JustifiedLater(pc.items[0], pc.evidence, pc.plan.grace, pc.plan.window, pc.conclusion, now, later);
    }
  }

  lemma JustifiedLater(item: Item, evidence: Evidence, grace: Time, window: Time, c: Conclusion, now: Time, later: Time)
    requires c != Leave && now <= later && Justifies(item, evidence, grace, window, RowFor(c, now))
    ensures Justifies(item, evidence, grace, window, RowFor(c, later))
  {
    hide Matches, NoneMatches;
    if evidence.DayOrders? {
      if k: nat :| OnlyMatch(item, evidence.orders, window, k)
                   && SaysAccepted(RowFor(c, now), evidence.orders[k].brokerOrderId) {
        assert SaysAccepted(RowFor(c, later), evidence.orders[k].brokerOrderId);
      }
    }
  }

  /** Whatever a resolver concludes is justified by the evidence it has. */
  lemma ConclusionsAreJustified(item: Item, evidence: Evidence, now: Time, grace: Time, window: Time, single: bool)
    requires var c := Judge(item, evidence, now, grace, window, single); c != Leave
    ensures Justifies(item, evidence, grace, window, RowFor(Judge(item, evidence, now, grace, window, single), now))
  {
    if evidence.DayOrders? {
      DayDecides(item, evidence.orders, now, grace, window, single);
      ListingCases(item, evidence.orders, window);
      hide Judge, OnlyMatch, NoneMatches, TwoMatch;
      if k: nat :| OnlyMatch(item, evidence.orders, window, k) {
        var row := RowFor(Judge(item, evidence, now, grace, window, single), now);
        assert SaysAccepted(row, evidence.orders[k].brokerOrderId);
      }
    }
  }

  /** What a command's item is does not change, with a context or without. */
  lemma ItemStays(w: World, e: Event, id: Id)
    requires Inv(w) && id in w.db.commands
    ensures id in Next(w, e).db.commands && PendingItem(Next(w, e).db, id) == PendingItem(w.db, id)
  {
    var v := Next(w, e);
    NextGrows(w, e);
    assert GrowsAt(w.db, v.db, id);
    if id in w.db.contexts {
      ContextFixesItem(w, e, id);
    } else if e.Turn? && e.pid in w.callers {
      assert CallerOk(w, w.callers[e.pid]);
      hide ExecPlace, ExecCancel, ExecResolve, GrowsAt;
      match w.callers[e.pid] {
        case Placing(pc) =>
          PlaceDb(w.db, w.now, pc, e.input, e.fault, w.sends);
          NoEmptyId(w.db);
          assert LeavesAt(w.db, v.db, TouchedBy(pc), "", id);
        case Cancelling(pc) => CancellingKeepsRows(w.db, w.now, pc, e.input, e.fault);
        case Resolving(pc) => ResolvingKeepsRows(w.db, w.now, pc, e.input, e.fault);
      }
    }
  }

  lemma ResolvingHeard(w: World, e: Event, heard: iset<Claim>)
    requires e.Turn? && e.pid in w.callers && w.callers[e.pid].Resolving? && ResolveOk(w.db, w.callers[e.pid].resolve)
    requires ResolverHeard(heard, w.now, w.callers[e.pid].resolve)
    requires forall claim | Says(w, e, claim) :: claim in heard
    ensures ResolverHeard(heard, w.now, ExecResolve(w.db, w.now, w.callers[e.pid].resolve, e.input, e.fault).pc)
  {
    hide Judge, Justifies, KeyOf, AppendResolution, ValidResolution, ItemOk;
    var pc := w.callers[e.pid].resolve;
    var (evidence, items) := Holding(pc);
    assert forall i | 0 <= i < |items| - 1 :: items[1..][i] == items[i + 1];
    match pc {
      case Reading(key, items, todo, plan) =>
        if e.input.Answered? {
          assert Says(w, e, Read(key, e.input.evidence));
        }
      case Concluding(evidence, items, todo, plan) =>
        if items != [] {
          var c := Judge(items[0], evidence, w.now, plan.grace, plan.window, plan.single.Some?);
          if c != Leave {
            ConclusionsAreJustified(items[0], evidence, w.now, plan.grace, plan.window, plan.single.Some?);
          }
        }
      case _ =>
    }
  }

  /** A row that is new after a step is the one a resolver was about to append. */
  lemma NewResolutionHeard(w: World, e: Event, heard: iset<Claim>, id: Id)
    requires Inv(w) && id in Next(w, e).db.resolutions && id !in w.db.resolutions
    requires forall p | p in w.callers && w.callers[p].Resolving? :: ResolverHeard(heard, w.now, w.callers[p].resolve)
    ensures id in w.db.commands && ResolutionHeard(heard, PendingItem(w.db, id), Next(w, e).db.resolutions[id])
  {
    hide Justifies, KeyOf, ExecPlace, ExecCancel, Judge;
    assert CallerOk(w, w.callers[e.pid]);
    match w.callers[e.pid] {
      case Placing(pc) => PlacingKeepsOthers(w.db, w.now, pc, e.input, e.fault);
      case Cancelling(pc) => CancellingKeepsRows(w.db, w.now, pc, e.input, e.fault);
      case Resolving(pc) =>
        assert ItemOk(w.db, pc.items[0]) && Holding(pc).1[0] == pc.items[0];
        assert Read(KeyOf(pc.items[0]), pc.evidence) in heard;
    }
  }

  lemma ResolversHeardStep(before: Db, w: World, e: Event, heard: iset<Claim>, more: iset<Claim>)
    requires Inv(w) && ResolversHeard(before, w, heard) && heard <= more
    requires forall claim | Says(w, e, claim) :: claim in more
    ensures ResolversHeard(before, Next(w, e), more)
  {
    hide ExecPlace, ExecCancel, ExecResolve, ResolverHeard, ResolutionHeard, PendingItem;
    var v := Next(w, e);
    NextGrows(w, e);
    forall p | p in w.callers && w.callers[p].Resolving? ensures ResolverHeard(more, v.now, w.callers[p].resolve) {
      ResolverHeardMore(heard, more, w.now, v.now, w.callers[p].resolve);
    }
    forall id | id in v.db.resolutions
      ensures (id in before.resolutions && before.resolutions[id] == v.db.resolutions[id])
              || (id in v.db.commands && ResolutionHeard(more, PendingItem(v.db, id), v.db.resolutions[id]))
    {
      ResolutionStands(before, w, e, heard, more, id);
    }
    if e.Turn? && e.pid in w.callers && w.callers[e.pid].Resolving? {
      assert CallerOk(w, w.callers[e.pid]);
      ResolvingHeard(w, e, more);
    } else if e.Begin? {
      NewResolverHeard(w, e, more);
    }
  }

  lemma ResolutionStands(before: Db, w: World, e: Event, heard: iset<Claim>, more: iset<Claim>, id: Id)
    requires Inv(w) && ResolversHeard(before, w, heard) && heard <= more && id in Next(w, e).db.resolutions
    ensures var db := Next(w, e).db;
            (id in before.resolutions && before.resolutions[id] == db.resolutions[id])
            || (id in db.commands && ResolutionHeard(more, PendingItem(db, id), db.resolutions[id]))
  {
    hide Next, ResolverHeard, ResolutionHeard, PendingItem;
    NextGrows(w, e);
    assert GrowsAt(w.db, Next(w, e).db, id);
    if id in w.db.resolutions {
      if !(id in before.resolutions && before.resolutions[id] == w.db.resolutions[id]) {
        ItemStays(w, e, id);
        ResolutionHeardMore(heard, more, PendingItem(w.db, id), w.db.resolutions[id]);
      }
    } else {
      NewResolutionHeard(w, e, heard, id);
      ItemStays(w, e, id);
      ResolutionHeardMore(heard, more, PendingItem(w.db, id), Next(w, e).db.resolutions[id]);
    }
  }

  lemma NewResolverHeard(w: World, e: Event, heard: iset<Claim>)
    requires e.Begin? && forall claim | Says(w, e, claim) :: claim in heard
    ensures Start(e.call, w.now).Resolving? ==> ResolverHeard(heard, w.now, Start(e.call, w.now).resolve)
  {
    if e.call.ResolveOne? || e.call.ResolveAll? {
      var plan := PlanFor(e.call.grace, e.call.window);
      assert Says(w, e, Settings(plan.grace, plan.window));
    }
  }

  lemma {:induction false} RunResolversHeard(w: World, events: seq<Event>)
    requires Init(w)
    ensures ResolversHeard(w.db, Run(w, events), AllHeard(w, events))
  {
    hide ResolutionHeard, ResolverHeard, Next, AllHeard, Says, Inv, PendingItem;
    if events != [] {
      var front, last := events[..|events| - 1], events[|events| - 1];
      RunResolversHeard(w, front);
      InitHolds(w);
      RunKeeps(w, front);
      HeardMore(w, front, last);
      assert front + [last] == events;
      ResolversHeardStep(w.db, Run(w, front), last, AllHeard(w, front), AllHeard(w, events));
    }
  }

  predicate SameResolution(before: Db, db: Db, id: Id)
    requires id in db.resolutions
  {
    id in before.resolutions && before.resolutions[id] == db.resolutions[id]
  }

  /** A read that was completed for the command's key justifies the row, under settings of some call. */
  ghost predicate ResolutionSaid(w: World, events: seq<Event>, db: Db, id: Id) {
    id in db.commands && id in db.resolutions
    && exists evidence: Evidence, grace: Time, window: Time ::
         && Heard(w, events, Read(KeyOf(PendingItem(db, id)), evidence))
         && Heard(w, events, Settings(grace, window))
         && Justifies(PendingItem(db, id), evidence, grace, window, db.resolutions[id])
  }

  /** Over every run, each resolution row that was not there before is justified by a read that was
      completed for that command's key, under the settings of a call that was made: an acceptance by the
      one matching order of the day, or the order found; an absence by there being none, no earlier than
      the grace after the send. */
  lemma ResolutionsWereSaid(w: World, events: seq<Event>, id: Id)
    requires Init(w)
    requires var db := Run(w, events).db;
             id in db.resolutions && !SameResolution(w.db, db, id)
    ensures ResolutionSaid(w, events, Run(w, events).db, id)
  {
    RunResolversHeard(w, events);
    hide Run, Heard, Justifies, KeyOf, PendingItem;
    var db := Run(w, events).db;
    var item, row := PendingItem(db, id), db.resolutions[id];
    assert ResolutionHeard(AllHeard(w, events), item, row);
    var evidence, grace, window :| Read(KeyOf(item), evidence) in AllHeard(w, events)
                                   && Settings(grace, window) in AllHeard(w, events)
                                   && Justifies(item, evidence, grace, window, row);
    assert Heard(w, events, Read(KeyOf(item), evidence)) && Heard(w, events, Settings(grace, window));
  }
}
