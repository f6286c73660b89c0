/**
 * Every caller of the shared tables as a program counter with locals, and the whole system
 * as a deterministic function of an event: whose turn it is, what the outside answered, and
 * whether the statement failed. A sequence of events is one interleaving, crashes included.
 */
module Protocol {
  import opened Contracts
  import opened Tables
  import opened Evidence

  type Pid = nat

  /** A statement may run, be refused with an error, or commit and still report an error. */
  datatype Fault = Fine | Refused | Lost

  datatype BrokerResult = BrokerResult(accepted: bool, brokerOrderId: string, errorCode: string, orgNo: string)

  datatype Verdict = Prepared | Rejected(code: string)

  /** What the outside hands a caller at the step that asks for it. */
  datatype Input =
    | Nothing
    | Judged(verdict: Verdict)
    | Sent(result: BrokerResult)
    | CancelSent(state: Option<CancelState>, errorCode: string)
    | Answered(evidence: Evidence)
    | Chosen(key: EvidenceKey)

  // ----- placement: Service.Process -----

  datatype PlacePc =
    | Looking(cmd: Command)
    | Judging(cmd: Command)
    | Rejecting(receipt: Receipt)
    | RejectReading(receipt: Receipt)
    | Reserving(cmd: Command, receipt: Receipt)
    | ReserveReading(id: Id)
    | Sending(cmd: Command)
    | Awaiting(cmd: Command)
    | Finalizing(receipt: Receipt, orgNo: string)
    | FinalReading(receipt: Receipt)
      /** `overruled` records that Finalize landed on a row already resolved to another outcome. */
    | Replied(receipt: Receipt, failed: bool, overruled: bool)
      /** Answered before the tables were consulted. */
    | Unstored(receipt: Receipt)

  datatype PlaceStep = PlaceStep(db: Db, pc: PlacePc, sent: Option<Command>)

  function StorageFailure(id: Id, now: Time): PlacePc {
    Replied(Receipt(id, NotCreated, "", STORAGE_FAILURE, now), true, false)
  }

  function StartPlace(cmd: Command, now: Time): PlacePc {
    if cmd.scope == KISLive || !ValidCommandId(cmd.id) then
      Unstored(Receipt(cmd.id, NotCreated, "", INVALID_COMMAND, now))
    else Looking(cmd)
  }

  /** Service.finalize's receipt for the broker's answer. */
  function ReceiptFor(id: Id, r: BrokerResult, now: Time): Receipt {
    if r.accepted && r.brokerOrderId != "" then Receipt(id, Accepted, r.brokerOrderId, "", now)
    else Receipt(id, Unknown, "", if r.errorCode == "" then BROKER_UNKNOWN else r.errorCode, now)
  }

  /** The read that follows a write which affected no row. */
  function ReadBack(db: Db, id: Id, fault: Fault, otherwise: PlacePc): PlacePc {
    var found := Effective(db, id);
    if fault != Fine || found.None? then otherwise else Replied(found.value, false, false)
  }

  function ExecPlace(db: Db, now: Time, pc: PlacePc, input: Input, fault: Fault): PlaceStep {
    match pc
    case Looking(cmd) =>
      if fault != Fine then PlaceStep(db, StorageFailure(cmd.id, now), None)
      else
        var found := Effective(db, cmd.id);
        PlaceStep(db, if found.Some? then Replied(found.value, false, false) else Judging(cmd), None)
    case Judging(cmd) =>
      (match input
       case Judged(Rejected(code)) =>
         PlaceStep(db, Rejecting(Receipt(cmd.id, NotCreated, "", code, now)), None)
       case Judged(Prepared) =>
         PlaceStep(db, Reserving(cmd, Receipt(cmd.id, Unknown, "", SEND_PENDING, now)), None)
       case _ => PlaceStep(db, pc, None))
    case Rejecting(receipt) =>
      if fault == Refused then PlaceStep(db, Replied(receipt, true, false), None)
      else
        var (after, inserted) := InsertFinal(db, receipt);
        PlaceStep(after,
                  if fault == Lost then Replied(receipt, true, false)
                  else if inserted then Replied(receipt, false, false)
                  else RejectReading(receipt), None)
    case RejectReading(receipt) =>
      PlaceStep(db, ReadBack(db, receipt.id, fault, Replied(receipt, true, false)), None)
    case Reserving(cmd, receipt) =>
      if fault == Refused || !PlaceableScope(cmd.scope) then PlaceStep(db, StorageFailure(cmd.id, now), None)
      else
        var (after, inserted) := Tables.ReservePending(db, receipt, cmd);
        PlaceStep(after,
                  if fault == Lost then StorageFailure(cmd.id, now)
                  else if inserted then Sending(cmd)
                  else ReserveReading(cmd.id), None)
    case ReserveReading(id) =>
      PlaceStep(db, ReadBack(db, id, fault, StorageFailure(id, now)), None)
    case Sending(cmd) =>
      PlaceStep(db, Awaiting(cmd), Some(cmd))
    case Awaiting(cmd) =>
      (match input
       case Sent(r) =>
         var receipt := ReceiptFor(cmd.id, r, now);
         PlaceStep(db, Finalizing(receipt, if receipt.disposition == Accepted then r.orgNo else ""), None)
       case _ => PlaceStep(db, pc, None))
    case Finalizing(receipt, orgNo) =>
      if fault == Refused then PlaceStep(db, Replied(receipt, true, false), None)
      else
        var (after, updated) := FinalizePending(db, receipt, orgNo);
        PlaceStep(after,
                  if fault == Lost then Replied(receipt, true, false)
                  else if updated then Replied(receipt, false, Contradicted(db, receipt))
                  else FinalReading(receipt), None)
    case FinalReading(receipt) =>
      PlaceStep(db, ReadBack(db, receipt.id, fault, Replied(receipt, true, false)), None)
    case Replied(_, _, _) => PlaceStep(db, pc, None)
    case Unstored(_) => PlaceStep(db, pc, None)
  }

  predicate ResolvedAbsent(db: Db, id: Id) {
    id in db.resolutions && db.resolutions[id].disposition == NotCreated
  }

  // ----- cancellation: Service.Cancel -----

  datatype CancelPc =
    | AttemptLooking(id: Id)
    | TargetLooking(id: Id)
    | Preparing(target: Target)
    | CancelReserving(target: Target, receipt: CancelReceipt)
    | CancelReserveReading(id: Id)
    | CancelSending(target: Target)
    | CancelAwaiting(target: Target)
    | CancelFinalizing(receipt: CancelReceipt)
    | CancelFinalReading(id: Id)
    | CancelReplied(receipt: CancelReceipt)
      /** An error, or a target that is not eligible. */
    | CancelFailed

  datatype CancelStep = CancelStep(db: Db, pc: CancelPc, sent: Option<Target>)

  /** Cancel's receipt for the broker's answer, invalid states folded into UNKNOWN. */
  function CancelReceiptFor(id: Id, state: Option<CancelState>, code: string, now: Time): CancelReceipt {
    var s := if state.Some? then state.value else CancelUnknown;
    CancelReceipt(id, s,
                  if code != "" || s == Cancelled then code
                  else if s == CancelNotFound then CANCEL_NOT_FOUND else BROKER_UNKNOWN, now)
  }

  function ReadAttempt(db: Db, id: Id, fault: Fault): CancelPc {
    var found := FindCancel(db, id);
    if fault != Fine || found.None? then CancelFailed else CancelReplied(found.value)
  }

  function ExecCancel(db: Db, now: Time, pc: CancelPc, input: Input, fault: Fault): CancelStep {
    match pc
    case AttemptLooking(id) =>
      if fault != Fine then CancelStep(db, CancelFailed, None)
      else
        var found := FindCancel(db, id);
        CancelStep(db, if found.Some? then CancelReplied(found.value) else TargetLooking(id), None)
    case TargetLooking(id) =>
      var found := CancelTarget(db, id);
      CancelStep(db, if fault != Fine || found.None? then CancelFailed else Preparing(found.value), None)
    case Preparing(target) =>
      (match input
       case Judged(Prepared) =>
         var receipt := CancelReceipt(target.id, CancelUnknown, CANCEL_SEND_PENDING, now);
         CancelStep(db, CancelReserving(target, receipt), None)
       case Judged(Rejected(_)) => CancelStep(db, CancelFailed, None)
       case _ => CancelStep(db, pc, None))
    case CancelReserving(target, receipt) =>
      if fault == Refused then CancelStep(db, CancelFailed, None)
      else
        var (after, inserted) := Tables.ReserveCancel(db, receipt);
        CancelStep(after,
                   if fault == Lost then CancelFailed
                   else if inserted then CancelSending(target)
                   else CancelReserveReading(target.id), None)
    case CancelReserveReading(id) =>
      CancelStep(db, ReadAttempt(db, id, fault), None)
    case CancelSending(target) =>
      CancelStep(db, CancelAwaiting(target), Some(target))
    case CancelAwaiting(target) =>
      (match input
       case CancelSent(state, code) =>
         CancelStep(db, CancelFinalizing(CancelReceiptFor(target.id, state, code, now)), None)
       case _ => CancelStep(db, pc, None))
    case CancelFinalizing(receipt) =>
      if fault == Refused then CancelStep(db, CancelFailed, None)
      else
        var (after, updated) := Tables.FinalizeCancel(db, receipt);
        CancelStep(after,
                   if fault == Lost then CancelFailed
                   else if updated then CancelReplied(receipt)
                   else CancelFinalReading(receipt.id), None)
    case CancelFinalReading(id) =>
      CancelStep(db, ReadAttempt(db, id, fault), None)
    case CancelReplied(_) => CancelStep(db, pc, None)
    case CancelFailed => CancelStep(db, pc, None)
  }

  // ----- resolution: Resolver.ResolveOne and Resolver.Resolve -----

  /** A run's settings; `single` holds the receipt ResolveOne read first. */
  datatype Plan = Plan(grace: Time, window: Time, single: Option<Receipt>)

  datatype ResolvePc =
    | Finding(id: Id, plan: Plan)
    | Fetching(id: Id, plan: Plan)
    | FetchingKIS(plan: Plan)
    | FetchingAlpaca(todo: seq<Item>, plan: Plan)
    | Choosing(todo: seq<Item>, plan: Plan)
    | Reading(key: EvidenceKey, items: seq<Item>, todo: seq<Item>, plan: Plan)
    | Concluding(evidence: Evidence, items: seq<Item>, todo: seq<Item>, plan: Plan)
    | Appending(conclusion: Conclusion, evidence: Evidence, items: seq<Item>, todo: seq<Item>, plan: Plan)
    | Confirming(id: Id, evidence: Evidence, items: seq<Item>, todo: seq<Item>, plan: Plan)
      /** ResolveOne's answer about a stored command. */
    | Checked(receipt: Receipt)
    | Finished(failed: bool)

  datatype ResolveStep = ResolveStep(db: Db, pc: ResolvePc)

  function WithKey(items: seq<Item>, key: EvidenceKey): (r: seq<Item>)
    ensures forall x :: x in r <==> x in items && KeyOf(x) == key
  {
    if items == [] then []
    else
      var rest := WithKey(items[1..], key);
      if KeyOf(items[0]) == key then [items[0]] + rest else rest
  }

  function WithoutKey(items: seq<Item>, key: EvidenceKey): (r: seq<Item>)
    ensures forall x :: x in r <==> x in items && KeyOf(x) != key
  {
    if items == [] then []
    else
      var rest := WithoutKey(items[1..], key);
      if KeyOf(items[0]) != key then [items[0]] + rest else rest
  }

  /** Where a run goes once a group is exhausted. A single check that concluded nothing
      answers with the receipt it read first. */
  function AfterGroup(todo: seq<Item>, plan: Plan): ResolvePc {
    if plan.single.Some? then Checked(plan.single.value)
    else if todo == [] then Finished(false)
    else Choosing(todo, plan)
  }

  /** A store error aborts the run. */
  const ABORTED := Finished(true)

  function ExecResolve(db: Db, now: Time, pc: ResolvePc, input: Input, fault: Fault): ResolveStep {
    match pc
    case Finding(id, plan) =>
      var found := Effective(db, id);
      ResolveStep(db,
                  if fault != Fine || found.None? then ABORTED
                  else if found.value.disposition != Unknown then Checked(found.value)
                  else Fetching(id, plan.(single := Some(found.value))))
    case Fetching(id, plan) =>
      ResolveStep(db,
                  if fault != Fine then ABORTED
                  else if !Unresolved(db, id) then AfterGroup([], plan)
                  else Choosing([PendingItem(db, id)], plan))
    case FetchingKIS(plan) =>
      ResolveStep(db, if fault != Fine then ABORTED
                  else FetchingAlpaca(PendingAmong(db, KIS_SCOPES, db.order), plan))
    case FetchingAlpaca(todo, plan) =>
      ResolveStep(db, if fault != Fine then ABORTED
                  else AfterGroup(todo + PendingAmong(db, ALPACA_SCOPES, db.order), plan))
    case Choosing(todo, plan) =>
      (match input
       case Chosen(key) =>
         ResolveStep(db, Reading(key, WithKey(todo, key), WithoutKey(todo, key), plan))
       case _ => ResolveStep(db, pc))
    case Reading(key, items, todo, plan) =>
      (match input
       case Answered(evidence) => ResolveStep(db, Concluding(evidence, items, todo, plan))
       case _ => ResolveStep(db, pc))
    case Concluding(evidence, items, todo, plan) =>
      if items == [] then ResolveStep(db, AfterGroup(todo, plan))
      else
        var c := Judge(items[0], evidence, now, plan.grace, plan.window, plan.single.Some?);
        ResolveStep(db, if c == Leave then Concluding(evidence, items[1..], todo, plan)
                    else Appending(c, evidence, items, todo, plan))
    case Appending(c, evidence, items, todo, plan) =>
      if items == [] || c == Leave || !ValidResolution(items[0].id, RowFor(c, now)) || fault == Refused then
        ResolveStep(db, ABORTED)
      else
        ResolveStep(AppendResolution(db, items[0].id, RowFor(c, now)),
                    if fault == Lost then ABORTED
                    else Confirming(items[0].id, evidence, items[1..], todo, plan))
    case Confirming(id, evidence, items, todo, plan) =>
      var found := Effective(db, id);
      ResolveStep(db, if fault != Fine || found.None? then ABORTED
                  else if plan.single.Some? then Checked(found.value)
                  else Concluding(evidence, items, todo, plan))
    case Checked(_) => ResolveStep(db, pc)
    case Finished(_) => ResolveStep(db, pc)
  }

  // ----- the system -----

  datatype Caller = Placing(place: PlacePc) | Cancelling(cancel: CancelPc) | Resolving(resolve: ResolvePc)

  /** `sends` and `cancelSends` log what crossed the wire to the broker. */
  datatype World = World(
    now: Time, db: Db, callers: map<Pid, Caller>, sends: seq<Command>, cancelSends: seq<Target>)

  /** A raw grace or window of zero selects the default. */
  datatype Call =
    | Place(cmd: Command)
    | Cancel(id: Id)
    | ResolveOne(id: Id, grace: Time, window: Time)
    | ResolveAll(grace: Time, window: Time)

  datatype Event =
    | Begin(pid: Pid, call: Call)
    | Turn(pid: Pid, input: Input, fault: Fault)
    | Crash(pid: Pid)
    | Tick(elapsed: nat)

  function PlanFor(grace: Time, window: Time): Plan {
    Plan(if grace == 0 then DEFAULT_GRACE else grace, if window == 0 then DEFAULT_WINDOW else window, None)
  }

  function Start(call: Call, now: Time): Caller {
    match call
    case Place(cmd) => Placing(StartPlace(cmd, now))
    case Cancel(id) =>
      Cancelling(if ValidCommandId(id) then AttemptLooking(id) else CancelFailed)
    case ResolveOne(id, grace, window) =>
      Resolving(if ValidCommandId(id) then Finding(id, PlanFor(grace, window)) else ABORTED)
    case ResolveAll(grace, window) => Resolving(FetchingKIS(PlanFor(grace, window)))
  }

  function Next(w: World, e: Event): World {
    match e
    case Begin(pid, call) =>
      if pid in w.callers then w else w.(callers := w.callers[pid := Start(call, w.now)])
    case Crash(pid) => w.(callers := w.callers - {pid})
    case Tick(elapsed) => w.(now := w.now + elapsed)
    case Turn(pid, input, fault) =>
      if pid !in w.callers then w
      else
        match w.callers[pid]
        case Placing(pc) =>
          var s := ExecPlace(w.db, w.now, pc, input, fault);
          w.(db := s.db, callers := w.callers[pid := Placing(s.pc)],
             sends := if s.sent.Some? then w.sends + [s.sent.value] else w.sends)
        case Cancelling(pc) =>
          var s := ExecCancel(w.db, w.now, pc, input, fault);
          w.(db := s.db, callers := w.callers[pid := Cancelling(s.pc)],
             cancelSends := if s.sent.Some? then w.cancelSends + [s.sent.value] else w.cancelSends)
        case Resolving(pc) =>
          var s := ExecResolve(w.db, w.now, pc, input, fault);
          w.(db := s.db, callers := w.callers[pid := Resolving(s.pc)])
  }

  function Run(w: World, events: seq<Event>): World {
    if events == [] then w else Next(Run(w, events[..|events| - 1]), events[|events| - 1])
  }

  predicate About(e: Event, pid: Pid) {
    match e
    case Begin(p, _) => p == pid
    case Turn(p, _, _) => p == pid
    case Crash(p) => p == pid
    case Tick(_) => false
  }

  /** Anything anybody else does. */
  predicate Quiet(events: seq<Event>, pid: Pid) {
    forall k | 0 <= k < |events| :: !About(events[k], pid)
  }

  lemma OthersLeaveCaller(w: World, e: Event, pid: Pid)
    requires !About(e, pid) && pid in w.callers
    ensures pid in Next(w, e).callers && Next(w, e).callers[pid] == w.callers[pid]
  {
    hide ExecPlace, ExecCancel, ExecResolve;
  }

  lemma {:induction false} QuietLeavesCaller(w: World, events: seq<Event>, pid: Pid)
    requires Quiet(events, pid) && pid in w.callers
    ensures pid in Run(w, events).callers && Run(w, events).callers[pid] == w.callers[pid]
  {
    hide Next, About;
    if events != [] {
      QuietLeavesCaller(w, events[..|events| - 1], pid);
      OthersLeaveCaller(Run(w, events[..|events| - 1]), events[|events| - 1], pid);
    }
  }

  /** Any consistent tables, whatever earlier releases left in them, and nobody calling yet. */
  ghost predicate Init(w: World) {
    DbOk(w.db) && OrderOk(w.db) && w.callers == map[] && w.sends == [] && w.cancelSends == []
  }

  lemma {:induction false} RunConcat(w: World, a: seq<Event>, b: seq<Event>)
    ensures Run(w, a + b) == Run(Run(w, a), b)
  {
    hide Next;
    if b == [] {
      assert a + b == a;
    } else {
      RunConcat(w, a, b[..|b| - 1]);
      assert (a + b)[..|a + b| - 1] == a + b[..|b| - 1];
    }
  }
}
