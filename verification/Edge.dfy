/**
 * Process, Cancel, ResolveOne and Resolve as the edge runs them: statement by statement on the
 * store, while any number of other callers act between two of their steps. Each step is
 * recorded as a turn of the protocol, so what the protocol guarantees holds of the methods.
 */
module Edge {
  import opened Contracts
  import opened Tables
  import opened Evidence
  import opened Protocol
  import opened ProtocolInvariant
  import opened ProtocolSafety
  import opened ProtocolAnswers
  import opened ProtocolProvenance
  import Store

  class Edge {
    const store: Store.Store
    var now: Time
    var callers: map<Pid, Caller>
    var sends: seq<Command>
    var cancelSends: seq<Target>
    /** The world as of the last recorded turn, and how it came about. */
    ghost var recorded: World
    ghost var start: World
    ghost var history: seq<Event>

    constructor (db: Db, at: Time)
      requires DbOk(db) && OrderOk(db)
      ensures Valid() && fresh(this) && fresh(store) && store.Contents() == db
      ensures callers == map[] && sends == [] && cancelSends == [] && history == []
    {
      store := new Store.Store(db);
      now, callers, sends, cancelSends := at, map[], [], [];
      recorded, start, history := World(at, db, map[], [], []), World(at, db, map[], [], []), [];
    }

    function Current(): World
      reads this, store
    {
      World(now, store.Contents(), callers, sends, cancelSends)
    }

    /** The recorded world is the state of a run of the protocol. */
    ghost predicate Traced()
      reads this, store
    {
      Init(start) && recorded == Run(start, history)
    }

    ghost predicate Valid()
      reads this, store
    {
      Traced() && Current() == recorded
    }

    lemma Reached()
      requires Traced()
      ensures Inv(recorded)
    {
      InitHolds(start);
      RunKeeps(start, history);
    }

    lemma StoreIsOk()
      requires Valid()
      ensures DbOk(store.Contents())
    {
      Reached();
    }

    lemma NextStaysOk(w: World, e: Event)
      requires Inv(w)
      ensures DbOk(Next(w, e).db)
    {
      NextKeeps(w, e);
    }

    lemma GrowsNot(db: Db)
      ensures Grows(db, db)
    {
      forall id ensures GrowsAt(db, db, id) {
      }
    }

    /** Every row of the store that was not there at the start was said by the outside in between. */
    lemma NothingIsMadeUp()
      requires Valid()
      ensures forall id | id in store.Contents().commands && store.Contents().commands[id].phase == Final ::
                SameRow(start.db, store.Contents(), id)
                || FinalRowSaid(start, history, id, store.Contents().commands[id])
      ensures forall id | id in store.Contents().cancels && store.Contents().cancels[id].state != CancelUnknown ::
                SameCancel(start.db, store.Contents(), id)
                || CancelSaid(start, history, id, store.Contents().cancels[id])
      ensures forall id | id in store.Contents().resolutions ::
                SameResolution(start.db, store.Contents(), id) || ResolutionSaid(start, history, store.Contents(), id)
    {
      hide FinalRowSaid, CancelSaid, ResolutionSaid, Run;
      forall id | id in store.Contents().commands && store.Contents().commands[id].phase == Final
                  && !SameRow(start.db, store.Contents(), id)
        ensures FinalRowSaid(start, history, id, store.Contents().commands[id])
      {
        FinalRowsWereSaid(start, history, id);
      }
      forall id | id in store.Contents().cancels && store.Contents().cancels[id].state != CancelUnknown
                  && !SameCancel(start.db, store.Contents(), id)
        ensures CancelSaid(start, history, id, store.Contents().cancels[id])
      {
        CancelStatesWereSaid(start, history, id);
      }
      forall id | id in store.Contents().resolutions && !SameResolution(start.db, store.Contents(), id)
        ensures ResolutionSaid(start, history, store.Contents(), id)
      {
        ResolutionsWereSaid(start, history, id);
      }
    }

    /** Record what this caller just did as one event of the protocol. */
    method Record(e: Event, pid: Pid, c: Caller)
      requires Traced()
      requires Current().(callers := callers[pid := c]) == Next(recorded, e)
      modifies this`callers, this`recorded, this`history
      ensures Valid() && recorded == Next(old(recorded), e) && callers == old(callers)[pid := c]
      ensures history == old(history) + [e]
    {
      callers := callers[pid := c];
      ghost var was := history;
      history := history + [e];
      assert history[..|history| - 1] == was;
      recorded := Next(recorded, e);
    }

    /** Anything anyone else does, in any order: other calls, crashes and the passing of time. */
    method Interfere(pid: Pid)
      requires Valid() && pid in callers
      modifies this, store
      ensures Valid() && pid in callers && callers[pid] == old(callers[pid])
      ensures start == old(start) && old(history) <= history
      ensures DbOk(store.Contents()) && Grows(old(store.Contents()), store.Contents())
    {
      hide Next, Init, Inv, Grows;
      var events: seq<Event> := *;
      StoreIsOk();
      GrowsNot(store.Contents());
      for i := 0 to |events|
        invariant Valid() && pid in callers && callers[pid] == old(callers[pid])
        invariant start == old(start) && old(history) <= history
        invariant DbOk(store.Contents()) && Grows(old(store.Contents()), store.Contents())
      {
        if !About(events[i], pid) {
          var w := Next(Current(), events[i]);
          Reached();
          OthersLeaveCaller(Current(), events[i], pid);
          NextGrows(Current(), events[i]);
          NextStaysOk(Current(), events[i]);
          GrowsTransitive(old(store.Contents()), store.Contents(), w.db);
          ghost var was := history;
          history := history + [events[i]];
          assert history[..|history| - 1] == was;
          store.Load(w.db);
          now, callers, sends, cancelSends := w.now, w.callers, w.sends, w.cancelSends;
          recorded := w;
        }
      }
    }

    /** The caller has answered, from the tables. */
    ghost predicate FromTables(pid: Pid, receipt: Receipt, failed: bool)
      reads this
    {
      pid in callers && callers[pid].Placing? && callers[pid].place.Replied?
      && callers[pid].place.receipt == receipt && callers[pid].place.failed == failed
    }

    /** The caller has answered, from the tables or before it looked at them. */
    ghost predicate Answered(pid: Pid, receipt: Receipt, failed: bool)
      reads this
    {
      FromTables(pid, receipt, failed) || (pid in callers && callers[pid] == Placing(Unstored(receipt)) && !failed)
    }

    /** What a caller of Process may rely on: whatever ran beside it, nothing was sent twice. An
        error-free answer from the tables is UNKNOWN or the whole effective outcome, for good, unless
        Finalize landed on another outcome already resolved; an acceptance then has its cancel
        target. Any other error-free answer is the denial of a malformed request. */
    lemma ProcessPromises(pid: Pid, receipt: Receipt, later: seq<Event>)
      requires Valid() && Answered(pid, receipt, false)
      ensures forall i, j | 0 <= i < j < |sends| :: sends[i].id != sends[j].id
      ensures callers[pid].place.Replied? ==>
                (Agrees(Run(recorded, later).db, receipt) <==> !callers[pid].place.overruled)
      ensures callers[pid].place.Replied? && !callers[pid].place.overruled && receipt.disposition == Accepted ==>
                var target := CancelTarget(Run(recorded, later).db, receipt.id);
                target.Some? && target.value.brokerOrderId == receipt.brokerOrderId
      ensures callers[pid].place.Unstored? ==>
                receipt.disposition == NotCreated && receipt.errorCode == INVALID_COMMAND
    {
      Reached();
      if callers[pid].place.Replied? {
        AnswersHold(recorded, pid, later);
        if !callers[pid].place.overruled && receipt.disposition == Accepted {
          AcceptedIsCancellable(recorded, pid, later);
        }
      } else {
        UnstoredIsInvalid(recorded, pid, Protocol.Nothing, Fine);
      }
    }

    lemma CancelPromises(pid: Pid, receipt: CancelReceipt, later: seq<Event>)
      requires Valid() && CancelAnswered(pid, Some(receipt))
      ensures forall i, j | 0 <= i < j < |cancelSends| :: cancelSends[i].id != cancelSends[j].id
      ensures forall i | 0 <= i < |cancelSends| :: TargetLive(store.Contents(), cancelSends[i])
      ensures receipt.state != CancelUnknown ==>
                var db := Run(recorded, later).db;
                receipt.id in db.cancels && db.cancels[receipt.id].state == receipt.state
    {
      Reached();
      if receipt.state != CancelUnknown {
        CancelAnswersHold(recorded, pid, later);
      }
    }

    /** What a caller of ResolveOne may rely on: the receipt of a check that was made is UNKNOWN or the
        whole effective outcome, for good. */
    lemma CheckPromises(pid: Pid, receipt: Receipt, later: seq<Event>)
      requires Valid() && CheckAnswered(pid, Some(receipt))
      ensures Agrees(Run(recorded, later).db, receipt)
    {
      Reached();
      ChecksHold(recorded, pid, later);
    }

    /** The read that follows an INSERT or UPDATE without effect. */
    method ReadBack(pid: Pid, id: Id, otherwise: Receipt) returns (receipt: Receipt, failed: bool)
      requires Valid() && pid in callers && callers[pid].Placing?
      requires var pc := callers[pid].place;
               (pc == RejectReading(otherwise) || pc == FinalReading(otherwise)) && id == otherwise.id
      modifies this, store
      ensures Valid() && FromTables(pid, receipt, failed) && start == old(start) && old(history) <= history
    {
      Interfere(pid);
      var fault: Fault := *;
      var found, err := store.Find(id, fault);
      if err || found.None? {
        receipt, failed := otherwise, true;
      } else {
        receipt, failed := found.value, false;
      }
      Record(Turn(pid, Protocol.Nothing, fault), pid, Placing(Replied(receipt, failed, false)));
    }

    /** storeFinal: a conclusive NOT_CREATED before any send, or the receipt already stored. */
    method StoreFinal(pid: Pid, receipt0: Receipt) returns (receipt: Receipt, failed: bool)
      requires Valid() && pid in callers && callers[pid] == Placing(Rejecting(receipt0))
      modifies this, store
      ensures Valid() && FromTables(pid, receipt, failed) && start == old(start) && old(history) <= history
    {
      Interfere(pid);
      var fault: Fault := *;
      var inserted, err := store.StoreFinal(receipt0, fault);
      if err || inserted {
        receipt, failed := receipt0, err;
        Record(Turn(pid, Protocol.Nothing, fault), pid, Placing(Replied(receipt, failed, false)));
      } else {
        Record(Turn(pid, Protocol.Nothing, fault), pid, Placing(RejectReading(receipt0)));
        receipt, failed := ReadBack(pid, receipt0.id, receipt0);
      }
    }

    /** finalize: replaces the pending marker with the broker's answer. */
    method Finalize(pid: Pid, receipt0: Receipt, orgNo: string) returns (receipt: Receipt, failed: bool)
      requires Valid() && pid in callers && callers[pid] == Placing(Finalizing(receipt0, orgNo))
      modifies this, store
      ensures Valid() && FromTables(pid, receipt, failed) && start == old(start) && old(history) <= history
    {
      Interfere(pid);
      var fault: Fault := *;
      var updated, err := store.Finalize(receipt0, orgNo, fault);
      if err {
        receipt, failed := receipt0, true;
        Record(Turn(pid, Protocol.Nothing, fault), pid, Placing(Replied(receipt0, true, false)));
      } else if updated {
        receipt, failed := receipt0, false;
        var overruled := Contradicted(store.Contents(), receipt0);
        Record(Turn(pid, Protocol.Nothing, fault), pid, Placing(Replied(receipt0, false, overruled)));
      } else {
        Record(Turn(pid, Protocol.Nothing, fault), pid, Placing(FinalReading(receipt0)));
        receipt, failed := ReadBack(pid, receipt0.id, receipt0);
      }
    }

    /** Process: replay, validate, reserve, send once, finalize. A malformed id and the reserved scope
        are refused before the tables are looked at, and nothing else is. */
    method Process(pid: Pid, cmd: Command) returns (receipt: Receipt, failed: bool)
      requires Valid() && pid !in callers
      modifies this, store
      ensures Valid() && start == old(start) && old(history) + [Begin(pid, Place(cmd))] <= history
      ensures Answered(pid, receipt, failed)
      ensures callers[pid].place.Unstored? <==> cmd.scope == KISLive || !ValidCommandId(cmd.id)
      ensures old(Known(store.Contents(), cmd.id)) && callers[pid].place.Replied? ==> Replayed(cmd.id, receipt, failed)
    {
      if cmd.scope == KISLive || !ValidCommandId(cmd.id) {
        receipt, failed := Receipt(cmd.id, NotCreated, "", INVALID_COMMAND, now), false;
        Record(Begin(pid, Place(cmd)), pid, Placing(Unstored(receipt)));
        return;
      }
      Record(Begin(pid, Place(cmd)), pid, Placing(Looking(cmd)));
      receipt, failed := LookUp(pid, cmd);
    }

    /** The answer about a command whose outcome was known: that outcome, or an error of the store. */
    predicate Replayed(id: Id, receipt: Receipt, failed: bool)
      reads this, store
    {
      receipt.id == id
      && if failed then receipt.disposition == NotCreated && receipt.errorCode == STORAGE_FAILURE
         else receipt.disposition != Unknown && TellsOutcome(store.Contents(), receipt)
    }

    lemma StaysKnown(a: Db, b: Db, id: Id)
      requires DbOk(a) && DbOk(b) && Grows(a, b) && Known(a, id)
      ensures Known(b, id)
      ensures forall r: Receipt | r.id == id && TellsOutcome(b, r) :: r.disposition != Unknown
    {
      KnownIsSettled(a, id);
      KnownIsSettled(b, id);
      assert GrowsAt(a, b, id);
    }

    /** A stored command is answered with its effective receipt. */
    method LookUp(pid: Pid, cmd: Command) returns (receipt: Receipt, failed: bool)
      requires Valid() && pid in callers && callers[pid] == Placing(Looking(cmd))
      modifies this, store
      ensures Valid() && FromTables(pid, receipt, failed) && start == old(start) && old(history) <= history
      ensures old(Known(store.Contents(), cmd.id)) ==> Replayed(cmd.id, receipt, failed)
    {
      ghost var before := store.Contents();
      StoreIsOk();
      Interfere(pid);
      var fault: Fault := *;
      if Known(before, cmd.id) {
        StaysKnown(before, store.Contents(), cmd.id);
      }
      var existing, err := store.Find(cmd.id, fault);
      if err {
        receipt, failed := Receipt(cmd.id, NotCreated, "", STORAGE_FAILURE, now), true;
        Record(Turn(pid, Protocol.Nothing, fault), pid, Placing(Replied(receipt, true, false)));
        return;
      }
      if existing.Some? {
        receipt, failed := existing.value, false;
        Record(Turn(pid, Protocol.Nothing, fault), pid, Placing(Replied(receipt, false, false)));
        return;
      }
      Record(Turn(pid, Protocol.Nothing, fault), pid, Placing(Judging(cmd)));
      receipt, failed := JudgeAndReserve(pid, cmd);
    }

    /** Everything between the replay check and the send boundary. */
    method JudgeAndReserve(pid: Pid, cmd: Command) returns (receipt: Receipt, failed: bool)
      requires Valid() && pid in callers && callers[pid] == Placing(Judging(cmd))
      modifies this, store
      ensures Valid() && FromTables(pid, receipt, failed) && start == old(start) && old(history) <= history
    {
      Interfere(pid);
      var verdict: Verdict := *;
      if verdict.Rejected? {
        var rejection := Receipt(cmd.id, NotCreated, "", verdict.code, now);
        Record(Turn(pid, Judged(verdict), Fine), pid, Placing(Rejecting(rejection)));
        receipt, failed := StoreFinal(pid, rejection);
        return;
      }
      assert verdict == Prepared;
      var pending := Receipt(cmd.id, Unknown, "", SEND_PENDING, now);
      Record(Turn(pid, Judged(verdict), Fine), pid, Placing(Reserving(cmd, pending)));
      receipt, failed := Reserve(pid, cmd, pending);
    }

    /** ReservePending: the durable marker, or the receipt that was there first. */
    method Reserve(pid: Pid, cmd: Command, pending: Receipt) returns (receipt: Receipt, failed: bool)
      requires Valid() && pid in callers && callers[pid] == Placing(Reserving(cmd, pending)) && pending.id == cmd.id
      modifies this, store
      ensures Valid() && FromTables(pid, receipt, failed) && start == old(start) && old(history) <= history
    {
      Interfere(pid);
      var fault: Fault := *;
      var reserved, err := store.ReservePending(pending, cmd, fault);
      if err {
        receipt, failed := Receipt(cmd.id, NotCreated, "", STORAGE_FAILURE, now), true;
        Record(Turn(pid, Protocol.Nothing, fault), pid, Placing(Replied(receipt, true, false)));
        return;
      }
      if !reserved {
        Record(Turn(pid, Protocol.Nothing, fault), pid, Placing(ReserveReading(cmd.id)));
        receipt, failed := ReserveReadBack(pid, cmd.id);
        return;
      }
      Record(Turn(pid, Protocol.Nothing, fault), pid, Placing(Sending(cmd)));
      receipt, failed := SendAndFinalize(pid, cmd);
    }

    method ReserveReadBack(pid: Pid, id: Id) returns (receipt: Receipt, failed: bool)
      requires Valid() && pid in callers && callers[pid] == Placing(ReserveReading(id))
      modifies this, store
      ensures Valid() && FromTables(pid, receipt, failed) && start == old(start) && old(history) <= history
    {
      Interfere(pid);
      var fault: Fault := *;
      var found, err := store.Find(id, fault);
      if err || found.None? {
        receipt, failed := Receipt(id, NotCreated, "", STORAGE_FAILURE, now), true;
      } else {
        receipt, failed := found.value, false;
      }
      Record(Turn(pid, Protocol.Nothing, fault), pid, Placing(Replied(receipt, failed, false)));
    }

    /** Nothing is done between the committed reservation and this send. */
    method SendAndFinalize(pid: Pid, cmd: Command) returns (receipt: Receipt, failed: bool)
      requires Valid() && pid in callers && callers[pid] == Placing(Sending(cmd))
      modifies this, store
      ensures Valid() && FromTables(pid, receipt, failed) && start == old(start) && old(history) <= history
    {
      Interfere(pid);
      sends := sends + [cmd];
      Record(Turn(pid, Protocol.Nothing, Fine), pid, Placing(Awaiting(cmd)));
      receipt, failed := AwaitAnswer(pid, cmd);
    }

    /** From the send on, every non-accepted outcome is UNKNOWN. */
    method AwaitAnswer(pid: Pid, cmd: Command) returns (receipt: Receipt, failed: bool)
      requires Valid() && pid in callers && callers[pid] == Placing(Awaiting(cmd))
      modifies this, store
      ensures Valid() && FromTables(pid, receipt, failed) && start == old(start) && old(history) <= history
    {
      Interfere(pid);
      var result: BrokerResult := *;
      var final, orgNo := Receipt(cmd.id, Accepted, result.brokerOrderId, "", now), result.orgNo;
      if !result.accepted || result.brokerOrderId == "" {
        var code := if result.errorCode == "" then BROKER_UNKNOWN else result.errorCode;
        final, orgNo := Receipt(cmd.id, Unknown, "", code, now), "";
      }
      assert final == ReceiptFor(cmd.id, result, now);
      Record(Turn(pid, Sent(result), Fine), pid, Placing(Finalizing(final, orgNo)));
      receipt, failed := Finalize(pid, final, orgNo);
    }

    // ----- cancellation -----

    ghost predicate CancelAnswered(pid: Pid, receipt: Option<CancelReceipt>)
      reads this
    {
      pid in callers
      && callers[pid] == Cancelling(if receipt.Some? then CancelReplied(receipt.value) else CancelFailed)
    }

    method Cancel(pid: Pid, id: Id) returns (receipt: Option<CancelReceipt>)
      requires Valid() && pid !in callers
      modifies this, store
      ensures Valid() && start == old(start) && old(history) + [Begin(pid, Protocol.Cancel(id))] <= history
      ensures CancelAnswered(pid, receipt)
      ensures old(id in store.Contents().cancels) && receipt.Some? ==> AttemptTold(id, receipt.value)
    {
      receipt := None;
      if !ValidCommandId(id) {
        Record(Begin(pid, Protocol.Cancel(id)), pid, Cancelling(CancelFailed));
        return;
      }
      Record(Begin(pid, Protocol.Cancel(id)), pid, Cancelling(AttemptLooking(id)));
      receipt := LookUpAttempt(pid, id);
    }

    /** The receipt is what the row of the attempt says. */
    predicate AttemptTold(id: Id, receipt: CancelReceipt)
      reads store
    {
      id in store.cancels
      && var row := store.cancels[id];
         receipt == CancelReceipt(id, row.state, row.errorCode, row.recordedAt)
    }

    /** A replay returns the recorded attempt. */
    method LookUpAttempt(pid: Pid, id: Id) returns (receipt: Option<CancelReceipt>)
      requires Valid() && pid in callers && callers[pid] == Cancelling(AttemptLooking(id))
      modifies this, store
      ensures Valid() && CancelAnswered(pid, receipt) && start == old(start) && old(history) <= history
      ensures old(id in store.Contents().cancels) && receipt.Some? ==> AttemptTold(id, receipt.value)
    {
      ghost var before := store.Contents();
      Interfere(pid);
      assert GrowsAt(before, store.Contents(), id);
      var fault: Fault := *;
      var existing, err := store.FindCancelAttempt(id, fault);
      receipt := None;
      if err {
        Record(Turn(pid, Protocol.Nothing, fault), pid, Cancelling(CancelFailed));
      } else if existing.Some? {
        receipt := existing;
        Record(Turn(pid, Protocol.Nothing, fault), pid, Cancelling(CancelReplied(existing.value)));
      } else {
        Record(Turn(pid, Protocol.Nothing, fault), pid, Cancelling(TargetLooking(id)));
        receipt := LookUpTarget(pid, id);
      }
    }

    /** The target is read outside the reservation. */
    method LookUpTarget(pid: Pid, id: Id) returns (receipt: Option<CancelReceipt>)
      requires Valid() && pid in callers && callers[pid] == Cancelling(TargetLooking(id))
      modifies this, store
      ensures Valid() && CancelAnswered(pid, receipt) && start == old(start) && old(history) <= history
    {
      Interfere(pid);
      var fault: Fault := *;
      var target, err := store.FindCancelTarget(id, fault);
      receipt := None;
      if err || target.None? {
        Record(Turn(pid, Protocol.Nothing, fault), pid, Cancelling(CancelFailed));
      } else {
        Record(Turn(pid, Protocol.Nothing, fault), pid, Cancelling(Preparing(target.value)));
        receipt := PrepareAndReserve(pid, target.value);
      }
    }

    method PrepareAndReserve(pid: Pid, target: Target) returns (receipt: Option<CancelReceipt>)
      requires Valid() && pid in callers && callers[pid] == Cancelling(Preparing(target))
      modifies this, store
      ensures Valid() && CancelAnswered(pid, receipt) && start == old(start) && old(history) <= history
    {
      receipt := None;
      Interfere(pid);
      var verdict: Verdict := *;
      if verdict.Rejected? {
        Record(Turn(pid, Judged(verdict), Fine), pid, Cancelling(CancelFailed));
        return;
      }
      assert verdict == Prepared;
      var pending := CancelReceipt(target.id, CancelUnknown, CANCEL_SEND_PENDING, now);
      Record(Turn(pid, Judged(verdict), Fine), pid, Cancelling(CancelReserving(target, pending)));
      receipt := ReserveAttempt(pid, target, pending);
    }

    method ReserveAttempt(pid: Pid, target: Target, pending: CancelReceipt) returns (receipt: Option<CancelReceipt>)
      requires Valid() && pid in callers && callers[pid] == Cancelling(CancelReserving(target, pending))
      requires pending.id == target.id
      modifies this, store
      ensures Valid() && CancelAnswered(pid, receipt) && start == old(start) && old(history) <= history
    {
      receipt := None;
      Interfere(pid);
      var fault: Fault := *;
      var reserved, err := store.ReserveCancel(pending, fault);
      if err {
        Record(Turn(pid, Protocol.Nothing, fault), pid, Cancelling(CancelFailed));
      } else if !reserved {
        Record(Turn(pid, Protocol.Nothing, fault), pid, Cancelling(CancelReserveReading(target.id)));
        receipt := ReadAttempt(pid, target.id);
      } else {
        Record(Turn(pid, Protocol.Nothing, fault), pid, Cancelling(CancelSending(target)));
        receipt := SendCancel(pid, target);
      }
    }

    method ReadAttempt(pid: Pid, id: Id) returns (receipt: Option<CancelReceipt>)
      requires Valid() && pid in callers
      requires callers[pid] == Cancelling(CancelReserveReading(id)) || callers[pid]
          == Cancelling(CancelFinalReading(id))
      modifies this, store
      ensures Valid() && CancelAnswered(pid, receipt) && start == old(start) && old(history) <= history
    {
      Interfere(pid);
      var fault: Fault := *;
      var found, err := store.FindCancelAttempt(id, fault);
      receipt := if err then None else found;
      Record(Turn(pid, Protocol.Nothing, fault), pid,
             Cancelling(if receipt.Some? then CancelReplied(receipt.value) else CancelFailed));
    }

    method SendCancel(pid: Pid, target: Target) returns (receipt: Option<CancelReceipt>)
      requires Valid() && pid in callers && callers[pid] == Cancelling(CancelSending(target))
      modifies this, store
      ensures Valid() && CancelAnswered(pid, receipt) && start == old(start) && old(history) <= history
    {
      Interfere(pid);
      cancelSends := cancelSends + [target];
      Record(Turn(pid, Protocol.Nothing, Fine), pid, Cancelling(CancelAwaiting(target)));
      receipt := AwaitCancel(pid, target);
    }

    method AwaitCancel(pid: Pid, target: Target) returns (receipt: Option<CancelReceipt>)
      requires Valid() && pid in callers && callers[pid] == Cancelling(CancelAwaiting(target))
      modifies this, store
      ensures Valid() && CancelAnswered(pid, receipt) && start == old(start) && old(history) <= history
    {
      Interfere(pid);
      var state: Option<CancelState> := *;
      var errorCode: string := *;
      var final := CancelReceiptFor(target.id, state, errorCode, now);
      Record(Turn(pid, CancelSent(state, errorCode), Fine), pid, Cancelling(CancelFinalizing(final)));
      receipt := FinalizeCancel(pid, final);
    }

    method FinalizeCancel(pid: Pid, final: CancelReceipt) returns (receipt: Option<CancelReceipt>)
      requires Valid() && pid in callers && callers[pid] == Cancelling(CancelFinalizing(final))
      modifies this, store
      ensures Valid() && CancelAnswered(pid, receipt) && start == old(start) && old(history) <= history
    {
      Interfere(pid);
      var fault: Fault := *;
      var updated, err := store.FinalizeCancel(final, fault);
      receipt := None;
      if err {
        Record(Turn(pid, Protocol.Nothing, fault), pid, Cancelling(CancelFailed));
      } else if updated {
        receipt := Some(final);
        Record(Turn(pid, Protocol.Nothing, fault), pid, Cancelling(CancelReplied(final)));
      } else {
        Record(Turn(pid, Protocol.Nothing, fault), pid, Cancelling(CancelFinalReading(final.id)));
        receipt := ReadAttempt(pid, final.id);
      }
    }

    // ----- resolution -----

    /** A single check has ended: with a receipt, or with an error at the store. */
    ghost predicate CheckAnswered(pid: Pid, receipt: Option<Receipt>)
      reads this
    {
      pid in callers && callers[pid] == Resolving(if receipt.Some? then Checked(receipt.value) else ABORTED)
    }

    /** ResolveOne: the stored receipt, one read for the command's key, at most one additive row. */
    method ResolveOne(pid: Pid, id: Id, grace: Time, window: Time) returns (receipt: Option<Receipt>)
      requires Valid() && pid !in callers
      modifies this, store
      ensures Valid() && start == old(start)
      ensures old(history) + [Begin(pid, Protocol.ResolveOne(id, grace, window))] <= history
      ensures CheckAnswered(pid, receipt)
      ensures old(Known(store.Contents(), id)) && receipt.Some? ==> Replayed(id, receipt.value, false)
    {
      receipt := None;
      var begin := Begin(pid, Protocol.ResolveOne(id, grace, window));
      if !ValidCommandId(id) {
        Record(begin, pid, Resolving(ABORTED));
        return;
      }
      Record(begin, pid, Resolving(Finding(id, PlanFor(grace, window))));
      receipt := FindOne(pid, id, PlanFor(grace, window));
    }

    method FindOne(pid: Pid, id: Id, plan: Plan) returns (receipt: Option<Receipt>)
      requires Valid() && pid in callers && callers[pid] == Resolving(Finding(id, plan))
      modifies this, store
      ensures Valid() && CheckAnswered(pid, receipt) && start == old(start) && old(history) <= history
      ensures old(Known(store.Contents(), id)) && receipt.Some? ==> Replayed(id, receipt.value, false)
    {
      ghost var before := store.Contents();
      StoreIsOk();
      Interfere(pid);
      var fault: Fault := *;
      if Known(before, id) {
        StaysKnown(before, store.Contents(), id);
      }
      var found, err := store.Find(id, fault);
      receipt := None;
      if err || found.None? {
        Record(Turn(pid, Protocol.Nothing, fault), pid, Resolving(ABORTED));
      } else if found.value.disposition != Unknown {
        receipt := found;
        Record(Turn(pid, Protocol.Nothing, fault), pid, Resolving(Checked(found.value)));
      } else {
        Record(Turn(pid, Protocol.Nothing, fault), pid, Resolving(Fetching(id, plan.(single := found))));
        receipt := FetchOne(pid, id, plan.(single := found));
      }
    }

    method FetchOne(pid: Pid, id: Id, plan: Plan) returns (receipt: Option<Receipt>)
      requires Valid() && pid in callers && callers[pid] == Resolving(Fetching(id, plan)) && plan.single.Some?
      modifies this, store
      ensures Valid() && CheckAnswered(pid, receipt) && start == old(start) && old(history) <= history
    {
      Interfere(pid);
      var fault: Fault := *;
      var item, err := store.FindPendingResolution(id, fault);
      receipt := None;
      if err {
        Record(Turn(pid, Protocol.Nothing, fault), pid, Resolving(ABORTED));
      } else if item.None? {
        receipt := plan.single;
        Record(Turn(pid, Protocol.Nothing, fault), pid, Resolving(Checked(plan.single.value)));
      } else {
        Record(Turn(pid, Protocol.Nothing, fault), pid, Resolving(Choosing([item.value], plan)));
        var evidence := ReadKey(pid, [item.value], KeyOf(item.value), plan);
        assert WithKey([item.value], KeyOf(item.value)) == [item.value];
        receipt := JudgeOne(pid, evidence, item.value, plan);
      }
    }

    /** One read at the broker, which may answer anything. */
    method ReadKey(pid: Pid, todo: seq<Item>, key: EvidenceKey, plan: Plan) returns (evidence: Evidence)
      requires Valid() && pid in callers && callers[pid] == Resolving(Choosing(todo, plan))
      modifies this, store
      ensures Valid() && pid in callers && start == old(start) && old(history) <= history
      ensures callers[pid] == Resolving(Concluding(evidence, WithKey(todo, key), WithoutKey(todo, key), plan))
    {
      hide WithKey, WithoutKey;
      Interfere(pid);
      Record(Turn(pid, Chosen(key), Fine), pid,
             Resolving(Reading(key, WithKey(todo, key), WithoutKey(todo, key), plan)));
      Interfere(pid);
      evidence := *;
      Record(Turn(pid, Protocol.Answered(evidence), Fine), pid,
             Resolving(Concluding(evidence, WithKey(todo, key), WithoutKey(todo, key), plan)));
    }

    method JudgeOne(pid: Pid, evidence: Evidence, item: Item, plan: Plan) returns (receipt: Option<Receipt>)
      requires Valid() && pid in callers && callers[pid] == Resolving(Concluding(evidence, [item], [], plan))
      requires plan.single.Some?
      modifies this, store
      ensures Valid() && CheckAnswered(pid, receipt) && start == old(start) && old(history) <= history
    {
      var resolved, failed := JudgeNext(pid, evidence, [item], [], plan);
      receipt := resolved;
      if resolved.None? && !failed {
        Interfere(pid);
        receipt := plan.single;
        Record(Turn(pid, Protocol.Nothing, Fine), pid, Resolving(Checked(plan.single.value)));
      }
    }

    /** The next item of a group: left as it is, or resolved by an additive row and read back. */
    method JudgeNext(pid: Pid, evidence: Evidence, items: seq<Item>, todo: seq<Item>, plan: Plan)
      returns (resolved: Option<Receipt>, failed: bool)
      requires Valid() && pid in callers && callers[pid] == Resolving(Concluding(evidence, items, todo, plan))
      requires items != []
      modifies this, store
      ensures Valid() && pid in callers && start == old(start) && old(history) <= history
      ensures failed ==> resolved.None?
      ensures callers[pid] == Resolving(if failed then ABORTED
                                        else if resolved.Some? && plan.single.Some? then Checked(resolved.value)
                                        else Concluding(evidence, items[1..], todo, plan))
    {
      Interfere(pid);
      var c := Judge(items[0], evidence, now, plan.grace, plan.window, plan.single.Some?);
      resolved, failed := None, false;
      if c == Leave {
        Record(Turn(pid, Protocol.Nothing, Fine), pid, Resolving(Concluding(evidence, items[1..], todo, plan)));
        return;
      }
      Record(Turn(pid, Protocol.Nothing, Fine), pid, Resolving(Appending(c, evidence, items, todo, plan)));
      resolved, failed := AppendNext(pid, c, evidence, items, todo, plan);
    }

    /** ResolveUnknown: the row and the read-back are two statements. */
    method AppendNext(pid: Pid, c: Conclusion, evidence: Evidence, items: seq<Item>, todo: seq<Item>, plan: Plan)
      returns (resolved: Option<Receipt>, failed: bool)
      requires Valid() && pid in callers && items != [] && c != Leave
      requires callers[pid] == Resolving(Appending(c, evidence, items, todo, plan))
      modifies this, store
      ensures Valid() && pid in callers && start == old(start) && old(history) <= history
      ensures failed ==> resolved.None?
      ensures callers[pid] == Resolving(if failed then ABORTED
                                        else if resolved.Some? && plan.single.Some? then Checked(resolved.value)
                                        else Concluding(evidence, items[1..], todo, plan))
    {
      hide Judge;
      Interfere(pid);
      var fault: Fault := *;
      var id := items[0].id;
      failed := store.AppendResolution(id, RowFor(c, now), fault);
      resolved := None;
      if failed {
        Record(Turn(pid, Protocol.Nothing, fault), pid, Resolving(ABORTED));
        return;
      }
      Record(Turn(pid, Protocol.Nothing, fault), pid, Resolving(Confirming(id, evidence, items[1..], todo, plan)));
      resolved, failed := Confirm(pid, id, evidence, items[1..], todo, plan);
    }

    /** The read-back of a resolution. */
    method Confirm(pid: Pid, id: Id, evidence: Evidence, items: seq<Item>, todo: seq<Item>, plan: Plan)
      returns (resolved: Option<Receipt>, failed: bool)
      requires Valid() && pid in callers && callers[pid] == Resolving(Confirming(id, evidence, items, todo, plan))
      modifies this, store
      ensures Valid() && pid in callers && start == old(start) && old(history) <= history
      ensures failed ==> resolved.None?
      ensures callers[pid] == Resolving(if failed then ABORTED
                                        else if resolved.Some? && plan.single.Some? then Checked(resolved.value)
                                        else Concluding(evidence, items, todo, plan))
    {
      hide Judge;
      Interfere(pid);
      var fault: Fault := *;
      resolved, failed := store.Find(id, fault);
      if failed || resolved.None? {
        resolved, failed := None, true;
        Record(Turn(pid, Protocol.Nothing, fault), pid, Resolving(ABORTED));
      } else {
        Record(Turn(pid, Protocol.Nothing, fault), pid,
               Resolving(if plan.single.Some? then Checked(resolved.value)
                         else Concluding(evidence, items, todo, plan)));
      }
    }

    lemma {:induction false} TakenOut(todo: seq<Item>, key: EvidenceKey)
      ensures |WithKey(todo, key)| + |WithoutKey(todo, key)| == |todo|
    {
      if todo != [] {
        TakenOut(todo[1..], key);
      }
    }

    /** Resolve: both listings, then group after group, until one meets an error at the store. */
    method ResolveAll(pid: Pid, grace: Time, window: Time) returns (failed: bool)
      requires Valid() && pid !in callers
      modifies this, store
      ensures Valid() && start == old(start)
      ensures old(history) + [Begin(pid, Protocol.ResolveAll(grace, window))] <= history
      ensures pid in callers && callers[pid] == Resolving(Finished(failed))
    {
      var plan := PlanFor(grace, window);
      Record(Begin(pid, Protocol.ResolveAll(grace, window)), pid, Resolving(FetchingKIS(plan)));
      failed := ListKis(pid, plan);
    }

    method ListKis(pid: Pid, plan: Plan) returns (failed: bool)
      requires Valid() && pid in callers && callers[pid] == Resolving(FetchingKIS(plan)) && plan.single.None?
      modifies this, store
      ensures Valid() && start == old(start) && old(history) <= history
      ensures pid in callers && callers[pid] == Resolving(Finished(failed))
    {
      hide PendingAmong, PendingItem;
      Interfere(pid);
      var fault: Fault := *;
      if fault != Fine {
        Record(Turn(pid, Protocol.Nothing, fault), pid, Resolving(ABORTED));
        return true;
      }
      var kis := store.PendingResolutions(KIS_SCOPES);
      Record(Turn(pid, Protocol.Nothing, fault), pid, Resolving(FetchingAlpaca(kis, plan)));
      failed := ListAlpaca(pid, kis, plan);
    }

    method ListAlpaca(pid: Pid, kis: seq<Item>, plan: Plan) returns (failed: bool)
      requires Valid() && pid in callers && callers[pid] == Resolving(FetchingAlpaca(kis, plan)) && plan.single.None?
      modifies this, store
      ensures Valid() && start == old(start) && old(history) <= history
      ensures pid in callers && callers[pid] == Resolving(Finished(failed))
    {
      hide PendingAmong, PendingItem, AfterGroup;
      Interfere(pid);
      var fault: Fault := *;
      if fault != Fine {
        Record(Turn(pid, Protocol.Nothing, fault), pid, Resolving(ABORTED));
        return true;
      }
      var alpaca := store.PendingResolutions(ALPACA_SCOPES);
      Record(Turn(pid, Protocol.Nothing, fault), pid, Resolving(AfterGroup(kis + alpaca, plan)));
      failed := ResolveGroups(pid, kis + alpaca, plan);
    }

    /** The groups one after the other, in an order the method leaves open. */
    method ResolveGroups(pid: Pid, all: seq<Item>, plan: Plan) returns (failed: bool)
      requires Valid() && pid in callers && callers[pid] == Resolving(AfterGroup(all, plan)) && plan.single.None?
      modifies this, store
      ensures Valid() && start == old(start) && old(history) <= history
      ensures pid in callers && callers[pid] == Resolving(Finished(failed))
    {
      var todo := all;
      while todo != []
        invariant Valid() && start == old(start) && old(history) <= history
        invariant pid in callers && callers[pid] == Resolving(AfterGroup(todo, plan))
        decreases |todo|
      {
        var key: EvidenceKey := *;
        if WithKey(todo, key) == [] {
          key := KeyOf(todo[0]);
          assert todo[0] in WithKey(todo, key);
        }
        TakenOut(todo, key);
        var evidence := ReadKey(pid, todo, key, plan);
        failed := ResolveGroup(pid, evidence, WithKey(todo, key), WithoutKey(todo, key), plan);
        if failed {
          return;
        }
        todo := WithoutKey(todo, key);
      }
      failed := false;
    }

    method ResolveGroup(pid: Pid, evidence: Evidence, group: seq<Item>, todo: seq<Item>, plan: Plan)
      returns (failed: bool)
      requires Valid() && pid in callers && callers[pid] == Resolving(Concluding(evidence, group, todo, plan))
      requires plan.single.None?
      modifies this, store
      ensures Valid() && start == old(start) && old(history) <= history
      ensures pid in callers && callers[pid] == Resolving(if failed then ABORTED else AfterGroup(todo, plan))
    {
      var items := group;
      while items != []
        invariant Valid() && start == old(start) && old(history) <= history
        invariant pid in callers && callers[pid] == Resolving(Concluding(evidence, items, todo, plan))
        decreases |items|
      {
        var resolved;
        resolved, failed := JudgeNext(pid, evidence, items, todo, plan);
        if failed {
          return;
        }
        items := items[1..];
      }
      failed := false;
      Interfere(pid);
      Record(Turn(pid, Protocol.Nothing, Fine), pid, Resolving(AfterGroup(todo, plan)));
    }
  }
}
