/**
 * What a call answers and which rows it leaves, told from the stored rows and from what the
 * outside said to it, whatever anybody else does between two of its statements.
 */
module ProtocolAnswers {
  import opened Contracts
  import opened Tables
  import opened Evidence
  import opened Protocol
  import opened ProtocolInvariant
  import opened ProtocolSafety

  // ----- replays and read-backs -----

  /** The rows tell the outcome of the command: its own row, or a resolution row beside it. */
  predicate Known(db: Db, id: Id) {
    id in db.commands && (db.commands[id].disposition != Unknown || id in db.resolutions)
  }

  /** The receipt's outcome is the resolution row's, or without one the command row's own. */
  predicate TellsOutcome(db: Db, r: Receipt) {
    r.id in db.commands
    && if r.id in db.resolutions then
         && r.disposition == db.resolutions[r.id].disposition
         && r.brokerOrderId == db.resolutions[r.id].brokerOrderId
         && r.errorCode == db.resolutions[r.id].errorCode
       else
         && r.disposition == db.commands[r.id].disposition
         && r.brokerOrderId == db.commands[r.id].brokerOrderId
         && r.errorCode == db.commands[r.id].errorCode
  }

  /** The whole receipt the rows of a command tell. */
  predicate Tells(db: Db, id: Id, r: Receipt) {
    r.id == id && TellsOutcome(db, r) && r.recordedAt == db.commands[id].recordedAt
  }

  /** The command whose rows a caller reads next to answer with them. */
  function ReadsNext(c: Caller): Option<Id> {
    match c
    case Placing(Looking(cmd)) => Some(cmd.id)
    case Placing(RejectReading(receipt)) => Some(receipt.id)
    case Placing(ReserveReading(id)) => Some(id)
    case Resolving(Finding(id, _)) => Some(id)
    case _ => None
  }

  /** The receipt a caller has answered with. */
  function AnswerOf(c: Caller): Option<Receipt> {
    match c
    case Placing(Replied(receipt, false, _)) => Some(receipt)
    case Resolving(Checked(receipt)) => Some(receipt)
    case _ => None
  }

  lemma KnownIsSettled(db: Db, id: Id)
    requires DbOk(db)
    ensures Known(db, id) <==> Settled(db, id)
    ensures forall r: Receipt | r.id == id && TellsOutcome(db, r) :: Known(db, id) <==> r.disposition != Unknown
    ensures forall r: Receipt | r.id == id && TellsOutcome(db, r) :: Outcome(r) == Outcome(Effective(db, id).value)
  {
    assert RowOk(db, id);
  }

  /** A read that answers, made without an error, answers with the rows: the whole receipt they tell.
      So no command whose outcome is known is ever answered UNKNOWN, whoever asks and however often. */
  lemma ReadsAnswerTheRows(w: World, pid: Pid, input: Input, id: Id)
    requires Inv(w) && pid in w.callers && ReadsNext(w.callers[pid]) == Some(id)
    ensures var answer := AnswerOf(Next(w, Turn(pid, input, Fine)).callers[pid]);
            && (Known(w.db, id) || (w.callers[pid].Placing? && id in w.db.commands) ==>
                  answer.Some? && Tells(w.db, id, answer.value))
            && (Known(w.db, id) ==> answer.value.disposition != Unknown)
            && (id !in w.db.commands ==> answer.None?)
  {
    assert CallerOk(w, w.callers[pid]);
    KnownIsSettled(w.db, id);
  }

  /** A placement whose id is not stored goes on to be judged, a check of one fails; a check of a
      stored command without an outcome goes on with the receipt the rows tell. */
  lemma ReadsGoOn(w: World, pid: Pid, input: Input, id: Id)
    requires pid in w.callers && ReadsNext(w.callers[pid]) == Some(id) && DbOk(w.db)
    ensures var c := w.callers[pid]; var next := Next(w, Turn(pid, input, Fine)).callers[pid];
            && (id !in w.db.commands && c.Placing? && c.place.Looking? ==> next == Placing(Judging(c.place.cmd)))
            && (id !in w.db.commands && c.Resolving? ==> next == Resolving(Finished(true)))
            && (id in w.db.commands && !Known(w.db, id) && c.Resolving? ==>
                  && next.Resolving? && next.resolve.Fetching? && next.resolve.id == id
                  && next.resolve.plan.single.Some? && Tells(w.db, id, next.resolve.plan.single.value)
                  && next.resolve.plan.grace == c.resolve.plan.grace
                  && next.resolve.plan.window == c.resolve.plan.window)
  {
    KnownIsSettled(w.db, id);
  }

  /** What a placement of a command with a known outcome has come to. */
  ghost predicate Replaying(db: Db, cmd: Command, c: Caller) {
    c.Placing? &&
    match c.place
    case Looking(same) => same == cmd
    case Replied(receipt, failed, overruled) =>
      && receipt.id == cmd.id && !overruled
      && if failed then receipt.disposition == NotCreated && receipt.errorCode == STORAGE_FAILURE
         else receipt.disposition != Unknown && TellsOutcome(db, receipt)
    case _ => false
  }

  /** What is told of an outcome stays what is told of it. */
  lemma OutcomeStays(w: World, events: seq<Event>, r: Receipt)
    requires Inv(w) && Known(w.db, r.id)
    ensures Known(Run(w, events).db, r.id)
    ensures TellsOutcome(w.db, r) <==> TellsOutcome(Run(w, events).db, r)
  {
    KnownIsSettled(w.db, r.id);
    RunGrows(w, events);
    KnownIsSettled(Run(w, events).db, r.id);
    assert GrowsAt(w.db, Run(w, events).db, r.id);
  }

  lemma ReplayStep(w: World, e: Event, pid: Pid, cmd: Command, db: Db)
    requires Inv(w) && Known(w.db, cmd.id) && pid in w.callers && Replaying(db, cmd, w.callers[pid]) && e != Crash(pid)
    requires forall r: Receipt | r.id == cmd.id :: TellsOutcome(db, r) <==> TellsOutcome(w.db, r)
    ensures pid in Next(w, e).callers && Replaying(db, cmd, Next(w, e).callers[pid])
  {
    if e.Turn? && e.pid == pid {
      if w.callers[pid].place.Looking? && e.fault == Fine {
        ReadsAnswerTheRows(w, pid, e.input, cmd.id);
      }
    } else if !About(e, pid) {
      OthersLeaveCaller(w, e, pid);
    }
  }

  /** Placing a command again whose outcome is known, with whatever payload and whatever runs beside
      it, answers that outcome or an error of the store, and nothing else. */
  lemma {:induction false} KnownIsReplayed(w: World, events: seq<Event>, pid: Pid, cmd: Command)
    requires Inv(w) && pid !in w.callers && Known(w.db, cmd.id) && cmd.scope != KISLive
    requires Crash(pid) !in events
    ensures var v := Run(Next(w, Begin(pid, Place(cmd))), events);
            pid in v.callers && Replaying(w.db, cmd, v.callers[pid])
  {
    var w1 := Next(w, Begin(pid, Place(cmd)));
    assert RowOk(w.db, cmd.id);
    if events != [] {
      var front, last := events[..|events| - 1], events[|events| - 1];
      assert last in events;
      KnownIsReplayed(w, front, pid, cmd);
      NextKeeps(w, Begin(pid, Place(cmd)));
      RunKeeps(w1, front);
      hide Next, Inv, TellsOutcome, Replaying, Known;
      forall r: Receipt | r.id == cmd.id
        ensures Known(Run(w1, front).db, cmd.id) && (TellsOutcome(w.db, r) <==> TellsOutcome(Run(w1, front).db, r))
      {
        OutcomeStays(w1, front, r);
      }
      assert Known(Run(w1, front).db, cmd.id) by {
        OutcomeStays(w1, front, Receipt(cmd.id, Unknown, "", "", 0));
      }
      ReplayStep(Run(w1, front), last, pid, cmd, w.db);
    }
  }

  // ----- what a placement records and answers -----

  /** A caller between two of its own statements, whatever the others did meanwhile. */
  lemma Meanwhile(w: World, e: Event, pid: Pid, between: seq<Event>)
    requires Inv(w) && pid in Next(w, e).callers && Quiet(between, pid)
    ensures var u := Run(Next(w, e), between);
            Inv(u) && pid in u.callers && u.callers[pid] == Next(w, e).callers[pid]
            && CallerOk(u, u.callers[pid])
  {
    hide Next, Run;
    NextKeeps(w, e);
    RunKeeps(Next(w, e), between);
    QuietLeavesCaller(Next(w, e), between, pid);
  }

  /** The broker's answer to a send decides the final row and the caller's receipt: an acceptance with
      an order id is ACCEPTED with that id and the office number, anything else is UNKNOWN with the
      broker's code or the default one. A refused statement leaves the pending row, and one whose reply
      is lost does not; both are answered with the same receipt and an error. */
  lemma BrokerAnswerIsRecorded(w: World, pid: Pid, cmd: Command, r: BrokerResult, between: seq<Event>,
                               input: Input, fault: Fault)
    requires Inv(w) && pid in w.callers && w.callers[pid] == Placing(Awaiting(cmd)) && Quiet(between, pid)
    ensures var u := Run(Next(w, Turn(pid, Sent(r), Fine)), between);
            var accepted := r.accepted && r.brokerOrderId != "";
            var code := if r.errorCode == "" then "broker_unknown" else r.errorCode;
            var receipt := if accepted then Receipt(cmd.id, Accepted, r.brokerOrderId, "", w.now)
                           else Receipt(cmd.id, Unknown, "", code, w.now);
            var row := if accepted then CommandRow(Accepted, r.brokerOrderId, "", w.now, Final, cmd.scope, r.orgNo)
                       else CommandRow(Unknown, "", code, w.now, Final, cmd.scope, "");
            var v := Next(u, Turn(pid, input, fault));
            && v.db == (if fault == Refused then u.db else u.db.(commands := u.db.commands[cmd.id := row]))
            && pid in v.callers && v.callers[pid].Placing? && v.callers[pid].place.Replied?
            && v.callers[pid].place.receipt == receipt && v.callers[pid].place.failed == (fault != Fine)
  {
    hide Run, Next, Inv, Quiet, CallerOk;
    AnswerIsHeard(w, pid, cmd, r);
    Meanwhile(w, Turn(pid, Sent(r), Fine), pid, between);
    ReservedMeanwhile(w, Turn(pid, Sent(r), Fine), pid, cmd, between);
    AnswerIsFinalized(Run(Next(w, Turn(pid, Sent(r), Fine)), between), pid, input, fault);
  }

  /** The rows of a sent command stay what was reserved, whatever the others do. */
  lemma ReservedMeanwhile(w: World, e: Event, pid: Pid, cmd: Command, between: seq<Event>)
    requires Inv(w) && pid in w.callers && w.callers[pid] == Placing(Awaiting(cmd))
    ensures var db := Run(Next(w, e), between).db;
            Committed(db, cmd)
  {
    assert CallerOk(w, w.callers[pid]);
    NextGrows(w, e);
    NextKeeps(w, e);
    RunGrows(Next(w, e), between);
    assert GrowsAt(w.db, Next(w, e).db, cmd.id) && GrowsAt(Next(w, e).db, Run(Next(w, e), between).db, cmd.id);
  }

  lemma AnswerIsHeard(w: World, pid: Pid, cmd: Command, r: BrokerResult)
    requires pid in w.callers && w.callers[pid] == Placing(Awaiting(cmd))
    ensures var next := Next(w, Turn(pid, Sent(r), Fine));
            && next.db == w.db && pid in next.callers
            && next.callers[pid] ==
               Placing(if r.accepted && r.brokerOrderId != "" then
                         Finalizing(Receipt(cmd.id, Accepted, r.brokerOrderId, "", w.now), r.orgNo)
                       else
                         Finalizing(Receipt(cmd.id, Unknown, "",
                                            if r.errorCode == "" then "broker_unknown" else r.errorCode, w.now), ""))
  {
  }

  lemma AnswerIsFinalized(u: World, pid: Pid, input: Input, fault: Fault)
    requires pid in u.callers && u.callers[pid].Placing? && u.callers[pid].place.Finalizing?
    requires CallerOk(u, u.callers[pid])
    ensures var r, orgNo := u.callers[pid].place.receipt, u.callers[pid].place.orgNo;
            var row := CommandRow(r.disposition, r.brokerOrderId, r.errorCode, r.recordedAt, Final,
                                  u.db.commands[r.id].scope, orgNo);
            var v := Next(u, Turn(pid, input, fault));
            && v.db == (if fault == Refused then u.db else u.db.(commands := u.db.commands[r.id := row]))
            && pid in v.callers && v.callers[pid].Placing? && v.callers[pid].place.Replied?
            && v.callers[pid].place.receipt == r && v.callers[pid].place.failed == (fault != Fine)
  {
  }

  /** A command that is rejected before its reservation is stored NOT_CREATED with the code it was
      rejected for and no context, and so answered, unless its id was stored meanwhile. */
  lemma RejectionIsRecorded(w: World, pid: Pid, cmd: Command, code: string, between: seq<Event>,
                            input: Input, fault: Fault)
    requires Inv(w) && pid in w.callers && w.callers[pid] == Placing(Judging(cmd)) && Quiet(between, pid)
    ensures var u := Run(Next(w, Turn(pid, Judged(Rejected(code)), Fine)), between);
            var receipt := Receipt(cmd.id, NotCreated, "", code, w.now);
            var v := Next(u, Turn(pid, input, fault));
            && v.db == (if fault == Refused || cmd.id in u.db.commands then u.db
                        else u.db.(order := u.db.order + [cmd.id],
                                   commands := u.db.commands[cmd.id :=
                                     CommandRow(NotCreated, "", code, w.now, Final, KISMock, "")]))
            && pid in v.callers
            && v.callers[pid] == Placing(if fault == Fine && cmd.id in u.db.commands then RejectReading(receipt)
                                         else Replied(receipt, fault != Fine, false))
  {
    Meanwhile(w, Turn(pid, Judged(Rejected(code)), Fine), pid, between);
  }

  /** A command that may be sent is reserved with its own facts and the time it was judged, as a pending
      UNKNOWN row; the send follows exactly when this statement inserted both rows and said so. */
  lemma ReservationIsRecorded(w: World, pid: Pid, cmd: Command, between: seq<Event>, input: Input, fault: Fault)
    requires Inv(w) && pid in w.callers && w.callers[pid] == Placing(Judging(cmd)) && Quiet(between, pid)
    ensures var u := Run(Next(w, Turn(pid, Judged(Prepared), Fine)), between);
            var placeable := cmd.scope in {KISMock, KISMockUS, AlpacaPaperCrypto};
            var free := cmd.id !in u.db.commands;
            var facts := Facts(cmd.side, cmd.stockCode, cmd.quantity, cmd.price, w.now,
                               if cmd.scope == AlpacaPaperCrypto then cmd.id else "");
            var v := Next(u, Turn(pid, input, fault));
            && v.db == (if fault == Refused || !placeable || !free then u.db
                        else u.db.(order := u.db.order + [cmd.id],
                                   commands := u.db.commands[cmd.id :=
                                     CommandRow(Unknown, "", "send_pending", w.now, Pending, cmd.scope, "")],
                                   contexts := u.db.contexts[cmd.id := facts]))
            && pid in v.callers
            && v.callers[pid] ==
               Placing(if fault != Fine || !placeable then
                         Replied(Receipt(cmd.id, NotCreated, "", "storage_failure", u.now), true, false)
                       else if free then Sending(cmd)
                       else ReserveReading(cmd.id))
  {
    Meanwhile(w, Turn(pid, Judged(Prepared), Fine), pid, between);
  }

  /** A read that errs is answered with an error: the denial that could not be read back, or a storage
      failure. */
  lemma FailedReads(w: World, pid: Pid, input: Input, fault: Fault)
    requires pid in w.callers && w.callers[pid].Placing? && ReadsNext(w.callers[pid]).Some? && fault != Fine
    ensures Next(w, Turn(pid, input, fault)).db == w.db
    ensures Next(w, Turn(pid, input, fault)).callers[pid]
         == Placing(Replied(if w.callers[pid].place.RejectReading? then w.callers[pid].place.receipt
                            else Receipt(ReadsNext(w.callers[pid]).value, NotCreated, "", "storage_failure", w.now),
                            true, false))
  {
  }

  /** The cancel target of an accepted placement carries the facts that were sent and the order id and
      office number that were answered, in every later state. */
  lemma TargetIsWhatWasSent(w: World, pid: Pid, cmd: Command, r: BrokerResult, between: seq<Event>, later: seq<Event>)
    requires Inv(w) && pid in w.callers && w.callers[pid] == Placing(Awaiting(cmd)) && Quiet(between, pid)
    requires r.accepted && r.brokerOrderId != ""
    requires cmd.id !in Run(Next(w, Turn(pid, Sent(r), Fine)), between).db.resolutions
    ensures var u := Run(Next(w, Turn(pid, Sent(r), Fine)), between);
            var v := Run(Next(u, Turn(pid, Nothing, Fine)), later);
            CancelTarget(v.db, cmd.id)
            == Some(Target(cmd.id, cmd.scope, r.brokerOrderId, r.orgNo, cmd.side, cmd.stockCode, cmd.quantity,
                           cmd.price))
  {
    hide Run, Next, Inv, Quiet, CallerOk;
    AnswerIsHeard(w, pid, cmd, r);
    BrokerAnswerIsRecorded(w, pid, cmd, r, between, Nothing, Fine);
    Meanwhile(w, Turn(pid, Sent(r), Fine), pid, between);
    ReservedMeanwhile(w, Turn(pid, Sent(r), Fine), pid, cmd, between);
    FinalRowStands(Run(Next(w, Turn(pid, Sent(r), Fine)), between), pid, later);
  }

  /** After its finalization a row stands, with its context and its outcome. */
  lemma FinalRowStands(u: World, pid: Pid, later: seq<Event>)
    requires Inv(u) && pid in u.callers && u.callers[pid].Placing? && u.callers[pid].place.Finalizing?
    ensures var z := Next(u, Turn(pid, Nothing, Fine)); var v := Run(z, later);
            var id := u.callers[pid].place.receipt.id;
            && id in z.db.commands && id in v.db.commands && v.db.commands[id] == z.db.commands[id]
            && id in u.db.contexts && id in v.db.contexts && v.db.contexts[id] == u.db.contexts[id]
            && (Settled(z.db, id) ==> Outcome(Effective(v.db, id).value) == Outcome(Effective(z.db, id).value))
            && z.db.resolutions == u.db.resolutions
  {
    var z, id := Next(u, Turn(pid, Nothing, Fine)), u.callers[pid].place.receipt.id;
    assert CallerOk(u, u.callers[pid]);
    FinalizersFindTheirRow(u, pid, Nothing, Fine);
    NextKeeps(u, Turn(pid, Nothing, Fine));
    NextGrows(u, Turn(pid, Nothing, Fine));
    assert GrowsAt(u.db, z.db, id);
    UnownedRowsStand(z, later, id);
    RunGrows(z, later);
    assert GrowsAt(z.db, Run(z, later).db, id);
  }

  // ----- what a cancellation records and answers -----

  /** A stored attempt is answered as its row tells it, by a replay and after a lost race alike; a read
      that errs fails. */
  lemma AttemptIsReplayed(w: World, pid: Pid, id: Id, input: Input, fault: Fault)
    requires pid in w.callers
    requires w.callers[pid] == Cancelling(AttemptLooking(id)) || w.callers[pid] == Cancelling(CancelReserveReading(id))
    ensures var v := Next(w, Turn(pid, input, fault));
            && v.db == w.db
            && (fault != Fine ==> v.callers[pid] == Cancelling(CancelFailed))
            && (fault == Fine && id in w.db.cancels ==>
                  var row := w.db.cancels[id];
                  v.callers[pid]
                  == Cancelling(CancelReplied(CancelReceipt(id, row.state, row.errorCode, row.recordedAt))))
            && (fault == Fine && id !in w.db.cancels && w.callers[pid].cancel.AttemptLooking? ==>
                  v.callers[pid] == Cancelling(TargetLooking(id)))
  {
  }

  /** The target of a cancel is what the rows tell of an accepted command; nothing else has one. */
  lemma TargetIsRead(w: World, pid: Pid, id: Id, input: Input)
    requires Inv(w) && pid in w.callers && w.callers[pid] == Cancelling(TargetLooking(id))
    ensures var c := Next(w, Turn(pid, input, Fine)).callers[pid];
            && (c == Cancelling(CancelFailed) <==>
                  !exists r: Receipt :: r.id == id && TellsOutcome(w.db, r) && r.disposition == Accepted)
            && (c != Cancelling(CancelFailed) ==>
                  && c.Cancelling? && c.cancel.Preparing?
                  && var t := c.cancel.target;
                     && t.id == id && t.scope == w.db.commands[id].scope && t.orgNo == w.db.commands[id].orgNo
                     && (exists r: Receipt :: r.id == id && TellsOutcome(w.db, r) && r.disposition == Accepted
                                              && r.brokerOrderId == t.brokerOrderId)
                     && (id in w.db.contexts ==>
                           var x := w.db.contexts[id];
                           (t.side, t.stockCode, t.quantity, t.price) == (x.side, x.stockCode, x.quantity, x.price))
                     && (id !in w.db.contexts ==> (t.side, t.stockCode, t.quantity, t.price) == ("", "", "", "")))
  {
    assert RowOk(w.db, id);
    if Effective(w.db, id).Some? {
      assert TellsOutcome(w.db, Effective(w.db, id).value);
    }
  }

  /** A cancel that may be sent leaves a marker of the time it was prepared, if none is there and the
      command is accepted; the send follows exactly when this statement inserted it and said so. */
  lemma CancelReservationIsRecorded(w: World, pid: Pid, target: Target, between: seq<Event>, input: Input, fault: Fault)
    requires Inv(w) && pid in w.callers && w.callers[pid] == Cancelling(Preparing(target)) && Quiet(between, pid)
    ensures var u := Run(Next(w, Turn(pid, Judged(Prepared), Fine)), between);
            var free := target.id !in u.db.cancels;
            var v := Next(u, Turn(pid, input, fault));
            && v.db == (if fault == Refused || !free then u.db
                        else u.db.(cancels := u.db.cancels[target.id :=
                               CancelRow(CancelUnknown, "cancel_send_pending", w.now)]))
            && pid in v.callers
            && v.callers[pid] == Cancelling(if fault != Fine then CancelFailed
                                            else if free then CancelSending(target)
                                            else CancelReserveReading(target.id))
  {
    Meanwhile(w, Turn(pid, Judged(Prepared), Fine), pid, between);
  }

  /** The broker's answer to a cancel decides the row and the caller's receipt: CANCELLED and NOT_FOUND
      are what they say, anything else is UNKNOWN, with the broker's code or the default one. */
  lemma CancelAnswerIsRecorded(w: World, pid: Pid, target: Target, state: Option<CancelState>, code: string,
                               between: seq<Event>, input: Input, fault: Fault)
    requires Inv(w) && pid in w.callers && w.callers[pid] == Cancelling(CancelAwaiting(target)) && Quiet(between, pid)
    ensures var u := Run(Next(w, Turn(pid, CancelSent(state, code), Fine)), between);
            var row := match state
              case Some(Cancelled) => CancelRow(Cancelled, code, w.now)
              case Some(CancelNotFound) =>
                CancelRow(CancelNotFound, if code == "" then "cancel_not_found" else code, w.now)
              case _ => CancelRow(CancelUnknown, if code == "" then "broker_unknown" else code, w.now);
            var v := Next(u, Turn(pid, input, fault));
            && v.db == (if fault == Refused then u.db else u.db.(cancels := u.db.cancels[target.id := row]))
            && pid in v.callers
            && v.callers[pid] ==
               Cancelling(if fault != Fine then CancelFailed
                          else CancelReplied(CancelReceipt(target.id, row.state, row.errorCode, row.recordedAt)))
  {
    var u := Run(Next(w, Turn(pid, CancelSent(state, code), Fine)), between);
    CancelIsHeard(w, pid, target, state, code);
    Meanwhile(w, Turn(pid, CancelSent(state, code), Fine), pid, between);
    hide Run, Next, Inv, Quiet;
    CancelIsFinalized(u, pid, input, fault);
  }

  lemma CancelIsHeard(w: World, pid: Pid, target: Target, state: Option<CancelState>, code: string)
    requires pid in w.callers && w.callers[pid] == Cancelling(CancelAwaiting(target))
    ensures var next := Next(w, Turn(pid, CancelSent(state, code), Fine));
            pid in next.callers && next.callers[pid].Cancelling? && next.callers[pid].cancel.CancelFinalizing?
            && next.callers[pid].cancel.receipt == match state
                 case Some(Cancelled) => CancelReceipt(target.id, Cancelled, code, w.now)
                 case Some(CancelNotFound) =>
                   CancelReceipt(target.id, CancelNotFound, if code == "" then "cancel_not_found" else code, w.now)
                 case _ => CancelReceipt(target.id, CancelUnknown, if code == "" then "broker_unknown" else code, w.now)
  {
  }

  lemma CancelIsFinalized(u: World, pid: Pid, input: Input, fault: Fault)
    requires pid in u.callers && u.callers[pid].Cancelling? && u.callers[pid].cancel.CancelFinalizing?
    requires CallerOk(u, u.callers[pid])
    ensures var r := u.callers[pid].cancel.receipt; var v := Next(u, Turn(pid, input, fault));
            && v.db == (if fault == Refused then u.db
                        else u.db.(cancels := u.db.cancels[r.id := CancelRow(r.state, r.errorCode, r.recordedAt)]))
            && pid in v.callers
            && v.callers[pid] == Cancelling(if fault != Fine then CancelFailed else CancelReplied(r))
  {
  }

  // ----- what a single check records and answers -----

  /** Without a setting of its own a check waits ten minutes and matches within five. */
  function GraceAsked(grace: Time): Time {
    if grace == 0 then 600_000_000_000 else grace
  }

  function WindowAsked(window: Time): Time {
    if window == 0 then 300_000_000_000 else window
  }

  function Step(w: World, pid: Pid, input: Input): World {
    Next(w, Turn(pid, input, Fine))
  }

  /** A single check up to its judgement of the evidence for its command. */
  function CheckRead(w: World, pid: Pid, id: Id, grace: Time, window: Time, key: EvidenceKey, evidence: Evidence): World
  {
    var begun := Next(w, Begin(pid, ResolveOne(id, grace, window)));
    var fetched := Step(Step(begun, pid, Nothing), pid, Nothing);
    Step(Step(fetched, pid, Chosen(key)), pid, Answered(evidence))
  }

  /** The judgement, the statement it calls for and the read-back. */
  function CheckConclude(w: World, pid: Pid): World {
    Step(Step(Step(w, pid, Nothing), pid, Nothing), pid, Nothing)
  }

  /** A single check that nobody disturbs. */
  function LoneCheck(w: World, pid: Pid, id: Id, grace: Time, window: Time, key: EvidenceKey, evidence: Evidence): World
  {
    CheckConclude(CheckRead(w, pid, id, grace, window, key, evidence), pid)
  }

  function At(w: World, pid: Pid, pc: ResolvePc): World {
    w.(callers := w.callers[pid := Resolving(pc)])
  }

  lemma StepIs(w: World, pid: Pid, pc: ResolvePc, input: Input)
    ensures var s := ExecResolve(w.db, w.now, pc, input, Fine);
            Step(At(w, pid, pc), pid, input) == At(w.(db := s.db), pid, s.pc)
  {
    var s := ExecResolve(w.db, w.now, pc, input, Fine);
    assert w.callers[pid := Resolving(pc)][pid := Resolving(s.pc)] == w.callers[pid := Resolving(s.pc)];
  }

  lemma CheckOpens(w: World, pid: Pid, id: Id, grace: Time, window: Time, plan: Plan)
    requires pid !in w.callers && ValidCommandId(id) && Unresolved(w.db, id)
    requires plan == PlanFor(grace, window).(single := Effective(w.db, id))
    ensures var begun := Next(w, Begin(pid, ResolveOne(id, grace, window)));
            Step(Step(begun, pid, Nothing), pid, Nothing) == At(w, pid, Choosing([PendingItem(w.db, id)], plan))
  {
    hide Judge, ValidResolution, AppendResolution, ValidCommandId, PendingItem;
    StepIs(w, pid, Finding(id, PlanFor(grace, window)), Nothing);
    StepIs(w, pid, Fetching(id, plan), Nothing);
  }

  lemma OneGroup(item: Item)
    ensures WithKey([item], KeyOf(item)) == [item] && WithoutKey([item], KeyOf(item)) == []
  {
    assert [item][1..] == [];
  }

  lemma CheckReads(w: World, pid: Pid, id: Id, grace: Time, window: Time, evidence: Evidence, plan: Plan)
    requires pid !in w.callers && ValidCommandId(id) && Unresolved(w.db, id)
    requires plan == PlanFor(grace, window).(single := Effective(w.db, id))
    ensures var item := PendingItem(w.db, id);
            CheckRead(w, pid, id, grace, window, KeyOf(item), evidence)
            == At(w, pid, Concluding(evidence, [item], [], plan))
  {
    var item := PendingItem(w.db, id);
    CheckOpens(w, pid, id, grace, window, plan);
    OneGroup(item);
    hide Judge, KeyOf, ValidResolution, AppendResolution, PlanFor, Step, Next, PendingItem, WithKey, WithoutKey;
    StepIs(w, pid, Choosing([item], plan), Chosen(KeyOf(item)));
    StepIs(w, pid, Reading(KeyOf(item), [item], [], plan), Answered(evidence));
  }

  lemma CheckLeaves(w: World, pid: Pid, item: Item, evidence: Evidence, plan: Plan)
    requires plan.single.Some?
    requires Judge(item, evidence, w.now, plan.grace, plan.window, true) == Leave
    ensures var read := At(w, pid, Concluding(evidence, [item], [], plan));
            CheckConclude(read, pid) == At(w, pid, Checked(plan.single.value))
  {
    assert [item][1..] == [];
    StepIs(w, pid, Concluding(evidence, [item], [], plan), Nothing);
    hide Judge, Step;
    StepIs(w, pid, Concluding(evidence, [], [], plan), Nothing);
    StepIs(w, pid, Checked(plan.single.value), Nothing);
  }

  lemma CheckAppends(w: World, pid: Pid, item: Item, evidence: Evidence, plan: Plan, c: Conclusion)
    requires plan.single.Some? && Unresolved(w.db, item.id)
    requires c == Judge(item, evidence, w.now, plan.grace, plan.window, true) != Leave
    requires ValidResolution(item.id, RowFor(c, w.now))
    ensures var read := At(w, pid, Concluding(evidence, [item], [], plan)); var row := RowFor(c, w.now);
            CheckConclude(read, pid)
            == At(w.(db := w.db.(resolutions := w.db.resolutions[item.id := row])), pid,
                  Checked(Receipt(item.id, row.disposition, row.brokerOrderId, row.errorCode,
                                  w.db.commands[item.id].recordedAt)))
  {
    StepIs(w, pid, Concluding(evidence, [item], [], plan), Nothing);
    hide Judge, Step;
    StepIs(w, pid, Appending(c, evidence, [item], [], plan), Nothing);
    assert [item][1..] == [];
    var v := w.(db := AppendResolution(w.db, item.id, RowFor(c, w.now)));
    StepIs(v, pid, Confirming(item.id, evidence, [], [], plan), Nothing);
  }

  /** The rows and the answer a check ends with, by what it concludes. */
  ghost predicate Left(w: World, v: World, pid: Pid, id: Id) {
    v.db == w.db && pid in v.callers && v.callers[pid].Resolving? && v.callers[pid].resolve.Checked?
    && Tells(w.db, id, v.callers[pid].resolve.receipt) && v.callers[pid].resolve.receipt.disposition == Unknown
  }

  ghost predicate Resolved(w: World, v: World, pid: Pid, id: Id, row: Resolution) {
    && id in w.db.commands && v.db == w.db.(resolutions := w.db.resolutions[id := row])
    && pid in v.callers
    && v.callers[pid] == Resolving(Checked(Receipt(id, row.disposition, row.brokerOrderId, row.errorCode,
                                                   w.db.commands[id].recordedAt)))
  }

  lemma ReadEnds(w: World, pid: Pid, item: Item, evidence: Evidence, plan: Plan)
    requires plan.single.Some? && Unresolved(w.db, item.id) && ValidCommandId(item.id)
    requires Tells(w.db, item.id, plan.single.value) && plan.single.value.disposition == Unknown
    ensures var read := At(w, pid, Concluding(evidence, [item], [], plan));
            var v := CheckConclude(read, pid);
            match Judge(item, evidence, w.now, plan.grace, plan.window, true)
            case Leave => Left(w, v, pid, item.id)
            case Accept(oid) => oid != "" ==> Resolved(w, v, pid, item.id, Resolution(Accepted, oid, "", w.now))
            case Absent => Resolved(w, v, pid, item.id, Resolution(NotCreated, "", "resolved_absent", w.now))
  {
    hide Step, Judge, Tells, ValidCommandId;
    var c := Judge(item, evidence, w.now, plan.grace, plan.window, true);
    match c {
      case Leave => CheckLeaves(w, pid, item, evidence, plan);
      case Accept(oid) =>
        if oid != "" {
          CheckAppends(w, pid, item, evidence, plan, c);
        }
      case Absent => CheckAppends(w, pid, item, evidence, plan, c);
    }
  }

  lemma CheckEnds(w: World, pid: Pid, id: Id, grace: Time, window: Time, evidence: Evidence)
    requires pid !in w.callers && DbOk(w.db) && Unresolved(w.db, id)
    ensures var item := PendingItem(w.db, id);
            var g, win := GraceAsked(grace), WindowAsked(window);
            var v := LoneCheck(w, pid, id, grace, window, KeyOf(item), evidence);
            match Judge(item, evidence, w.now, g, win, true)
            case Leave => Left(w, v, pid, id)
            case Accept(oid) => oid != "" ==> Resolved(w, v, pid, id, Resolution(Accepted, oid, "", w.now))
            case Absent => Resolved(w, v, pid, id, Resolution(NotCreated, "", "resolved_absent", w.now))
  {
    hide Step, Judge, KeyOf, Left, Resolved, Next, Tells, Effective, DbOk, PendingItem;
    UnresolvedTells(w.db, id);
    var plan := PlanFor(grace, window).(single := Effective(w.db, id));
    CheckReads(w, pid, id, grace, window, evidence, plan);
    ReadEnds(w, pid, PendingItem(w.db, id), evidence, plan);
  }

  lemma UnresolvedTells(db: Db, id: Id)
    requires DbOk(db) && Unresolved(db, id)
    ensures ValidCommandId(id) && PendingItem(db, id).id == id && Effective(db, id).Some?
    ensures Tells(db, id, Effective(db, id).value) && Effective(db, id).value.disposition == Unknown
  {
    assert RowOk(db, id);
  }

  /** A single check of a KIS command given a completed day ends by the rows of that day alone: with the
      one matching order's id as the command's additive row and as the answer, with neither when several
      match, and with an absence if and only if none does, the grace is over and the command has a context
      or the day is empty. The facts and the time of the send are the context's; without one the grace
      counts from the receipt. */
  lemma DayCheckDecides(w: World, pid: Pid, id: Id, grace: Time, window: Time, orders: seq<Order>)
    requires pid !in w.callers && DbOk(w.db) && Unresolved(w.db, id) && w.db.commands[id].scope in {KISMock, KISMockUS}
    ensures var item := PendingItem(w.db, id);
            if id in w.db.contexts then
              var x := w.db.contexts[id];
              && item.sentAt == x.sentAt
              && (item.side, item.stockCode, item.quantity, item.price) == (x.side, x.stockCode, x.quantity, x.price)
            else item.sentAt == w.db.commands[id].recordedAt
    ensures var item := PendingItem(w.db, id);
            var g, win := GraceAsked(grace), WindowAsked(window);
            var v := LoneCheck(w, pid, id, grace, window, KeyOf(item), DayOrders(orders));
            && (forall k: nat | OnlyMatch(item, orders, win, k) && orders[k].brokerOrderId != "" ::
                  Resolved(w, v, pid, id, Resolution(Accepted, orders[k].brokerOrderId, "", w.now)))
            && (TwoMatch(item, orders, win) ==> Left(w, v, pid, id))
            && (NoneMatches(item, orders, win) ==>
                  if w.now >= item.sentAt + g && (id in w.db.contexts || orders == []) then
                    Resolved(w, v, pid, id, Resolution(NotCreated, "", "resolved_absent", w.now))
                  else Left(w, v, pid, id))
  {
    var g, win := GraceAsked(grace), WindowAsked(window);
    CheckEnds(w, pid, id, grace, window, DayOrders(orders));
    DayDecides(PendingItem(w.db, id), orders, w.now, g, win, true);
  }

  /** A check of an Alpaca command whose client order id was stored ends by what the lookup found. */
  lemma LookupCheckDecides(w: World, pid: Pid, id: Id, grace: Time, window: Time, found: bool, oid: string)
    requires pid !in w.callers && DbOk(w.db) && Unresolved(w.db, id) && w.db.commands[id].scope == AlpacaPaperCrypto
    ensures var item := PendingItem(w.db, id);
            var g := GraceAsked(grace);
            var v := LoneCheck(w, pid, id, grace, window, KeyOf(item), ClientOrder(found, oid));
            if !(id in w.db.contexts && w.db.contexts[id].clientOrderId == id) then Left(w, v, pid, id)
            else if found && oid != "" then Resolved(w, v, pid, id, Resolution(Accepted, oid, "", w.now))
            else if w.now >= w.db.contexts[id].sentAt + g then
              Resolved(w, v, pid, id, Resolution(NotCreated, "", "resolved_absent", w.now))
            else Left(w, v, pid, id)
  {
    assert RowOk(w.db, id);
    var g, win := GraceAsked(grace), WindowAsked(window);
    CheckEnds(w, pid, id, grace, window, ClientOrder(found, oid));
    LookupDecides(PendingItem(w.db, id), found, oid, w.now, g, win, true);
  }
}
