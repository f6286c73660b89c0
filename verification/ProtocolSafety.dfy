/** What holds of placements, cancellations and answers over every run of the protocol. */
module ProtocolSafety {
  import opened Contracts
  import opened Tables
  import opened Evidence
  import opened Protocol
  import opened ProtocolInvariant

  // ----- growth -----

  lemma NextGrows(w: World, e: Event)
    requires Inv(w)
    ensures Grows(w.db, Next(w, e).db)
  {
    var b := Next(w, e).db;
    SameDbKeeps(w.db);
    if e.Turn? && e.pid in w.callers {
      assert CallerOk(w, w.callers[e.pid]);
      match w.callers[e.pid] {
        case Placing(pc) => PlaceDb(w.db, w.now, pc, e.input, e.fault, w.sends);
        case Cancelling(pc) => CancelDb(w.db, w.now, pc, e.input, e.fault);
        case Resolving(pc) => ResolveDb(w.db, w.now, pc, e.input, e.fault);
      }
    }
    forall id ensures GrowsAt(w.db, b, id) {
    }
  }

  lemma {:induction false} RunGrows(w: World, events: seq<Event>)
    requires Inv(w)
    ensures Inv(Run(w, events)) && Grows(w.db, Run(w, events).db)
  {
    RunKeeps(w, events);
    if events == [] {
      SameDbKeeps(w.db);
      assert forall id :: GrowsAt(w.db, w.db, id);
    } else {
      var front := events[..|events| - 1];
      RunGrows(w, front);
      NextGrows(Run(w, front), events[|events| - 1]);
      GrowsTransitive(w.db, Run(w, front).db, Run(w, events).db);
    }
  }

  // ----- placement -----

  /** From any tables left behind by earlier releases, over every interleaving, fault and crash:
      no command id is ever sent twice, and every send stands on a committed row whose context
      holds the sent command's own facts and which is never NOT_CREATED. */
  lemma AtMostOneSend(w: World, events: seq<Event>)
    requires Init(w)
    ensures var v := Run(w, events);
            && (forall i, j | 0 <= i < j < |v.sends| :: v.sends[i].id != v.sends[j].id)
            && (forall i | 0 <= i < |v.sends| ::
                  && Committed(v.db, v.sends[i])
                  && v.db.commands[v.sends[i].id].disposition != NotCreated)
  {
    InitHolds(w);
    RunKeeps(w, events);
    var v := Run(w, events);
    forall i | 0 <= i < |v.sends| ensures v.db.commands[v.sends[i].id].disposition != NotCreated {
      assert Committed(v.db, v.sends[i]) && RowOk(v.db, v.sends[i].id);
    }
  }

  /** The instant of a send: the pending UNKNOWN row is already committed, with the facts of this
      very command, nothing was sent for it before, and the sender is its only owner. */
  lemma SendBoundary(w: World, e: Event)
    requires Inv(w) && Next(w, e).sends != w.sends
    ensures e.Turn? && e.pid in w.callers && w.callers[e.pid].Placing? && w.callers[e.pid].place.Sending?
    ensures var cmd := w.callers[e.pid].place.cmd;
            && Next(w, e).sends == w.sends + [cmd]
            && Reserved(w.db, cmd) && w.db.commands[cmd.id].disposition == Unknown
            && cmd.id !in SentIds(w.sends)
            && (forall q | q in w.callers && q != e.pid :: Owns(w.callers[q]) != Some(cmd.id))
  {
    assert e.Turn? && e.pid in w.callers;
    assert CallerOk(w, w.callers[e.pid]);
    var cmd := w.callers[e.pid].place.cmd;
    assert RowOk(w.db, cmd.id);
    assert Owns(w.callers[e.pid]) == Some(cmd.id);
  }

  ghost predicate AboutToSend(w: World, id: Id) {
    exists p :: p in w.callers && w.callers[p].Placing? && w.callers[p].place.Sending?
        && w.callers[p].place.cmd.id == id
  }

  /** Reusing a stored id never sends: whatever the payload and whoever calls, a stored command
      that is not already at its send step gets no send in any run. A crash between the commit
      and the send is one such case. */
  lemma {:induction false} StoredIdNeverSendsAgain(w: World, events: seq<Event>, id: Id)
    requires Inv(w) && id in w.db.commands && !AboutToSend(w, id)
    ensures id in Run(w, events).db.commands && !AboutToSend(Run(w, events), id)
    ensures id in SentIds(Run(w, events).sends) <==> id in SentIds(w.sends)
  {
    if events != [] {
      var front := events[..|events| - 1];
      StoredIdNeverSendsAgain(w, front, id);
      RunKeeps(w, front);
      StoredIdStep(Run(w, front), events[|events| - 1], id);
    }
  }

  lemma StoredIdStep(w: World, e: Event, id: Id)
    requires Inv(w) && id in w.db.commands && !AboutToSend(w, id)
    ensures id in Next(w, e).db.commands && !AboutToSend(Next(w, e), id)
    ensures id in SentIds(Next(w, e).sends) <==> id in SentIds(w.sends)
  {
    var v := Next(w, e);
    NextGrows(w, e);
    assert GrowsAt(w.db, v.db, id);
    if v.sends != w.sends {
      SendBoundary(w, e);
      assert w.callers[e.pid].place.cmd.id != id;
      assert forall i | 0 <= i < |w.sends| :: v.sends[i] == w.sends[i];
    }
    forall p | p in v.callers && v.callers[p].Placing? && v.callers[p].place.Sending?
      ensures v.callers[p].place.cmd.id != id
    {
      if p in w.callers && w.callers[p].Placing? && w.callers[p].place.Sending? {
      } else if e.Turn? && e.pid == p {
        assert CallerOk(w, w.callers[p]);
        PlaceSelf(w, w.now, w.callers[p].place, e.input, e.fault);
      }
    }
  }

  // ----- the outcome of a command -----

  /** The effective disposition, order id and error code leave UNKNOWN at most once: whatever
      finalizers and resolvers do later, in whatever order, a settled outcome never moves. */
  lemma SettledForever(w: World, events: seq<Event>, id: Id)
    requires Inv(w) && Settled(w.db, id)
    ensures var db := Run(w, events).db;
            Settled(db, id) && Outcome(Effective(db, id).value) == Outcome(Effective(w.db, id).value)
  {
    RunGrows(w, events);
    assert GrowsAt(w.db, Run(w, events).db, id);
  }

  /** ResolveUnknown never reports UNKNOWN, even when it worked from a stale snapshot or lost the
      race: by its read-back the command is settled. */
  lemma ResolveUnknownConcludes(w: World, pid: Pid)
    requires Inv(w) && pid in w.callers && w.callers[pid].Resolving? && w.callers[pid].resolve.Confirming?
    ensures var pc := w.callers[pid].resolve;
            && Effective(w.db, pc.id).Some?
            && Effective(w.db, pc.id).value.disposition != Unknown
            && (pc.plan.single.Some? ==>
                  Next(w, Turn(pid, Nothing, Fine)).callers[pid] == Resolving(Checked(Effective(w.db, pc.id).value)))
  {
    assert CallerOk(w, w.callers[pid]);
  }

  // ----- rows nobody owns -----

  ghost predicate Unowned(w: World, id: Id) {
    forall p | p in w.callers :: Owns(w.callers[p]) != Some(id)
  }

  ghost predicate CancelUnowned(w: World, id: Id) {
    forall p | p in w.callers :: OwnsCancel(w.callers[p]) != Some(id)
  }

  lemma UnownedStep(w: World, e: Event, id: Id)
    requires Inv(w)
    ensures id in w.db.commands && Unowned(w, id) ==>
              Unowned(Next(w, e), id) && id in Next(w, e).db.commands && Next(w, e).db.commands[id] == w.db.commands[id]
    ensures id in w.db.cancels && CancelUnowned(w, id) ==>
              CancelUnowned(Next(w, e), id) && id in Next(w, e).db.cancels && Next(w, e).db.cancels[id]
                  == w.db.cancels[id]
  {
    var v := Next(w, e);
    NoEmptyId(w.db);
    SameDbKeeps(w.db);
    if e.Turn? && e.pid in w.callers {
      assert CallerOk(w, w.callers[e.pid]);
      match w.callers[e.pid] {
        case Placing(pc) =>
          PlaceDb(w.db, w.now, pc, e.input, e.fault, w.sends);
          PlaceSelf(w, w.now, pc, e.input, e.fault);
          assert LeavesAt(w.db, v.db, TouchedBy(pc), "", id);
        case Cancelling(pc) =>
          CancelDb(w.db, w.now, pc, e.input, e.fault);
          CancelSelf(w, w.now, pc, e.input, e.fault);
          assert LeavesAt(w.db, v.db, "", CancelledBy(pc), id);
        case Resolving(pc) =>
          ResolveDb(w.db, w.now, pc, e.input, e.fault);
          assert LeavesAt(w.db, v.db, "", "", id);
      }
    }
  }

  /** Only the reserver writes a row, and at most once: from the moment no live caller owns it,
      whether it finalized or died, a commands row and a cancel row stand unchanged forever. */
  lemma {:induction false} UnownedRowsStand(w: World, events: seq<Event>, id: Id)
    requires Inv(w)
    ensures id in w.db.commands && Unowned(w, id) ==>
              Unowned(Run(w, events), id)
              && id in Run(w, events).db.commands && Run(w, events).db.commands[id] == w.db.commands[id]
    ensures id in w.db.cancels && CancelUnowned(w, id) ==>
              CancelUnowned(Run(w, events), id)
              && id in Run(w, events).db.cancels && Run(w, events).db.cancels[id] == w.db.cancels[id]
  {
    if events != [] {
      var front := events[..|events| - 1];
      UnownedRowsStand(w, front, id);
      RunKeeps(w, front);
      UnownedStep(Run(w, front), events[|events| - 1], id);
    }
  }

  /** A finalizing step always finds its own pending row and gives up the ownership: the branches
      that read back after an UPDATE without effect are never taken. */
  lemma FinalizersFindTheirRow(w: World, pid: Pid, input: Input, fault: Fault)
    requires Inv(w) && pid in w.callers
    ensures var c := Next(w, Turn(pid, input, fault)).callers[pid];
            && !(c.Placing? && c.place.FinalReading?) && !(c.Cancelling? && c.cancel.CancelFinalReading?)
    ensures w.callers[pid].Placing? && w.callers[pid].place.Finalizing? ==>
              Unowned(Next(w, Turn(pid, input, fault)), w.callers[pid].place.receipt.id)
    ensures w.callers[pid].Cancelling? && w.callers[pid].cancel.CancelFinalizing? ==>
              CancelUnowned(Next(w, Turn(pid, input, fault)), w.callers[pid].cancel.receipt.id)
  {
    NextKeeps(w, Turn(pid, input, fault));
    assert CallerOk(w, w.callers[pid]);
    assert CallerOk(Next(w, Turn(pid, input, fault)), Next(w, Turn(pid, input, fault)).callers[pid]);
  }

  // ----- cancellation -----

  /** Over every interleaving and crash no command is cancelled twice at the broker, and every
      cancel sent names the order id that is, and stays, the command's effective accepted one. */
  lemma AtMostOneCancel(w: World, events: seq<Event>)
    requires Init(w)
    ensures var v := Run(w, events);
            && (forall i, j | 0 <= i < j < |v.cancelSends| :: v.cancelSends[i].id != v.cancelSends[j].id)
            && (forall i | 0 <= i < |v.cancelSends| ::
                  TargetLive(v.db, v.cancelSends[i]) && v.cancelSends[i].id in v.db.cancels)
  {
    InitHolds(w);
    RunKeeps(w, events);
  }

  /** Everything FindCancelTarget reads outside the reservation stays true forever, except the
      forwarding office number, which a late finalize may still fill in. */
  lemma TargetReadStaysTrue(w: World, events: seq<Event>, id: Id)
    requires Inv(w) && CancelTarget(w.db, id).Some?
    ensures var now := CancelTarget(Run(w, events).db, id);
            now.Some? && now.value.(orgNo := "") == CancelTarget(w.db, id).value.(orgNo := "")
  {
    RunGrows(w, events);
    assert GrowsAt(w.db, Run(w, events).db, id);
  }

  /** A reservation that inserts nothing lost to another marker: "cancel target disappeared" is
      unreachable without a fault. */
  lemma CancelReserveNeverDisappears(w: World, pid: Pid)
    requires Inv(w) && pid in w.callers && w.callers[pid].Cancelling?
    requires w.callers[pid].cancel.CancelReserving? || w.callers[pid].cancel.CancelReserveReading?
    ensures Next(w, Turn(pid, Nothing, Fine)).callers[pid] != Cancelling(CancelFailed)
  {
    assert CallerOk(w, w.callers[pid]);
  }

  /** A conclusive cancel answer is the recorded state forever after. */
  lemma CancelAnswersHold(w: World, pid: Pid, events: seq<Event>)
    requires Inv(w) && pid in w.callers && w.callers[pid].Cancelling? && w.callers[pid].cancel.CancelReplied?
    requires w.callers[pid].cancel.receipt.state != CancelUnknown
    ensures var r := w.callers[pid].cancel.receipt; var db := Run(w, events).db;
            r.id in db.cancels && db.cancels[r.id].state == r.state
  {
    var r := w.callers[pid].cancel.receipt;
    assert CallerOk(w, w.callers[pid]);
    forall p | p in w.callers ensures OwnsCancel(w.callers[p]) != Some(r.id) {
      assert CallerOk(w, w.callers[p]);
    }
    UnownedRowsStand(w, events, r.id);
  }

  // ----- answers -----

  /** An answer from the tables agrees with them in its whole outcome, in every later state, exactly
      when it was not overruled. Replays and read-backs never are; see NeverOverruledButFinalize. */
  lemma AnswersHold(w: World, pid: Pid, events: seq<Event>)
    requires Inv(w) && pid in w.callers && w.callers[pid].Placing? && w.callers[pid].place.Replied?
    requires !w.callers[pid].place.failed
    ensures Agrees(Run(w, events).db, w.callers[pid].place.receipt) <==> !w.callers[pid].place.overruled
  {
    var pc := w.callers[pid].place;
    assert CallerOk(w, w.callers[pid]);
    RunGrows(w, events);
    var db := Run(w, events).db;
    assert GrowsAt(w.db, db, pc.receipt.id) && RowOk(w.db, pc.receipt.id);
  }

  /** Finalize alone gives answers that the tables overrule: a replay, a read-back and a stored
      denial answer what the tables say. */
  lemma NeverOverruledButFinalize(w: World, pid: Pid, input: Input, fault: Fault)
    requires Inv(w) && pid in w.callers && w.callers[pid].Placing? && !w.callers[pid].place.Replied?
    requires var pc := Next(w, Turn(pid, input, fault)).callers[pid].place;
             pc.Replied? && pc.overruled
    ensures w.callers[pid].place.Finalizing? && fault == Fine
    ensures var pc := Next(w, Turn(pid, input, fault)).callers[pid].place;
            pc.receipt == w.callers[pid].place.receipt && Contradicted(w.db, pc.receipt)
  {
    assert CallerOk(w, w.callers[pid]);
  }

  /** Finalize returns its caller's own receipt. The answer it gives is true in its whole outcome,
      now and forever, if and only if no resolution row with another outcome stood when its UPDATE
      committed, or it claims nothing. */
  lemma FinalizeAnswerIffNotContradicted(w: World, pid: Pid, events: seq<Event>)
    requires Inv(w) && pid in w.callers && w.callers[pid].Placing? && w.callers[pid].place.Finalizing?
    ensures var receipt := w.callers[pid].place.receipt; var v := Next(w, Turn(pid, Nothing, Fine));
            && v.callers[pid].place.Replied? && v.callers[pid].place.receipt == receipt
            && !v.callers[pid].place.failed
            && (Agrees(Run(v, events).db, receipt) <==> !Contradicted(w.db, receipt))
  {
    assert CallerOk(w, w.callers[pid]);
    NextKeeps(w, Turn(pid, Nothing, Fine));
    AnswersHold(Next(w, Turn(pid, Nothing, Fine)), pid, events);
  }

  /** A single check's answer is UNKNOWN or the whole effective outcome, then and ever after. */
  lemma ChecksHold(w: World, pid: Pid, events: seq<Event>)
    requires Inv(w) && pid in w.callers && w.callers[pid].Resolving? && w.callers[pid].resolve.Checked?
    ensures Agrees(Run(w, events).db, w.callers[pid].resolve.receipt)
  {
    var receipt := w.callers[pid].resolve.receipt;
    assert CallerOk(w, w.callers[pid]);
    RunGrows(w, events);
    assert GrowsAt(w.db, Run(w, events).db, receipt.id);
  }

  /** A command once answered ACCEPTED can always be found for cancellation, and a cancel then
      names the very order id that was answered. */
  lemma AcceptedIsCancellable(w: World, pid: Pid, events: seq<Event>)
    requires Inv(w) && pid in w.callers && w.callers[pid].Placing? && w.callers[pid].place.Replied?
    requires !w.callers[pid].place.failed && !w.callers[pid].place.overruled
    requires w.callers[pid].place.receipt.disposition == Accepted
    ensures var receipt := w.callers[pid].place.receipt; var target := CancelTarget(Run(w, events).db, receipt.id);
            target.Some? && target.value.brokerOrderId == receipt.brokerOrderId
  {
    var id := w.callers[pid].place.receipt.id;
    AnswersHold(w, pid, events);
    RunKeeps(w, events);
    assert RowOk(Run(w, events).db, id);
  }

  /** An answer given before the tables were looked at is the same denial always, and no statement
      is made for it. */
  lemma UnstoredIsInvalid(w: World, pid: Pid, input: Input, fault: Fault)
    requires Inv(w) && pid in w.callers && w.callers[pid].Placing? && w.callers[pid].place.Unstored?
    ensures var receipt := w.callers[pid].place.receipt;
            receipt.disposition == NotCreated && receipt.errorCode == INVALID_COMMAND
    ensures Next(w, Turn(pid, input, fault)) == w
  {
    assert CallerOk(w, w.callers[pid]);
    assert w.callers[pid := w.callers[pid]] == w.callers;
  }
}
