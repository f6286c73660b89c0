/** A batch that ends without an error has come to every command that had no outcome when it began. */
module ProtocolBatch {
  import opened Contracts
  import opened Tables
  import opened Evidence
  import opened Protocol
  import opened ProtocolInvariant
  import opened ProtocolSafety
  import opened ProtocolEvidence
  import opened ProtocolAnswers

  predicate Among(items: seq<Item>, id: Id) {
    exists i :: 0 <= i < |items| && items[i].id == id
  }

  /** The caller is a batch. */
  predicate IsBatch(c: Caller) {
    c.Resolving? && !c.resolve.Finding? && !c.resolve.Fetching? && !c.resolve.Checked?
    && (PlanOf(c.resolve).Some? ==> PlanOf(c.resolve).value.single.None?)
  }

  /** A batch has yet to come to a command of this scope, or has failed. */
  predicate Due(pc: ResolvePc, scope: Scope, id: Id) {
    match pc
    case FetchingKIS(_) => true
    case FetchingAlpaca(todo, _) => scope == AlpacaPaperCrypto || Among(todo, id)
    case Choosing(todo, _) => Among(todo, id)
    case Reading(_, items, todo, _) => Among(items, id) || Among(todo, id)
    case Concluding(_, items, todo, _) => Among(items, id) || Among(todo, id)
    case Appending(_, _, items, todo, _) => Among(items, id) || Among(todo, id)
    case Confirming(_, _, items, todo, _) => Among(items, id) || Among(todo, id)
    case Finished(failed) => failed
    case _ => false
  }

  /** The event is the batch judging the command's item and leaving it, by the evidence it has read. */
  predicate Leaves(w: World, e: Event, pid: Pid, id: Id) {
    e.Turn? && e.pid == pid && pid in w.callers && w.callers[pid].Resolving? && w.callers[pid].resolve.Concluding? &&
    var pc := w.callers[pid].resolve;
    pc.items != [] && pc.items[0].id == id
    && Judge(pc.items[0], pc.evidence, w.now, pc.plan.grace, pc.plan.window, false) == Leave
  }

  ghost predicate WasLeft(w: World, events: seq<Event>, pid: Pid, id: Id) {
    exists k :: 0 <= k < |events| && Leaves(Run(w, events[..k]), events[k], pid, id)
  }

  lemma WasLeftMore(w: World, front: seq<Event>, e: Event, pid: Pid, id: Id)
    requires WasLeft(w, front, pid, id) || Leaves(Run(w, front), e, pid, id)
    ensures WasLeft(w, front + [e], pid, id)
  {
    hide Run, Leaves;
    var events := front + [e];
    assert events[..|front|] == front && events[|front|] == e;
    if k :| 0 <= k < |front| && Leaves(Run(w, front[..k]), front[k], pid, id) {
      assert events[..k] == front[..k] && events[k] == front[k];
    }
  }

  lemma AmongTail(items: seq<Item>, id: Id)
    requires items != [] && Among(items, id) && items[0].id != id
    ensures Among(items[1..], id)
  {
    var i :| 0 <= i < |items| && items[i].id == id;
    assert items[1..][i - 1] == items[i];
  }

  lemma AmongListed(db: Db, todo: seq<Item>, scopes: set<Scope>, id: Id)
    requires OrderOk(db) && (Among(todo, id) || Listed(db, scopes, id))
    ensures Among(todo + PendingAmong(db, scopes, db.order), id)
  {
    var listed := PendingAmong(db, scopes, db.order);
    if Among(todo, id) {
      var i :| 0 <= i < |todo| && todo[i].id == id;
      assert (todo + listed)[i] == todo[i];
    } else {
      assert PendingItem(db, id) in listed;
      var i :| 0 <= i < |listed| && listed[i] == PendingItem(db, id);
      assert (todo + listed)[|todo| + i] == listed[i];
    }
  }

  lemma AmongSplit(items: seq<Item>, key: EvidenceKey, id: Id)
    requires Among(items, id)
    ensures Among(WithKey(items, key), id) || Among(WithoutKey(items, key), id)
  {
    var i :| 0 <= i < |items| && items[i].id == id;
    if KeyOf(items[i]) == key {
      assert items[i] in WithKey(items, key);
    } else {
      assert items[i] in WithoutKey(items, key);
    }
  }

  /** A turn of the batch resolves the command, leaves it, or still has it to come. */
  lemma BatchTurn(w: World, pid: Pid, input: Input, fault: Fault, id: Id)
    requires Inv(w) && pid in w.callers && IsBatch(w.callers[pid])
    requires Unresolved(w.db, id) && w.db.commands[id].scope in KIS_SCOPES + ALPACA_SCOPES
    requires Due(w.callers[pid].resolve, w.db.commands[id].scope, id)
    ensures var s := ExecResolve(w.db, w.now, w.callers[pid].resolve, input, fault);
            id in s.db.resolutions || Due(s.pc, w.db.commands[id].scope, id)
            || Leaves(w, Turn(pid, input, fault), pid, id)
  {
    hide Judge, KeyOf, ValidResolution, Among, PendingItem, WithKey, WithoutKey, PendingAmong, Inv;
    var pc := w.callers[pid].resolve;
    match pc {
      case FetchingKIS(plan) =>
        OrderIsOk(w);
        if w.db.commands[id].scope in KIS_SCOPES {
          AmongListed(w.db, [], KIS_SCOPES, id);
          assert [] + PendingAmong(w.db, KIS_SCOPES, w.db.order) == PendingAmong(w.db, KIS_SCOPES, w.db.order);
        }
      case FetchingAlpaca(todo, plan) =>
        OrderIsOk(w);
        AmongListed(w.db, todo, ALPACA_SCOPES, id);
        NotEmpty(todo + PendingAmong(w.db, ALPACA_SCOPES, w.db.order), id);
      case Choosing(todo, plan) =>
        if input.Chosen? {
          AmongSplit(todo, input.key, id);
        }
      case Concluding(evidence, items, todo, plan) =>
        if items == [] {
          Nobody(id);
          NotEmpty(todo, id);
        } else if items[0].id != id && Among(items, id) {
          AmongTail(items, id);
        }
      case Appending(c, evidence, items, todo, plan) =>
        if items != [] && items[0].id != id && Among(items, id) {
          AmongTail(items, id);
        }
      case _ =>
    }
  }

  lemma OrderIsOk(w: World)
    requires Inv(w)
    ensures OrderOk(w.db)
  {
  }

  lemma NotEmpty(items: seq<Item>, id: Id)
    requires Among(items, id)
    ensures items != []
  {
  }

  lemma Nobody(id: Id)
    ensures !Among([], id)
  {
  }

  lemma BatchStep(w: World, e: Event, pid: Pid, scope: Scope, id: Id)
    requires Inv(w) && pid in w.callers && IsBatch(w.callers[pid]) && e != Crash(pid)
    requires id in w.db.commands && w.db.commands[id].scope == scope && scope in KIS_SCOPES + ALPACA_SCOPES
    requires Known(w.db, id) || Due(w.callers[pid].resolve, scope, id)
    ensures var v := Next(w, e);
            && pid in v.callers && IsBatch(v.callers[pid])
            && id in v.db.commands && v.db.commands[id].scope == scope
            && (Known(v.db, id) || Due(v.callers[pid].resolve, scope, id) || Leaves(w, e, pid, id))
  {
    hide Leaves, Due;
    StaysKnown(w, e, id);
    if e.Turn? && e.pid == pid {
      StaysBatch(w, pid, e.input, e.fault);
      if !Known(w.db, id) {
        BatchTurn(w, pid, e.input, e.fault, id);
      }
    } else if !About(e, pid) {
      OthersLeaveCaller(w, e, pid);
    }
  }

  lemma StaysBatch(w: World, pid: Pid, input: Input, fault: Fault)
    requires pid in w.callers && IsBatch(w.callers[pid])
    ensures IsBatch(Resolving(ExecResolve(w.db, w.now, w.callers[pid].resolve, input, fault).pc))
  {
    hide Judge, ValidResolution;
  }

  lemma StaysKnown(w: World, e: Event, id: Id)
    requires Inv(w) && id in w.db.commands
    ensures id in Next(w, e).db.commands && Next(w, e).db.commands[id].scope == w.db.commands[id].scope
    ensures Known(w.db, id) ==> Known(Next(w, e).db, id)
  {
    hide Next;
    NextKeeps(w, e);
    NextGrows(w, e);
    KnownIsSettled(w.db, id);
    KnownIsSettled(Next(w, e).db, id);
    assert GrowsAt(w.db, Next(w, e).db, id);
  }

  lemma {:induction false} RunBatch(w: World, events: seq<Event>, pid: Pid, scope: Scope, id: Id)
    requires Inv(w) && pid in w.callers && IsBatch(w.callers[pid]) && w.callers[pid].resolve.FetchingKIS?
    requires Crash(pid) !in events
    requires id in w.db.commands && w.db.commands[id].scope == scope && scope in KIS_SCOPES + ALPACA_SCOPES
    ensures var v := Run(w, events);
            && pid in v.callers && IsBatch(v.callers[pid])
            && id in v.db.commands && v.db.commands[id].scope == scope
            && (Known(v.db, id) || Due(v.callers[pid].resolve, scope, id) || WasLeft(w, events, pid, id))
  {
    hide Inv, Next, IsBatch, Known, Leaves, WasLeft;
    if events != [] {
      var front, last := events[..|events| - 1], events[|events| - 1];
      assert last in events && front + [last] == events;
      RunBatch(w, front, pid, scope, id);
      RunKeeps(w, front);
      var u := Run(w, front);
      if WasLeft(w, front, pid, id) {
        WasLeftMore(w, front, last, pid, id);
        BatchGoesOn(u, last, pid, scope, id);
      } else {
        BatchStep(u, last, pid, scope, id);
        if Leaves(u, last, pid, id) {
          WasLeftMore(w, front, last, pid, id);
        }
      }
    }
  }

  lemma BatchGoesOn(w: World, e: Event, pid: Pid, scope: Scope, id: Id)
    requires Inv(w) && pid in w.callers && IsBatch(w.callers[pid]) && e != Crash(pid)
    requires id in w.db.commands && w.db.commands[id].scope == scope
    ensures var v := Next(w, e);
            pid in v.callers && IsBatch(v.callers[pid]) && id in v.db.commands && v.db.commands[id].scope == scope
  {
    hide IsBatch;
    StaysKnown(w, e, id);
    if e.Turn? && e.pid == pid {
      BatchIsResolving(w.callers[pid]);
      StaysBatch(w, pid, e.input, e.fault);
    } else if !About(e, pid) {
      OthersLeaveCaller(w, e, pid);
    }
  }

  lemma BatchIsResolving(c: Caller)
    requires IsBatch(c)
    ensures c.Resolving?
  {
  }

  /** Whatever runs beside it: when a batch ends without an error, every command that was stored when it
      began, in a scope that is resolved, has its outcome, or the batch judged it by evidence it had read
      for it and left it. No command is passed over, and none is forgotten between two groups. */
  lemma NobodyIsPassedOver(w: World, events: seq<Event>, pid: Pid, grace: Time, window: Time, id: Id)
    requires Inv(w) && pid !in w.callers && Crash(pid) !in events
    requires id in w.db.commands && w.db.commands[id].scope in {KISMock, KISMockUS, AlpacaPaperCrypto}
    requires var v := Run(Next(w, Begin(pid, ResolveAll(grace, window))), events);
             pid in v.callers && v.callers[pid] == Resolving(Finished(false))
    ensures var begun := Next(w, Begin(pid, ResolveAll(grace, window)));
            Known(Run(begun, events).db, id) || WasLeft(begun, events, pid, id)
  {
    var begun := Next(w, Begin(pid, ResolveAll(grace, window)));
    NextKeeps(w, Begin(pid, ResolveAll(grace, window)));
    RunBatch(begun, events, pid, w.db.commands[id].scope, id);
  }
}
