/** What the resolvers' conclusions rest on, over every run: absence, identity and timing. */
module ProtocolEvidence {
  import opened Contracts
  import opened Decimals
  import opened Tables
  import opened Evidence
  import opened Protocol
  import opened ProtocolInvariant
  import opened ProtocolSafety

  // ----- plans -----

  function PlanOf(pc: ResolvePc): Option<Plan> {
    match pc
    case Finding(_, plan) => Some(plan)
    case Fetching(_, plan) => Some(plan)
    case FetchingKIS(plan) => Some(plan)
    case FetchingAlpaca(_, plan) => Some(plan)
    case Choosing(_, plan) => Some(plan)
    case Reading(_, _, _, plan) => Some(plan)
    case Concluding(_, _, _, plan) => Some(plan)
    case Appending(_, _, _, _, plan) => Some(plan)
    case Confirming(_, _, _, _, plan) => Some(plan)
    case Checked(_) => None
    case Finished(_) => None
  }

  /** The settings a call asks for, if it resolves at all. */
  function PlanAsked(call: Call): Option<Plan> {
    match call
    case ResolveOne(_, grace, window) => Some(PlanFor(grace, window))
    case ResolveAll(grace, window) => Some(PlanFor(grace, window))
    case _ => None
  }

  /** The evidence a resolver is working from and the items it has yet to judge against it. */
  function Holding(pc: ResolvePc): (Evidence, seq<Item>) {
    match pc
    case Concluding(evidence, items, _, _) => (evidence, items)
    case Appending(_, evidence, items, _, _) => (evidence, items)
    case Confirming(_, evidence, items, _, _) => (evidence, items)
    case _ => (Unread, [])
  }

  /** The answer an event gives to a pending read. */
  ghost predicate AnswersRead(w: World, e: Event) {
    && e.Turn? && e.input.Answered? && e.pid in w.callers
    && w.callers[e.pid].Resolving? && w.callers[e.pid].resolve.Reading?
  }

  // ----- what a step keeps of an item -----

  lemma ContextFixesItem(w: World, e: Event, id: Id)
    requires Inv(w) && id in w.db.commands && id in w.db.contexts
    ensures id in Next(w, e).db.commands && id in Next(w, e).db.contexts
    ensures PendingItem(Next(w, e).db, id) == PendingItem(w.db, id)
  {
    hide Next, Inv;
    NextGrows(w, e);
    assert GrowsAt(w.db, Next(w, e).db, id);
  }

  lemma PlacingResolvesNothing(db: Db, now: Time, pc: PlacePc, input: Input, fault: Fault)
    ensures ExecPlace(db, now, pc, input, fault).db.resolutions == db.resolutions
  {
  }

  lemma CancellingResolvesNothing(db: Db, now: Time, pc: CancelPc, input: Input, fault: Fault)
    ensures ExecCancel(db, now, pc, input, fault).db.resolutions == db.resolutions
  {
  }

  // ----- absence is sound -----

  /** The evidence shows the item's order: a day read lists it, a client-id read finds it. */
  predicate Shows(evidence: Evidence, o: Order) {
    match evidence
    case Unread => true
    case DayOrders(orders) => o in orders
    case ClientOrder(found, oid) => found && oid != ""
  }

  /** The broker holds `o` with the facts stored for `id`, within the given window of the send. */
  ghost predicate Holds(db: Db, id: Id, o: Order, window: Time) {
    && id in db.commands && id in db.contexts
    && Matches(PendingItem(db, id), o, window)
  }

  /** A plan's grace is over for a stored command. */
  ghost predicate GraceEnded(db: Db, id: Id, now: Time, plan: Plan) {
    id in db.commands && GraceOver(PendingItem(db, id), now, plan.grace)
  }

  /** A resolver has yet to judge `id` against evidence it has read. */
  predicate Judges(pc: ResolvePc, id: Id) {
    exists i :: 0 <= i < |Holding(pc).1| && Holding(pc).1[i].id == id
  }

  /** An event meets the premises: what is answered for `id` once the grace is over, and what a
      resolver still has to judge `id` against when time passes the grace, is good evidence. Reads
      made and judged inside the grace may say anything. Nobody resolves with a narrower window. */
  ghost predicate Evidenced(w: World, e: Event, id: Id, good: Evidence -> bool, window: Time) {
    && (AnswersRead(w, e) && id in w.db.commands && w.callers[e.pid].resolve.key == KeyOf(PendingItem(w.db, id))
        && GraceEnded(w.db, id, w.now, w.callers[e.pid].resolve.plan) ==>
          good(e.input.evidence))
    && (e.Tick? ==> LateEvidence(w, w.now + e.elapsed, id, good))
    && (e.Begin? && PlanAsked(e.call).Some? ==> PlanAsked(e.call).value.window >= window)
  }

  /** The evidence resolvers hold for `id` and whose grace is over at the given time is good. */
  ghost predicate LateEvidence(w: World, now: Time, id: Id, good: Evidence -> bool) {
    forall p | p in w.callers && w.callers[p].Resolving? && Judges(w.callers[p].resolve, id)
        && GraceEnded(w.db, id, now, PlanOf(w.callers[p].resolve).value) ::
      good(Holding(w.callers[p].resolve).0)
  }

  ghost predicate AllEvidenced(w: World, events: seq<Event>, id: Id, good: Evidence -> bool, window: Time) {
    forall k | 0 <= k < |events| :: Evidenced(Run(w, events[..k]), events[k], id, good, window)
  }

  ghost predicate ResolverSees(db: Db, now: Time, pc: ResolvePc, id: Id, o: Order, window: Time) {
    && (PlanOf(pc).Some? ==> PlanOf(pc).value.window >= window)
    && (Judges(pc, id) && GraceEnded(db, id, now, PlanOf(pc).value) ==> Shows(Holding(pc).0, o))
    && (pc.Appending? && pc.items != [] && pc.items[0].id == id ==> pc.conclusion != Absent)
  }

  ghost predicate NotAbsent(w: World, id: Id, o: Order, window: Time) {
    && Holds(w.db, id, o, window) && !ResolvedAbsent(w.db, id)
    && (forall p | p in w.callers && w.callers[p].Resolving? ::
          ResolverSees(w.db, w.now, w.callers[p].resolve, id, o, window))
  }

  lemma WiderMatches(item: Item, o: Order, narrow: Time, wide: Time)
    requires Matches(item, o, narrow) && narrow <= wide
    ensures Matches(item, o, wide)
  {
  }

  lemma ConcludingSees(w: World, pc: ResolvePc, input: Input, fault: Fault, id: Id, o: Order, window: Time)
    requires ResolveOk(w.db, pc) && pc.Concluding?
    requires Holds(w.db, id, o, window) && ResolverSees(w.db, w.now, pc, id, o, window)
    ensures ResolverSees(w.db, w.now, ExecResolve(w.db, w.now, pc, input, fault).pc, id, o, window)
  {
    hide Matches, JudgeDay, Shows, GraceEnded;
    if pc.items != [] {
      var x := pc.items[0];
      TailJudges(pc, id);
      assert Holding(pc).1[0] == x && ItemOk(w.db, x);
      if x.id == id {
        assert Judges(pc, id);
        GraceEndedIs(w.db, id, w.now, pc.plan);
        NeverConcludedAbsent(x, pc.evidence, o, w.now, pc.plan, window);
      }
      hide Judge;
      var c := Judge(x, pc.evidence, w.now, pc.plan.grace, pc.plan.window, pc.plan.single.Some?);
      if c != Leave {
        var next := Appending(c, pc.evidence, pc.items, pc.todo, pc.plan);
        assert Judges(next, id) ==> Judges(pc, id) by {
          assert Holding(next) == Holding(pc);
        }
      }
    }
  }

  lemma GraceEndedIs(db: Db, id: Id, now: Time, plan: Plan)
    requires id in db.commands
    ensures GraceEnded(db, id, now, plan) <==> GraceOver(PendingItem(db, id), now, plan.grace)
  {
  }

  /** What a resolver judges after a step it has just read for its key, or judged already. */
  lemma StepJudges(db: Db, now: Time, pc: ResolvePc, input: Input, fault: Fault, id: Id)
    requires ResolveOk(db, pc)
    ensures var next := ExecResolve(db, now, pc, input, fault).pc;
            Judges(next, id) ==>
              if pc.Reading? then
                && input.Answered? && id in db.commands && pc.key == KeyOf(PendingItem(db, id))
                && Holding(next).0 == input.evidence
              else Judges(pc, id) && Holding(next).0 == Holding(pc).0
  {
    hide Judge, ValidResolution, KeyOf, AppendResolution, RowFor;
    match pc {
      case Reading(key, items, todo, plan) =>
        forall i | 0 <= i < |items| && items[i].id == id
          ensures id in db.commands && key == KeyOf(PendingItem(db, id))
        {
          assert ItemOk(db, items[i]);
        }
      case Concluding(evidence, items, todo, plan) =>
        if items != [] {
          TailJudges(pc, id);
          assert forall c :: Holding(Appending(c, evidence, items, todo, plan)) == Holding(pc);
        }
      case Appending(c, evidence, items, todo, plan) =>
        if items != [] {
          TailJudges(pc, id);
        }
      case Confirming(_, evidence, items, todo, plan) =>
        assert Holding(Concluding(evidence, items, todo, plan)) == Holding(pc);
      case _ =>
    }
  }

  lemma ResolverStepSees(w: World, pc: ResolvePc, input: Input, fault: Fault, id: Id, o: Order, window: Time)
    requires DbOk(w.db) && ResolveOk(w.db, pc)
    requires Holds(w.db, id, o, window) && !ResolvedAbsent(w.db, id) && ResolverSees(w.db, w.now, pc, id, o, window)
    requires (pc.Reading? && input.Answered? && pc.key == KeyOf(PendingItem(w.db, id))
              && GraceEnded(w.db, id, w.now, pc.plan)) ==> Shows(input.evidence, o)
    ensures var s := ExecResolve(w.db, w.now, pc, input, fault);
            ResolverSees(w.db, w.now, s.pc, id, o, window) && !ResolvedAbsent(s.db, id)
  {
    StepJudges(w.db, w.now, pc, input, fault, id);
    hide Matches, JudgeDay, ValidResolution, KeyOf, Judges;
    if pc.Concluding? {
      ConcludingSees(w, pc, input, fault, id, o, window);
    }
  }

  /** Evidence that shows the order, or a grace that is not over, rules absence out. */
  lemma NeverConcludedAbsent(item: Item, evidence: Evidence, o: Order, now: Time, plan: Plan, window: Time)
    requires Matches(item, o, window) && window <= plan.window
    requires GraceOver(item, now, plan.grace) ==> Shows(evidence, o)
    ensures Judge(item, evidence, now, plan.grace, plan.window, plan.single.Some?) != Absent
  {
    WiderMatches(item, o, window, plan.window);
    hide Matches;
    if evidence.DayOrders? && GraceOver(item, now, plan.grace) {
      MatchRulesOutAbsence(item, evidence.orders, o, now, plan.grace, plan.window);
    }
  }

  lemma TailJudges(pc: ResolvePc, id: Id)
    requires (pc.Concluding? || pc.Appending?) && pc.items != []
    ensures (exists i :: 0 <= i < |pc.items[1..]| && pc.items[1..][i].id == id) ==> Judges(pc, id)
  {
    if i :| 0 <= i < |pc.items[1..]| && pc.items[1..][i].id == id {
      assert Holding(pc).1[i + 1].id == id;
    }
  }

  lemma NotAbsentStep(w: World, e: Event, id: Id, o: Order, window: Time)
    requires Inv(w) && NotAbsent(w, id, o, window) && Evidenced(w, e, id, ev => Shows(ev, o), window)
    ensures NotAbsent(Next(w, e), id, o, window)
  {
    hide Matches, ExecPlace, ExecCancel, ExecResolve, ResolveOk, Judges, GraceOver, Shows;
    ContextFixesItem(w, e, id);
    var v := Next(w, e);
    if e.Turn? && e.pid in w.callers {
      assert CallerOk(w, w.callers[e.pid]);
      match w.callers[e.pid] {
        case Placing(pc) => PlacingResolvesNothing(w.db, w.now, pc, e.input, e.fault);
        case Cancelling(pc) => CancellingResolvesNothing(w.db, w.now, pc, e.input, e.fault);
        case Resolving(pc) => ResolverStepSees(w, pc, e.input, e.fault, id, o, window);
      }
    }
    forall p | p in v.callers && v.callers[p].Resolving?
      ensures ResolverSees(v.db, v.now, v.callers[p].resolve, id, o, window)
    {
      if p in w.callers && v.callers[p] == w.callers[p] {
        assert ResolverSees(w.db, w.now, w.callers[p].resolve, id, o, window);
      } else if e.Begin? {
        NewcomerJudgesNothing(e.call, w.now, id);
      }
    }
  }

  lemma NewcomerJudgesNothing(call: Call, now: Time, id: Id)
    ensures Start(call, now).Resolving? ==> !Judges(Start(call, now).resolve, id)
  {
  }

  /** Absence is sound. Let the broker hold an order with a command's stored facts, within the
      window of its send. Let every read of that command's day (or client order id) that is
      answered, or still to be judged, once the grace is over show it. Then no run of any number
      of batch and single resolvers ever records the command as absent, whatever reads made beside
      the send in flight said. */
  lemma {:induction false} AbsenceIsSound(w: World, events: seq<Event>, id: Id, o: Order, window: Time)
    requires Inv(w) && NotAbsent(w, id, o, window) && AllEvidenced(w, events, id, ev => Shows(ev, o), window)
    ensures NotAbsent(Run(w, events), id, o, window)
    ensures !ResolvedAbsent(Run(w, events).db, id)
  {
    if events != [] {
      var front := events[..|events| - 1];
      forall k | 0 <= k < |front| ensures Evidenced(Run(w, front[..k]), front[k], id, ev => Shows(ev, o), window) {
        assert front[..k] == events[..k];
        assert Evidenced(Run(w, events[..k]), events[k], id, ev => Shows(ev, o), window);
      }
      AbsenceIsSound(w, front, id, o, window);
      RunKeeps(w, front);
      assert Evidenced(Run(w, events[..|front|]), events[|front|], id, ev => Shows(ev, o), window);
      NotAbsentStep(Run(w, front), events[|front|], id, o, window);
    }
  }

  /** A read of a day that failed or returned everything the broker dated on it. */
  ghost predicate FullDay(book: seq<Order>, day: int, evidence: Evidence) {
    match evidence
    case Unread => true
    case DayOrders(orders) => CompleteDay(book, day, orders)
    case ClientOrder(_, _) => false
  }

  /** Away from midnight complete reads are enough: if the broker's book holds the order and every
      read of the command's day that matters once the grace is over is complete, the command is
      never recorded as absent. The order's date must lie within 292 years of the send. */
  lemma CompleteReadsNeverAbsent(w: World, events: seq<Event>, id: Id, o: Order, book: seq<Order>, window: Time)
    requires Inv(w) && NotAbsent(w, id, o, window) && o in book && 0 <= window < MAX_DURATION
    requires var sentAt := PendingItem(w.db, id).sentAt;
             && o.orderedAt - sentAt > MIN_DURATION
             && window <= (sentAt + KST_OFFSET) % DAY < DAY - window
    requires var day := KisDay(PendingItem(w.db, id).sentAt);
             AllEvidenced(w, events, id, ev => FullDay(book, day, ev), window)
    ensures !ResolvedAbsent(Run(w, events).db, id)
  {
    var item := PendingItem(w.db, id);
    var day := KisDay(item.sentAt);
    forall ev | FullDay(book, day, ev) ensures Shows(ev, o) {
      if ev.DayOrders? {
        CompleteDayShowsOrder(item, book, ev.orders, o, 0, 0, window);
      }
    }
    forall k | 0 <= k < |events| ensures Evidenced(Run(w, events[..k]), events[k], id, ev => Shows(ev, o), window) {
      assert Evidenced(Run(w, events[..k]), events[k], id, ev => FullDay(book, day, ev), window);
    }
    AbsenceIsSound(w, events, id, o, window);
  }

  lemma OnlyPlacingStores(w: World, e: Event, id: Id)
    requires id !in w.db.commands && id in Next(w, e).db.commands
    ensures e.Turn? && e.pid in w.callers && w.callers[e.pid].Placing?
  {
    hide ExecPlace, ExecCancel, ExecResolve;
    if e.Turn? && e.pid in w.callers {
      match w.callers[e.pid] {
        case Placing(_) =>
        case Cancelling(pc) => CancellingStoresNothing(w.db, w.now, pc, e.input, e.fault);
        case Resolving(pc) => ResolvingStoresNothing(w.db, w.now, pc, e.input, e.fault);
      }
    }
  }

  lemma CancellingStoresNothing(db: Db, now: Time, pc: CancelPc, input: Input, fault: Fault)
    ensures ExecCancel(db, now, pc, input, fault).db.commands == db.commands
  {
  }

  lemma ResolvingStoresNothing(db: Db, now: Time, pc: ResolvePc, input: Input, fault: Fault)
    ensures ExecResolve(db, now, pc, input, fault).db.commands == db.commands
  {
    hide Judge, ValidResolution;
  }

  lemma StrangerIsNotHeld(db: Db, pc: ResolvePc, id: Id)
    requires ResolveOk(db, pc) && id !in db.commands
    ensures !Judges(pc, id) && !(pc.Appending? && pc.items != [] && pc.items[0].id == id)
  {
    forall i | 0 <= i < |Holding(pc).1| ensures Holding(pc).1[i].id != id {
      assert ItemOk(db, Holding(pc).1[i]);
    }
    if pc.Appending? && pc.items != [] {
      assert Holding(pc).1[0] == pc.items[0];
    }
  }

  /** A command that was just reserved starts out that way: no resolver can hold an item of an
      id that was not stored. */
  lemma FreshlyReservedIsNotAbsent(w: World, e: Event, id: Id, o: Order, window: Time)
    requires Inv(w) && id !in w.db.commands && Holds(Next(w, e).db, id, o, window)
    requires forall p | p in w.callers && w.callers[p].Resolving? && PlanOf(w.callers[p].resolve).Some? ::
               PlanOf(w.callers[p].resolve).value.window >= window
    ensures NotAbsent(Next(w, e), id, o, window)
  {
    var v := Next(w, e);
    assert RowOk(w.db, id) && id in v.db.commands;
    hide Holds, ResolveOk, Judges, ExecPlace, ExecCancel, ExecResolve;
    OnlyPlacingStores(w, e, id);
    PlacingResolvesNothing(w.db, w.now, w.callers[e.pid].place, e.input, e.fault);
    forall p | p in v.callers && v.callers[p].Resolving?
      ensures ResolverSees(v.db, v.now, v.callers[p].resolve, id, o, window)
    {
      assert v.callers[p] == w.callers[p] && CallerOk(w, w.callers[p]);
      StrangerIsNotHeld(w.db, w.callers[p].resolve, id);
    }
  }

  // ----- one broker order, one command -----

  /** The outside keeps to one book of orders: reads agree on what an order id names, an accepted
      answer names an order with the sent command's facts, and windows stay within the given one. */
  ghost predicate ByBook(w: World, e: Event, book: map<string, Order>, window: Time) {
    && (AnswersRead(w, e) && e.input.evidence.DayOrders? ==> FromBook(e.input.evidence.orders, book))
    && (AnswersSend(w, e) && Accepting(e.input.result) ==>
          var cmd := w.callers[e.pid].place.cmd;
          KisScope(cmd.scope) && cmd.id in w.db.commands ==>
            InBook(PendingItem(w.db, cmd.id), e.input.result.brokerOrderId, book, window))
    && (e.Begin? && PlanAsked(e.call).Some? ==> PlanAsked(e.call).value.window <= window)
  }

  /** The answer an event gives to a send in flight. */
  ghost predicate AnswersSend(w: World, e: Event) {
    && e.Turn? && e.input.Sent? && e.pid in w.callers
    && w.callers[e.pid].Placing? && w.callers[e.pid].place.Awaiting?
  }

  predicate Accepting(r: BrokerResult) {
    r.accepted && r.brokerOrderId != ""
  }

  predicate FromBook(orders: seq<Order>, book: map<string, Order>) {
    forall i | 0 <= i < |orders| ::
      orders[i].brokerOrderId in book && book[orders[i].brokerOrderId] == orders[i]
  }

  ghost predicate AllByBook(w: World, events: seq<Event>, book: map<string, Order>, window: Time) {
    forall k | 0 <= k < |events| :: ByBook(Run(w, events[..k]), events[k], book, window)
  }

  predicate KisScope(scope: Scope) {
    scope == KISMock || scope == KISMockUS
  }

  ghost predicate ResolverByBook(pc: ResolvePc, book: map<string, Order>, window: Time) {
    && (PlanOf(pc).Some? ==> PlanOf(pc).value.window <= window)
    && (Holding(pc).0.DayOrders? ==> FromBook(Holding(pc).0.orders, book))
    && (pc.Appending? && pc.items != [] && KisScope(pc.items[0].scope) && pc.conclusion.Accept? ==>
          InBook(pc.items[0], pc.conclusion.brokerOrderId, book, window))
  }

  predicate InBook(item: Item, oid: string, book: map<string, Order>, window: Time) {
    oid in book && Matches(item, book[oid], window)
  }

  /** What a placement is about to finalize. */
  ghost predicate PlacerByBook(db: Db, pc: PlacePc, book: map<string, Order>, window: Time) {
    pc.Finalizing? && pc.receipt.disposition == Accepted && pc.receipt.id in db.commands
    && KisScope(db.commands[pc.receipt.id].scope) ==>
      InBook(PendingItem(db, pc.receipt.id), pc.receipt.brokerOrderId, book, window) && pc.receipt.errorCode == ""
  }

  /** A KIS command accepted since the start, by an answer or by a resolver, names a book order with
      its facts. */
  ghost predicate AcceptedByBook(db: Db, id: Id, book: map<string, Order>, window: Time) {
    Cancellable(db, id) && KisScope(db.commands[id].scope) ==>
      InBook(PendingItem(db, id), Effective(db, id).value.brokerOrderId, book, window)
      && Effective(db, id).value.errorCode == ""
  }

  ghost predicate HeldByBook(w: World, before: set<Id>, book: map<string, Order>, window: Time) {
    && (forall id | id !in before :: AcceptedByBook(w.db, id, book, window))
    && (forall p | p in w.callers && w.callers[p].Resolving? :: ResolverByBook(w.callers[p].resolve, book, window))
    && (forall p | p in w.callers && w.callers[p].Placing? :: PlacerByBook(w.db, w.callers[p].place, book, window))
  }

  lemma ResolverStepByBook(w: World, pc: ResolvePc, input: Input, fault: Fault, book: map<string, Order>, window: Time)
    requires DbOk(w.db) && ResolveOk(w.db, pc) && ResolverByBook(pc, book, window)
    requires pc.Reading? && input.Answered? && input.evidence.DayOrders? ==> FromBook(input.evidence.orders, book)
    ensures ResolverByBook(ExecResolve(w.db, w.now, pc, input, fault).pc, book, window)
  {
    match pc {
      case Concluding(evidence, items, todo, plan) =>
        if items != [] && KisScope(items[0].scope) && evidence.DayOrders?
           && JudgeDay(items[0], evidence.orders, w.now, plan.grace, plan.window).Accept? {
          var o := AcceptanceHasOrder(items[0], evidence.orders, w.now, plan.grace, plan.window);
          WiderMatches(items[0], o, plan.window, window);
        }
      case _ =>
    }
  }

  /** A KIS acceptance that is new after a step came from a resolver's judged first item. */
  lemma NewAcceptance(w: World, e: Event, id: Id, book: map<string, Order>, window: Time)
    requires Inv(w) && id !in w.db.resolutions && id in Next(w, e).db.resolutions
    requires forall p | p in w.callers && w.callers[p].Resolving? :: ResolverByBook(w.callers[p].resolve, book, window)
    ensures id in w.db.commands
    ensures var r := Next(w, e).db.resolutions[id];
            KisScope(w.db.commands[id].scope) && r.disposition == Accepted ==>
              InBook(PendingItem(w.db, id), r.brokerOrderId, book, window) && r.errorCode == ""
  {
    hide InBook, FromBook, ExecPlace, ExecCancel;
    match w.callers[e.pid] {
      case Placing(pc) => PlacingResolvesNothing(w.db, w.now, pc, e.input, e.fault);
      case Cancelling(pc) => CancellingResolvesNothing(w.db, w.now, pc, e.input, e.fault);
      case Resolving(pc) =>
        assert CallerOk(w, w.callers[e.pid]) && ItemOk(w.db, pc.items[0]);
    }
  }

  /** A commands row that is newly ACCEPTED was finalized by the placement that owned it. */
  lemma NewFinal(w: World, e: Event, id: Id)
    requires Inv(w) && id in Next(w, e).db.commands && Next(w, e).db.commands[id].disposition == Accepted
    requires !(id in w.db.commands && w.db.commands[id].disposition == Accepted)
    ensures e.Turn? && e.pid in w.callers && w.callers[e.pid].Placing? && w.callers[e.pid].place.Finalizing?
    ensures var receipt := w.callers[e.pid].place.receipt; var row := Next(w, e).db.commands[id];
            && receipt.id == id && id in w.db.commands && receipt.disposition == Accepted
            && row.brokerOrderId == receipt.brokerOrderId && row.errorCode == receipt.errorCode
            && row.scope == w.db.commands[id].scope
  {
    hide ExecPlace, ExecCancel, ExecResolve;
    if e.Turn? && e.pid in w.callers {
      assert CallerOk(w, w.callers[e.pid]);
      match w.callers[e.pid] {
        case Placing(pc) => PlacingAccepts(w.db, w.now, pc, e.input, e.fault, w.sends, id);
        case Cancelling(pc) => CancellingStoresNothing(w.db, w.now, pc, e.input, e.fault);
        case Resolving(pc) => ResolvingStoresNothing(w.db, w.now, pc, e.input, e.fault);
      }
    }
  }

  lemma PlacingAccepts(db: Db, now: Time, pc: PlacePc, input: Input, fault: Fault, sends: seq<Command>, id: Id)
    requires PlaceOk(db, sends, pc) && !(id in db.commands && db.commands[id].disposition == Accepted)
    ensures var b := ExecPlace(db, now, pc, input, fault).db;
            id in b.commands && b.commands[id].disposition == Accepted ==>
              && pc.Finalizing? && pc.receipt.id == id && id in db.commands && pc.receipt.disposition == Accepted
              && b.commands[id].brokerOrderId == pc.receipt.brokerOrderId
              && b.commands[id].errorCode == pc.receipt.errorCode && b.commands[id].scope == db.commands[id].scope
  {
  }

  /** The step at which a command becomes effectively ACCEPTED. */
  lemma AcceptedStepByBook(w: World, e: Event, id: Id, book: map<string, Order>, window: Time)
    requires Inv(w) && !Settled(w.db, id) && Cancellable(Next(w, e).db, id)
    requires forall p | p in w.callers && w.callers[p].Resolving? :: ResolverByBook(w.callers[p].resolve, book, window)
    requires forall p | p in w.callers && w.callers[p].Placing? :: PlacerByBook(w.db, w.callers[p].place, book, window)
    ensures AcceptedByBook(Next(w, e).db, id, book, window)
  {
    var v := Next(w, e);
    hide Next, InBook, ResolverByBook;
    NextGrows(w, e);
    assert RowOk(w.db, id) && GrowsAt(w.db, v.db, id);
    if KisScope(v.db.commands[id].scope) {
      if id in v.db.resolutions {
        NewAcceptance(w, e, id, book, window);
      } else {
        NewFinal(w, e, id);
        assert PlacerByBook(w.db, w.callers[e.pid].place, book, window);
      }
      InBookHasContext(PendingItem(w.db, id), Effective(v.db, id).value.brokerOrderId, book, window);
      ContextFixesItem(w, e, id);
    }
  }

  lemma InBookHasContext(item: Item, oid: string, book: map<string, Order>, window: Time)
    requires InBook(item, oid, book, window)
    ensures item.contextPresent
  {
  }

  /** An acceptance that stood before a step stands after it, with the same order. */
  lemma AcceptedStands(w: World, e: Event, id: Id, book: map<string, Order>, window: Time)
    requires Inv(w) && Settled(w.db, id) && AcceptedByBook(w.db, id, book, window)
    ensures AcceptedByBook(Next(w, e).db, id, book, window)
  {
    hide Next, InBook;
    NextGrows(w, e);
    assert GrowsAt(w.db, Next(w, e).db, id);
    if Cancellable(w.db, id) && KisScope(w.db.commands[id].scope) {
      InBookHasContext(PendingItem(w.db, id), Effective(w.db, id).value.brokerOrderId, book, window);
      ContextFixesItem(w, e, id);
    }
  }

  lemma PlacerStepByBook(w: World, e: Event, book: map<string, Order>, window: Time)
    requires Inv(w) && ByBook(w, e, book, window) && e.Turn? && e.pid in w.callers && w.callers[e.pid].Placing?
    requires PlacerByBook(w.db, w.callers[e.pid].place, book, window)
    ensures var s := ExecPlace(w.db, w.now, w.callers[e.pid].place, e.input, e.fault);
            PlacerByBook(s.db, s.pc, book, window)
  {
    hide InBook;
    assert CallerOk(w, w.callers[e.pid]);
  }

  lemma PlacerStandsByBook(w: World, e: Event, pc: PlacePc, book: map<string, Order>, window: Time)
    requires Inv(w) && PlacerByBook(w.db, pc, book, window) && PlaceOk(w.db, w.sends, pc)
    ensures PlacerByBook(Next(w, e).db, pc, book, window)
  {
    hide Next, InBook;
    if pc.Finalizing? {
      ContextFixesItem(w, e, pc.receipt.id);
      NextGrows(w, e);
      assert GrowsAt(w.db, Next(w, e).db, pc.receipt.id);
    }
  }

  lemma ByBookStep(w: World, e: Event, before: set<Id>, book: map<string, Order>, window: Time)
    requires Inv(w) && HeldByBook(w, before, book, window) && ByBook(w, e, book, window)
    ensures HeldByBook(Next(w, e), before, book, window)
  {
    hide InBook, FromBook, ExecPlace, ExecCancel, ExecResolve, PendingItem, AcceptedByBook, PlaceOk, ResolveOk,
         CancelOk;
    var v := Next(w, e);
    if e.Turn? && e.pid in w.callers {
      assert CallerOk(w, w.callers[e.pid]);
      match w.callers[e.pid] {
        case Placing(_) => PlacerStepByBook(w, e, book, window);
        case Cancelling(_) =>
        case Resolving(pc) => ResolverStepByBook(w, pc, e.input, e.fault, book, window);
      }
    }
    forall id | id !in before ensures AcceptedByBook(v.db, id, book, window) {
      assert AcceptedByBook(w.db, id, book, window);
      if Settled(w.db, id) {
        AcceptedStands(w, e, id, book, window);
      } else if Cancellable(v.db, id) {
        AcceptedStepByBook(w, e, id, book, window);
      } else {
        NotAcceptedByBook(v.db, id, book, window);
      }
    }
    forall p | p in v.callers && v.callers[p].Placing? ensures PlacerByBook(v.db, v.callers[p].place, book, window) {
      if p in w.callers && v.callers[p] == w.callers[p] {
        assert CallerOk(w, w.callers[p]);
        PlacerStandsByBook(w, e, w.callers[p].place, book, window);
      }
    }
  }

  lemma NotAcceptedByBook(db: Db, id: Id, book: map<string, Order>, window: Time)
    requires !Cancellable(db, id)
    ensures AcceptedByBook(db, id, book, window)
  {
  }

  /** Every acceptance of a KIS command in a run, answered or resolved, names an order of the
      broker's book with the command's facts inside the window. */
  lemma {:induction false} RunByBook(w: World, events: seq<Event>, before: set<Id>, book: map<string, Order>,
      window: Time)
    requires Inv(w) && HeldByBook(w, before, book, window) && AllByBook(w, events, book, window)
    ensures HeldByBook(Run(w, events), before, book, window)
  {
    hide HeldByBook, ByBook;
    if events != [] {
      var front := events[..|events| - 1];
      forall k | 0 <= k < |front| ensures ByBook(Run(w, front[..k]), front[k], book, window) {
        assert front[..k] == events[..k];
        assert ByBook(Run(w, events[..k]), events[k], book, window);
      }
      RunByBook(w, front, before, book, window);
      RunKeeps(w, front);
      assert ByBook(Run(w, events[..|front|]), events[|front|], book, window);
      ByBookStep(Run(w, front), events[|front|], before, book, window);
    }
  }

  function SettledIds(db: Db): set<Id> {
    set id | id in db.commands && Settled(db, id)
  }

  lemma InitByBook(w: World, book: map<string, Order>, window: Time)
    requires Init(w)
    ensures HeldByBook(w, SettledIds(w.db), book, window)
  {
    hide InBook, PendingItem;
  }

  /** Two commands a resolver could not tell apart: numerically equal facts, sent within twice
      the window of each other. */
  predicate Twins(a: Item, b: Item, window: Time) {
    && a.side == b.side && a.stockCode == b.stockCode
    && SamePositiveInteger(a.quantity, b.quantity)
    && (if a.scope == KISMockUS then SamePositiveDecimal(a.price, b.price) else SamePositiveInteger(a.price, b.price))
    && -2 * window <= a.sentAt - b.sentAt <= 2 * window
  }

  /** If two KIS commands of one scope ever hold the same broker order, whether by an accepted answer
      or by a resolver, the commands are twins. So where no twins are sent, no broker order answers
      for two commands. Only commands settled before the run are left out. The order's date must lie
      within 292 years of the sends. */
  lemma SharedOrderMeansTwins(w: World, events: seq<Event>, book: map<string, Order>, window: Time, a: Id, b: Id)
    requires Init(w) && 0 <= window < MAX_DURATION
    requires !Settled(w.db, a) && !Settled(w.db, b)
    requires AllByBook(w, events, book, window)
    requires var db := Run(w, events).db;
             && Cancellable(db, a) && Cancellable(db, b)
             && Effective(db, a).value.brokerOrderId == Effective(db, b).value.brokerOrderId
             && db.commands[a].scope == db.commands[b].scope && KisScope(db.commands[a].scope)
    requires forall oid | oid in book ::
               && book[oid].orderedAt - PendingItem(Run(w, events).db, a).sentAt > MIN_DURATION
               && book[oid].orderedAt - PendingItem(Run(w, events).db, b).sentAt > MIN_DURATION
    ensures Twins(PendingItem(Run(w, events).db, a), PendingItem(Run(w, events).db, b), window)
  {
    InitHolds(w);
    InitByBook(w, book, window);
    RunByBook(w, events, SettledIds(w.db), book, window);
    var db := Run(w, events).db;
    assert AcceptedByBook(db, a, book, window) && AcceptedByBook(db, b, book, window);
    hide Run, AllByBook;
    OneOrderTwins(PendingItem(db, a), PendingItem(db, b), Effective(db, a).value.brokerOrderId, book, window);
  }

  lemma OneOrderTwins(x: Item, y: Item, oid: string, book: map<string, Order>, window: Time)
    requires 0 <= window < MAX_DURATION && x.scope == y.scope && KisScope(x.scope)
    requires InBook(x, oid, book, window) && InBook(y, oid, book, window)
    requires book[oid].orderedAt - x.sentAt > MIN_DURATION && book[oid].orderedAt - y.sentAt > MIN_DURATION
    ensures Twins(x, y, window)
  {
    var o := book[oid];
    WindowIsDistance(o.orderedAt, x.sentAt, window);
    WindowIsDistance(o.orderedAt, y.sentAt, window);
    if x.scope == KISMockUS {
      SamePriceThroughOrder(o.price, x.price, y.price);
    }
  }

  lemma SamePriceThroughOrder(p: string, x: string, y: string)
    requires SamePositiveDecimal(p, x) && SamePositiveDecimal(p, y)
    ensures SamePositiveDecimal(x, y)
  {
    assert SamePositiveDecimal(x, p);
    SameDecimalTransitive(x, p, y);
  }

  // ----- sends that finish inside the grace are never overruled -----

  ghost predicate Patient(e: Event, grace: Time) {
    e.Begin? && PlanAsked(e.call).Some? ==> PlanAsked(e.call).value.grace >= grace
  }

  ghost predicate ResolverPatient(now: Time, pc: ResolvePc, id: Id, grace: Time) {
    && (PlanOf(pc).Some? ==> PlanOf(pc).value.grace >= grace)
    && (pc.Appending? && pc.items != [] && pc.items[0].id == id && pc.conclusion == Absent ==>
          now >= pc.items[0].sentAt + grace)
  }

  /** An absence is recorded, or about to be, only after the grace. */
  ghost predicate AbsentOnlyLate(w: World, id: Id, grace: Time) {
    && (id in w.db.commands && ResolvedAbsent(w.db, id) ==> w.now >= PendingItem(w.db, id).sentAt + grace)
    && (forall p | p in w.callers && w.callers[p].Resolving? :: ResolverPatient(w.now, w.callers[p].resolve, id, grace))
  }

  lemma ResolverStaysPatient(w: World, pc: ResolvePc, input: Input, fault: Fault, id: Id, grace: Time)
    requires DbOk(w.db) && ResolveOk(w.db, pc) && ResolverPatient(w.now, pc, id, grace)
    ensures var s := ExecResolve(w.db, w.now, pc, input, fault);
            && ResolverPatient(w.now, s.pc, id, grace)
            && (ResolvedAbsent(s.db, id) && !ResolvedAbsent(w.db, id) ==>
                  id in w.db.commands && w.now >= PendingItem(w.db, id).sentAt + grace)
  {
    if pc.Appending? && pc.items != [] {
      assert ItemOk(w.db, pc.items[0]);
    }
  }

  lemma AbsentOnlyLateStep(w: World, e: Event, id: Id, grace: Time)
    requires Inv(w) && AbsentOnlyLate(w, id, grace) && Patient(e, grace)
    requires id in w.db.commands && id in w.db.contexts
    ensures AbsentOnlyLate(Next(w, e), id, grace)
  {
    ContextFixesItem(w, e, id);
    if e.Turn? && e.pid in w.callers {
      assert CallerOk(w, w.callers[e.pid]);
      match w.callers[e.pid] {
        case Placing(pc) => PlacingResolvesNothing(w.db, w.now, pc, e.input, e.fault);
        case Cancelling(pc) => CancellingResolvesNothing(w.db, w.now, pc, e.input, e.fault);
        case Resolving(pc) => ResolverStaysPatient(w, pc, e.input, e.fault, id, grace);
      }
    }
  }

  lemma {:induction false} RunAbsentOnlyLate(w: World, events: seq<Event>, id: Id, grace: Time)
    requires Inv(w) && AbsentOnlyLate(w, id, grace)
    requires id in w.db.commands && id in w.db.contexts
    requires forall k | 0 <= k < |events| :: Patient(events[k], grace)
    ensures AbsentOnlyLate(Run(w, events), id, grace)
  {
    if events != [] {
      var front := events[..|events| - 1];
      RunAbsentOnlyLate(w, front, id, grace);
      RunGrows(w, front);
      assert GrowsAt(w.db, Run(w, front).db, id);
      AbsentOnlyLateStep(Run(w, front), events[|front|], id, grace);
    }
  }

  /** A command that was just stored starts out that way. */
  lemma FreshlyStoredIsAbsentOnlyLate(w: World, e: Event, id: Id, grace: Time)
    requires Inv(w) && id !in w.db.commands && id in Next(w, e).db.commands
    requires forall p | p in w.callers && w.callers[p].Resolving? && PlanOf(w.callers[p].resolve).Some? ::
               PlanOf(w.callers[p].resolve).value.grace >= grace
    ensures AbsentOnlyLate(Next(w, e), id, grace)
  {
    var v := Next(w, e);
    assert RowOk(w.db, id);
    hide ResolveOk, Judges, ExecPlace, ExecCancel, ExecResolve;
    OnlyPlacingStores(w, e, id);
    PlacingResolvesNothing(w.db, w.now, w.callers[e.pid].place, e.input, e.fault);
    forall p | p in v.callers && v.callers[p].Resolving?
      ensures ResolverPatient(v.now, v.callers[p].resolve, id, grace)
    {
      assert v.callers[p] == w.callers[p] && CallerOk(w, w.callers[p]);
      StrangerIsNotHeld(w.db, w.callers[p].resolve, id);
    }
  }

  /** While the resolvers' grace since the send has not passed, the answer of a Finalize can be
      overruled in one way alone: a resolver accepted another order for the command before. */
  lemma InTimeOverruledByOrderAlone(w: World, events: seq<Event>, pid: Pid, later: seq<Event>, grace: Time)
    requires Inv(w)
    requires FinalizingInTime(w, events, pid, grace)
    requires forall k | 0 <= k < |events| :: Patient(events[k], grace)
    ensures var v := Run(w, events); var receipt := v.callers[pid].place.receipt;
            && (Agrees(Run(Next(v, Turn(pid, Nothing, Fine)), later).db, receipt) <==> !Contradicted(v.db, receipt))
            && (Contradicted(v.db, receipt) ==> v.db.resolutions[receipt.id].disposition == Accepted)
  {
    var v := Run(w, events);
    var id := v.callers[pid].place.receipt.id;
    RunAbsentOnlyLate(w, events, id, grace);
    RunGrows(w, events);
    assert GrowsAt(w.db, v.db, id) && RowOk(v.db, id);
    hide Run, Next, Inv, Contradicted;
    FinalizeAnswerIffNotContradicted(v, pid, later);
  }

  ghost predicate FinalizingInTime(w: World, events: seq<Event>, pid: Pid, grace: Time) {
    var v := Run(w, events);
    && pid in v.callers && v.callers[pid].Placing? && v.callers[pid].place.Finalizing?
    && var id := v.callers[pid].place.receipt.id;
       && id in w.db.commands && id in w.db.contexts && AbsentOnlyLate(w, id, grace)
       && v.now < PendingItem(w.db, id).sentAt + grace
  }

  /** A placement that is answered inside the grace, and whose order is the only one in the broker's
      book with its facts inside the window, is never overruled: its answer is the effective outcome
      from then on, whatever checks ran beside the send. */
  lemma LoneOrderAnswerHolds(w: World, events: seq<Event>, pid: Pid, later: seq<Event>, grace: Time,
                             before: set<Id>, book: map<string, Order>, window: Time)
    requires Inv(w) && HeldByBook(w, before, book, window) && AllByBook(w, events, book, window)
    requires FinalizingInTime(w, events, pid, grace)
    requires forall k | 0 <= k < |events| :: Patient(events[k], grace)
    requires var v := Run(w, events); var receipt := v.callers[pid].place.receipt;
             && receipt.id !in before && receipt.id in v.db.commands && KisScope(v.db.commands[receipt.id].scope)
             && (forall oid | InBook(PendingItem(v.db, receipt.id), oid, book, window) :: oid == receipt.brokerOrderId)
    ensures var v := Run(w, events);
            Agrees(Run(Next(v, Turn(pid, Nothing, Fine)), later).db, v.callers[pid].place.receipt)
  {
    var v := Run(w, events);
    InTimeOverruledByOrderAlone(w, events, pid, later, grace);
    RunByBook(w, events, before, book, window);
    RunKeeps(w, events);
    hide Run, Next, AllByBook, HeldByBook, Inv, InBook;
    LoneOrderStands(v, pid, before, book, window);
  }

  /** An acceptance in the tables names the one order of the book that can be meant. */
  lemma LoneOrderStands(v: World, pid: Pid, before: set<Id>, book: map<string, Order>, window: Time)
    requires Inv(v) && HeldByBook(v, before, book, window)
    requires pid in v.callers && v.callers[pid].Placing? && v.callers[pid].place.Finalizing?
    requires var receipt := v.callers[pid].place.receipt;
             && receipt.id !in before && receipt.id in v.db.commands && KisScope(v.db.commands[receipt.id].scope)
             && (forall oid | InBook(PendingItem(v.db, receipt.id), oid, book, window) :: oid == receipt.brokerOrderId)
             && (Contradicted(v.db, receipt) ==> v.db.resolutions[receipt.id].disposition == Accepted)
    ensures !Contradicted(v.db, v.callers[pid].place.receipt)
  {
    hide InBook;
    var receipt := v.callers[pid].place.receipt;
    assert CallerOk(v, v.callers[pid]) && RowOk(v.db, receipt.id);
    assert AcceptedByBook(v.db, receipt.id, book, window) && PlacerByBook(v.db, v.callers[pid].place, book, window);
  }

  // ----- the Alpaca scope: orders found by the command's own id -----

  /** A read made for the command that finds an order names the given one. */
  ghost predicate Names(w: World, e: Event, id: Id, oid: string) {
    AnswersRead(w, e) && id in w.db.commands && w.callers[e.pid].resolve.key == KeyOf(PendingItem(w.db, id)) ==>
      NamesOnly(e.input.evidence, oid)
  }

  predicate NamesOnly(evidence: Evidence, oid: string) {
    evidence.ClientOrder? && evidence.found && evidence.brokerOrderId != "" ==> evidence.brokerOrderId == oid
  }

  ghost predicate AllName(w: World, events: seq<Event>, id: Id, oid: string) {
    forall k | 0 <= k < |events| :: Names(Run(w, events[..k]), events[k], id, oid)
  }

  ghost predicate ResolverNames(pc: ResolvePc, id: Id, oid: string) {
    && (Judges(pc, id) ==> NamesOnly(Holding(pc).0, oid))
    && (pc.Appending? && pc.items != [] && pc.items[0].id == id && pc.conclusion.Accept? ==>
          pc.conclusion.brokerOrderId == oid)
  }

  predicate ResolvedAs(db: Db, id: Id, oid: string) {
    id in db.resolutions && db.resolutions[id].disposition == Accepted ==>
      db.resolutions[id].brokerOrderId == oid && db.resolutions[id].errorCode == ""
  }

  /** An Alpaca command that resolvers have accepted, or are about to, under the given order id alone. */
  ghost predicate OnlyNamed(w: World, id: Id, oid: string) {
    && id in w.db.commands && id in w.db.contexts && w.db.commands[id].scope == AlpacaPaperCrypto
    && ResolvedAs(w.db, id, oid)
    && (forall p | p in w.callers && w.callers[p].Resolving? :: ResolverNames(w.callers[p].resolve, id, oid))
  }

  lemma ResolverStepNames(w: World, pc: ResolvePc, input: Input, fault: Fault, id: Id, oid: string)
    requires DbOk(w.db) && ResolveOk(w.db, pc) && ResolverNames(pc, id, oid) && ResolvedAs(w.db, id, oid)
    requires id in w.db.commands && w.db.commands[id].scope == AlpacaPaperCrypto
    requires pc.Reading? && input.Answered? && pc.key == KeyOf(PendingItem(w.db, id)) ==>
               NamesOnly(input.evidence, oid)
    ensures var s := ExecResolve(w.db, w.now, pc, input, fault);
            ResolverNames(s.pc, id, oid) && ResolvedAs(s.db, id, oid)
  {
    StepJudges(w.db, w.now, pc, input, fault, id);
    hide JudgeDay, ValidResolution, KeyOf;
    if pc.Concluding? && pc.items != [] {
      assert Holding(pc).1[0] == pc.items[0] && ItemOk(w.db, pc.items[0]);
    }
    hide Judges;
  }

  lemma OnlyNamedStep(w: World, e: Event, id: Id, oid: string)
    requires Inv(w) && OnlyNamed(w, id, oid) && Names(w, e, id, oid)
    ensures OnlyNamed(Next(w, e), id, oid)
  {
    hide ExecPlace, ExecCancel, ExecResolve, ResolveOk, Judges, NamesOnly, Holding;
    ContextFixesItem(w, e, id);
    var v := Next(w, e);
    if e.Turn? && e.pid in w.callers {
      assert CallerOk(w, w.callers[e.pid]);
      match w.callers[e.pid] {
        case Placing(pc) => PlacingResolvesNothing(w.db, w.now, pc, e.input, e.fault);
        case Cancelling(pc) => CancellingResolvesNothing(w.db, w.now, pc, e.input, e.fault);
        case Resolving(pc) => ResolverStepNames(w, pc, e.input, e.fault, id, oid);
      }
    }
    forall p | p in v.callers && v.callers[p].Resolving? ensures ResolverNames(v.callers[p].resolve, id, oid) {
      if p in w.callers && v.callers[p] == w.callers[p] {
        assert ResolverNames(w.callers[p].resolve, id, oid);
      } else if e.Begin? {
        NewcomerJudgesNothing(e.call, w.now, id);
      }
    }
  }

  /** If every read made for an Alpaca command names one order or none, resolvers never accept it
      under another order id. */
  lemma {:induction false} RunOnlyNamed(w: World, events: seq<Event>, id: Id, oid: string)
    requires Inv(w) && OnlyNamed(w, id, oid) && AllName(w, events, id, oid)
    ensures OnlyNamed(Run(w, events), id, oid)
  {
    hide OnlyNamed, Names, Inv, Next;
    if events != [] {
      var front := events[..|events| - 1];
      forall k | 0 <= k < |front| ensures Names(Run(w, front[..k]), front[k], id, oid) {
        assert front[..k] == events[..k];
        assert Names(Run(w, events[..k]), events[k], id, oid);
      }
      RunOnlyNamed(w, front, id, oid);
      RunKeeps(w, front);
      assert Names(Run(w, events[..|front|]), events[|front|], id, oid);
      OnlyNamedStep(Run(w, front), events[|front|], id, oid);
    }
  }

  /** A command that was just reserved starts out that way, whatever order id it will have. */
  lemma FreshlyReservedIsOnlyNamed(w: World, e: Event, id: Id, oid: string)
    requires Inv(w) && id !in w.db.commands
    requires id in Next(w, e).db.contexts && id in Next(w, e).db.commands
    requires Next(w, e).db.commands[id].scope == AlpacaPaperCrypto
    ensures OnlyNamed(Next(w, e), id, oid)
  {
    var v := Next(w, e);
    assert RowOk(w.db, id);
    hide ResolveOk, Judges, NamesOnly, Holding, ExecPlace, ExecCancel, ExecResolve;
    OnlyPlacingStores(w, e, id);
    PlacingResolvesNothing(w.db, w.now, w.callers[e.pid].place, e.input, e.fault);
    forall p | p in v.callers && v.callers[p].Resolving? ensures ResolverNames(v.callers[p].resolve, id, oid) {
      assert v.callers[p] == w.callers[p] && CallerOk(w, w.callers[p]);
      StrangerIsNotHeld(w.db, w.callers[p].resolve, id);
    }
  }

  /** An Alpaca placement that is answered inside the grace is never overruled, if the reads made for
      it name the order that was sent: its answer is the effective outcome from then on, whatever
      checks ran beside the send. */
  lemma NamedOrderAnswerHolds(w: World, events: seq<Event>, pid: Pid, later: seq<Event>, grace: Time)
    requires Inv(w) && FinalizingInTime(w, events, pid, grace)
    requires forall k | 0 <= k < |events| :: Patient(events[k], grace)
    requires var receipt := Run(w, events).callers[pid].place.receipt;
             receipt.disposition == Accepted ==>
               OnlyNamed(w, receipt.id, receipt.brokerOrderId) && AllName(w, events, receipt.id, receipt.brokerOrderId)
    ensures var v := Run(w, events);
            Agrees(Run(Next(v, Turn(pid, Nothing, Fine)), later).db, v.callers[pid].place.receipt)
  {
    var v := Run(w, events);
    var receipt := v.callers[pid].place.receipt;
    InTimeOverruledByOrderAlone(w, events, pid, later, grace);
    RunKeeps(w, events);
    assert CallerOk(v, v.callers[pid]) && RowOk(v.db, receipt.id);
    if receipt.disposition == Accepted {
      RunOnlyNamed(w, events, receipt.id, receipt.brokerOrderId);
    }
  }
}
