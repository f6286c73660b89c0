/** Batch and single-command reconciliation as the resolver runs them on the store. */
module Resolver {
  import opened Contracts
  import opened Tables
  import opened Evidence
  import opened Protocol
  import Store

  /** What a read comes back with; a reader's own error carries a code, any other error none. */
  datatype Answer<+T> = Failure(code: string) | Success(value: T)

  /** The read-only broker evidence. A domestic-only reader has no overseas part. */
  datatype KisReader = KisReader(
    domestic: int -> Answer<seq<Order>>, overseas: Option<int -> Answer<seq<Order>>>)

  datatype Readers = Readers(kis: Option<KisReader>, alpaca: Option<string -> Answer<(bool, string)>>)

  /** One reconciliation's clock, settings and sources, and what becomes of the statement that
      resolves a command. */
  datatype Check = Check(readers: Readers, now: Time, grace: Time, window: Time, write: Id -> Fault)

  /** The evidence a key's read yields. */
  function ReadFor(readers: Readers, key: EvidenceKey): Evidence {
    match key
    case DayKey(scope, day) =>
      var source :=
        if readers.kis.None? then None
        else if scope == KISMock then Some(readers.kis.value.domestic)
        else if scope == KISMockUS then readers.kis.value.overseas
        else None;
      if source.None? then Unread
      else
        var answer := source.value(day);
        if answer.Failure? then Unread else DayOrders(answer.value)
    case ClientKey(clientId) =>
      if readers.alpaca.None? then Unread
      else
        var answer := readers.alpaca.value(clientId);
        if answer.Failure? then Unread else ClientOrder(answer.value.0, answer.value.1)
  }

  function Verdict(check: Check, single: bool, x: Item): Conclusion {
    Judge(x, ReadFor(check.readers, KeyOf(x)), check.now, check.grace, check.window, single)
  }

  predicate Writes(check: Check, single: bool, x: Item) {
    var c := Verdict(check, single, x);
    c != Leave && ValidResolution(x.id, RowFor(c, check.now)) && check.write(x.id) != Refused
  }

  function RowOf(check: Check, single: bool, x: Item): Resolution
    requires Writes(check, single, x)
  {
    RowFor(Verdict(check, single, x), check.now)
  }

  /** Nothing but resolution rows was added: exactly one per item whose verdict writes. */
  ghost predicate Wrote(a: Db, b: Db, check: Check, single: bool, items: set<Item>) {
    && b == a.(resolutions := b.resolutions)
    && (forall id | id in a.resolutions :: id in b.resolutions && b.resolutions[id] == a.resolutions[id])
    && (forall id | id in b.resolutions && id !in a.resolutions ::
          exists x :: x in items && x.id == id && Writes(check, single, x))
    && (forall x | x in items && Writes(check, single, x) ::
          x.id in b.resolutions && b.resolutions[x.id] == RowOf(check, single, x))
  }

  /** That description leaves no freedom: the order and the grouping of the work cannot show. */
  lemma WroteDetermines(a: Db, b: Db, c: Db, check: Check, single: bool, items: set<Item>)
    requires Wrote(a, b, check, single, items) && Wrote(a, c, check, single, items)
    ensures b == c
  {
    assert forall id :: id in b.resolutions <==> id in c.resolutions;
    assert b.resolutions == c.resolutions;
  }

  function ItemSet(items: seq<Item>): set<Item> {
    set x | x in items
  }

  /** Distinct, unresolved and as the tables hold them. */
  ghost predicate Snapshot(db: Db, items: seq<Item>) {
    && (forall i | 0 <= i < |items| :: Unresolved(db, items[i].id) && items[i] == PendingItem(db, items[i].id))
    && (forall i, j | 0 <= i < j < |items| :: items[i].id != items[j].id)
  }

  lemma WroteOneMore(a: Db, b: Db, check: Check, single: bool, done: set<Item>, x: Item)
    requires Wrote(a, b, check, single, done) && Unresolved(a, x.id)
    requires forall y | y in done :: y.id != x.id
    ensures Unresolved(b, x.id)
    ensures Writes(check, single, x) ==>
              Wrote(a, AppendResolution(b, x.id, RowOf(check, single, x)), check, single, done + {x})
    ensures !Writes(check, single, x) ==> Wrote(a, b, check, single, done + {x})
  {
  }

  /** The receipt a batch collects for an item whose statement succeeded: the command's outcome with
      the item's own row. */
  function ReceiptOf(a: Db, check: Check, x: Item): Option<Receipt> {
    if Writes(check, false, x) && check.write(x.id) == Fine then
      Effective(AppendResolution(a, x.id, RowOf(check, false, x)), x.id)
    else None
  }

  /** The receipts collected are those of the items that were written, each exactly once. */
  ghost predicate Reports(resolved: seq<Receipt>, a: Db, check: Check, items: set<Item>) {
    && (forall r :: r in resolved <==> exists x :: x in items && ReceiptOf(a, check, x) == Some(r))
    && (forall i, j | 0 <= i < j < |resolved| :: resolved[i].id != resolved[j].id)
  }

  lemma ReportsOneMore(resolved: seq<Receipt>, a: Db, check: Check, done: set<Item>, x: Item)
    requires Reports(resolved, a, check, done) && forall y | y in done :: y.id != x.id
    ensures var r := ReceiptOf(a, check, x);
            Reports(if r.Some? then resolved + [r.value] else resolved, a, check, done + {x})
  {
    hide Writes, RowOf;
    var r := ReceiptOf(a, check, x);
    var more := if r.Some? then resolved + [r.value] else resolved;
    forall p ensures p in more <==> exists y :: y in done + {x} && ReceiptOf(a, check, y) == Some(p) {
      if p in more && p !in resolved {
        assert x in done + {x} && ReceiptOf(a, check, x) == Some(p);
      } else if p in resolved {
        var y :| y in done && ReceiptOf(a, check, y) == Some(p);
        assert y in done + {x};
      }
    }
    forall i, j | 0 <= i < j < |more| ensures more[i].id != more[j].id {
      assert more[i] in resolved;
      var y :| y in done && ReceiptOf(a, check, y) == Some(more[i]);
      if j == |resolved| {
        assert more[j] == r.value;
      }
    }
  }

  lemma ReportsTogether(left: seq<Receipt>, right: seq<Receipt>, a: Db, check: Check, done: set<Item>, items: set<Item>)
    requires Reports(left, a, check, done) && Reports(right, a, check, items)
    requires forall x, y | x in done && y in items :: x.id != y.id
    ensures Reports(left + right, a, check, done + items)
  {
    hide Writes, RowOf;
    var all := left + right;
    forall r ensures r in all <==> exists x :: x in done + items && ReceiptOf(a, check, x) == Some(r) {
      if r in left {
        var x :| x in done && ReceiptOf(a, check, x) == Some(r);
        assert x in done + items;
      } else if r in right {
        var x :| x in items && ReceiptOf(a, check, x) == Some(r);
        assert x in done + items;
      }
    }
    forall i, j | 0 <= i < j < |all| ensures all[i].id != all[j].id {
      if i < |left| <= j {
        assert all[i] in left && all[j] in right;
        var x :| x in done && ReceiptOf(a, check, x) == Some(all[i]);
        var y :| y in items && ReceiptOf(a, check, y) == Some(all[j]);
      }
    }
  }

  lemma ReportsNothing(a: Db, check: Check, items: set<Item>)
    requires forall x | x in items :: Verdict(check, false, x) == Leave
    ensures Reports([], a, check, items)
  {
  }

  // ----- one command -----

  /** What a reader that can answer for the item says, if there is one. */
  function Asked(readers: Readers, x: Item): Option<Answer<Evidence>> {
    match x.scope
    case KISMock =>
      if readers.kis.None? then None else Some(Listing(readers.kis.value.domestic(KisDay(x.sentAt))))
    case KISMockUS =>
      if readers.kis.None? || readers.kis.value.overseas.None? then None
      else Some(Listing(readers.kis.value.overseas.value(KisDay(x.sentAt))))
    case AlpacaPaperCrypto =>
      if !ClientMapped(x) || readers.alpaca.None? then None
      else
        var answer := readers.alpaca.value(x.clientOrderId);
        Some(if answer.Failure? then Failure(answer.code) else Success(ClientOrder(answer.value.0, answer.value.1)))
    case _ => None
  }

  function Listing(answer: Answer<seq<Order>>): Answer<Evidence> {
    if answer.Failure? then Failure(answer.code) else Success(DayOrders(answer.value))
  }

  /** An item nobody can be asked about, or whose read failed, is left; any other is judged by what
      its reader said. */
  lemma AskedDecides(check: Check, single: bool, x: Item)
    ensures var asked := Asked(check.readers, x);
            if asked.None? || asked.value.Failure? then Verdict(check, single, x) == Leave
            else Verdict(check, single, x) == Judge(x, asked.value.value, check.now, check.grace, check.window, single)
  {
  }

  /** The only row the tables gain for a command is this one, or none. */
  ghost predicate Gains(b: Db, id: Id, row: Option<Resolution>) {
    if row.None? then id !in b.resolutions else id in b.resolutions && b.resolutions[id] == row.value
  }

  /** The row of a KIS command that a single check or a batch got to is settled by the rows of its day
      alone: the one matching order, whatever else the day lists; nothing when several match; an absence
      if and only if none does, the grace is over and the command has a context or the day is empty. */
  lemma RowsByListing(a: Db, b: Db, check: Check, single: bool, items: set<Item>, x: Item, orders: seq<Order>)
    requires Wrote(a, b, check, single, items) && x in items && forall y | y in items && y.id == x.id :: y == x
    requires x.id !in a.resolutions && ValidCommandId(x.id) && check.write(x.id) != Refused
    requires Asked(check.readers, x) == Some(Success(DayOrders(orders)))
    ensures (forall k: nat | OnlyMatch(x, orders, check.window, k) && orders[k].brokerOrderId != "" ::
               Gains(b, x.id, Some(Resolution(Accepted, orders[k].brokerOrderId, "", check.now))))
    ensures TwoMatch(x, orders, check.window) ==> Gains(b, x.id, None)
    ensures NoneMatches(x, orders, check.window) ==>
              Gains(b, x.id, if check.now >= x.sentAt + check.grace && (x.contextPresent || orders == []) then
                      Some(Resolution(NotCreated, "", "resolved_absent", check.now)) else None)
  {
    AskedDecides(check, single, x);
    DayDecides(x, orders, check.now, check.grace, check.window, single);
    hide Judge, Asked, ReadFor, OnlyMatch, TwoMatch, NoneMatches;
  }

  /** The row of an Alpaca command, by what the lookup of its client order id found. */
  lemma RowsByLookup(a: Db, b: Db, check: Check, single: bool, items: set<Item>, x: Item, found: bool, oid: string)
    requires Wrote(a, b, check, single, items) && x in items && forall y | y in items && y.id == x.id :: y == x
    requires x.id !in a.resolutions && ValidCommandId(x.id) && check.write(x.id) != Refused
    requires x.scope == AlpacaPaperCrypto && x.contextPresent && x.clientOrderId == x.id
    requires Asked(check.readers, x) == Some(Success(ClientOrder(found, oid)))
    ensures Gains(b, x.id, if found && oid != "" then Some(Resolution(Accepted, oid, "", check.now))
                           else if (!found || single) && check.now >= x.sentAt + check.grace then
                             Some(Resolution(NotCreated, "", "resolved_absent", check.now))
                           else None)
  {
    AskedDecides(check, single, x);
    LookupDecides(x, found, oid, check.now, check.grace, check.window, single);
    hide Judge, Asked, ReadFor;
  }

  /** The evidence fields of an answer: whether a read was needed and completed, how many orders the
      day listed and how many matched. */
  datatype Report = Report(evidenceRead: string, ordersSeen: nat, matched: nat)

  const NO_REPORT := Report("", 0, 0)

  function ReportOf(x: Item, evidence: Evidence, window: Time): Report {
    match evidence
    case Unread => NO_REPORT
    case DayOrders(orders) => Report("completed", |orders|, |Matching(x, orders, window)|)
    case ClientOrder(found, oid) => Report("completed", 0, if found && oid != "" then 1 else 0)
  }

  /** The counts of an answer about a day: all its rows, and of these the ones that match. */
  lemma ReportCounts(x: Item, orders: seq<Order>, window: Time)
    ensures var r := ReportOf(x, DayOrders(orders), window);
            && r.evidenceRead == "completed" && r.ordersSeen == |orders|
            && (r.matched == 0 <==> NoneMatches(x, orders, window))
            && (r.matched == 1 <==> exists k: nat :: OnlyMatch(x, orders, window, k))
            && (r.matched >= 2 <==> TwoMatch(x, orders, window))
  {
    hide Matches;
    ListingCases(x, orders, window);
    if NoneMatches(x, orders, window) {
      NoneCounted(x, orders, window);
    } else if TwoMatch(x, orders, window) {
      var j, k :| 0 <= j < k < |orders| && Matches(x, orders[j], window)
                  && Matches(x, orders[k], window);
      TwoCounted(x, orders, window, j, k);
    } else {
      var k: nat :| OnlyMatch(x, orders, window, k);
      OneCounted(x, orders, window, k);
    }
  }

  /** The tables after a single check. */
  ghost predicate SingleCheck(a: Db, b: Db, check: Check, id: Id) {
    if ValidCommandId(id) && Unresolved(a, id) then Wrote(a, b, check, true, {PendingItem(a, id)}) else b == a
  }

  /** The row is written and the store says so. */
  predicate Stored(check: Check, single: bool, x: Item) {
    Writes(check, single, x) && check.write(x.id) == Fine
  }

  /** The code and the report a single check answers with; the empty code is an answer. */
  function CodeAndReport(a: Db, check: Check, id: Id): (string, Report) {
    if !ValidCommandId(id) then (INVALID_COMMAND, NO_REPORT)
    else if id !in a.commands then (COMMAND_NOT_FOUND, NO_REPORT)
    else if Effective(a, id).value.disposition != Unknown then ("", Report("not_needed", 0, 0))
    else if !Unresolved(a, id) then ("", Report("unavailable", 0, 0))
    else
      var x := PendingItem(a, id);
      match Asked(check.readers, x)
      case None => ("", Report("unavailable", 0, 0))
      case Some(Failure(code)) => (if code == "" then READ_FAILED else code, NO_REPORT)
      case Some(Success(evidence)) =>
        (if Verdict(check, true, x) == Leave || Stored(check, true, x) then "" else STORAGE_FAILURE,
         ReportOf(x, evidence, check.window))
  }

  /** ResolveOne: the command's receipt once the check is over, with the code of a check that
      could not be made. A statement that errs leaves the receipt that was read first. */
  method ResolveOne(store: Store.Store, id: Id, check: Check)
    returns (answer: Option<Receipt>, report: Report, error: string)
    modifies store
    ensures SingleCheck(old(store.Contents()), store.Contents(), check, id)
    ensures (error, report) == CodeAndReport(old(store.Contents()), check, id)
    ensures answer == if !ValidCommandId(id) then None
                      else Effective(if error == STORAGE_FAILURE then old(store.Contents()) else store.Contents(), id)
  {
    answer, report, error := None, NO_REPORT, "";
    if !ValidCommandId(id) {
      return None, NO_REPORT, INVALID_COMMAND;
    }
    var failed: bool;
    answer, failed := store.Find(id, Fine);
    if answer.None? {
      return None, NO_REPORT, COMMAND_NOT_FOUND;
    }
    if answer.value.disposition != Unknown {
      report := Report("not_needed", 0, 0);
      return;
    }
    var pending, err := store.FindPendingResolution(id, Fine);
    if pending.None? {
      report := Report("unavailable", 0, 0);
      return;
    }
    var item := pending.value;
    assert {item} == {} + {item};
    WroteOneMore(store.Contents(), store.Contents(), check, true, {}, item);
    AskedDecides(check, true, item);
    var asked := Asked(check.readers, item);
    if asked.None? {
      report := Report("unavailable", 0, 0);
      return;
    }
    if asked.value.Failure? {
      error := if asked.value.code == "" then READ_FAILED else asked.value.code;
      return;
    }
    hide ReadFor, Asked;
    var evidence := asked.value.value;
    report := ReportOf(item, evidence, check.window);
    var c := Judge(item, evidence, check.now, check.grace, check.window, true);
    if c == Leave {
      return;
    }
    var receipt := store.ResolveUnknown(id, RowFor(c, check.now), check.write(id));
    if receipt.None? {
      error := STORAGE_FAILURE;
    } else {
      answer := receipt;
    }
  }

  // ----- the batch -----

  /** The body of the item loops: leave the item, or append its row and collect the receipt, which a
      statement that errs does not return. */
  method ResolveItem(store: Store.Store, x: Item, evidence: Evidence, check: Check,
                     ghost a: Db, ghost done: set<Item>)
    returns (receipt: Option<Receipt>, left: bool)
    requires Wrote(a, store.Contents(), check, false, done)
    requires Unresolved(a, x.id) && x == PendingItem(a, x.id) && forall y | y in done :: y.id != x.id
    requires evidence == ReadFor(check.readers, KeyOf(x))
    modifies store
    ensures left <==> Verdict(check, false, x) == Leave
    ensures receipt == ReceiptOf(a, check, x) && (left ==> receipt.None?)
    ensures Wrote(a, store.Contents(), check, false, done + {x})
    ensures left || receipt.Some? <==> Conclusive(check, x)
  {
    WroteOneMore(a, store.Contents(), check, false, done, x);
    var c := Judge(x, evidence, check.now, check.grace, check.window, false);
    receipt, left := None, c == Leave;
    if !left {
      receipt := store.ResolveUnknown(x.id, RowFor(c, check.now), check.write(x.id));
    }
  }

  /** The batch gets past the item: it leaves it, or stores its row without an error. */
  predicate Conclusive(check: Check, x: Item) {
    Verdict(check, false, x) == Leave || Stored(check, false, x)
  }

  /** The first item of a list the batch does not get past, or the list's length. */
  function Stop(check: Check, items: seq<Item>): (r: nat)
    ensures r <= |items| && (r < |items| ==> !Conclusive(check, items[r]))
    ensures forall k | 0 <= k < r :: Conclusive(check, items[k])
  {
    if items == [] then 0
    else
      var s := Stop(check, items[..|items| - 1]);
      if s < |items| - 1 || !Conclusive(check, items[|items| - 1]) then s else |items|
  }

  /** The items a list's run gets to: an item is one of them when every item before it is concluded. */
  ghost function Reached(check: Check, items: seq<Item>): set<Item> {
    set i | 0 <= i < |items| && i <= Stop(check, items) :: items[i]
  }

  /** The items a list's run gets past. */
  ghost function Concluded(check: Check, items: seq<Item>): set<Item> {
    ItemSet(items[..Stop(check, items)])
  }

  /** What a run over a list leaves, whether it gets to the end or stops: the rows of the items it
      reached, and the receipts of those it got past. */
  ghost predicate ItemsJudged(a: Db, b: Db, resolved: seq<Receipt>, check: Check, done: set<Item>, items: seq<Item>) {
    && Wrote(a, b, check, false, done + Reached(check, items))
    && Reports(resolved, a, check, Concluded(check, items))
  }

  lemma StopIs(check: Check, items: seq<Item>, i: nat)
    requires i <= |items| && (i < |items| ==> !Conclusive(check, items[i]))
    requires forall k | 0 <= k < i :: Conclusive(check, items[k])
    ensures Stop(check, items) == i
  {
  }

  lemma AllPassed(check: Check, items: seq<Item>)
    requires forall i | 0 <= i < |items| :: Conclusive(check, items[i])
    ensures Stop(check, items) == |items| && Reached(check, items) == Concluded(check, items) == ItemSet(items)
  {
    hide Conclusive;
    StopIs(check, items, |items|);
  }

  lemma StopsAt(check: Check, items: seq<Item>, i: nat)
    requires i < |items| && !Conclusive(check, items[i]) && forall k | 0 <= k < i :: Conclusive(check, items[k])
    ensures Stop(check, items) == i && Concluded(check, items) == ItemSet(items[..i])
    ensures Reached(check, items) == ItemSet(items[..i]) + {items[i]}
  {
    hide Conclusive;
    StopIs(check, items, i);
    assert items[..i + 1] == items[..i] + [items[i]];
    assert ItemSet(items[..i + 1]) == Reached(check, items);
  }

  /** resolveEvidence: one read's items, one by one. A conclusion the store refuses, or a statement
      that errs, stops the run. */
  method ResolveEvidence(store: Store.Store, items: seq<Item>, evidence: Evidence, check: Check,
                         ghost a: Db, ghost done: set<Item>)
    returns (resolved: seq<Receipt>, unresolved: nat, ok: bool)
    requires Wrote(a, store.Contents(), check, false, done) && Snapshot(a, items)
    requires Apart(done, items)
    requires forall i | 0 <= i < |items| :: evidence == ReadFor(check.readers, KeyOf(items[i]))
    modifies store
    ensures ItemsJudged(a, store.Contents(), resolved, check, done, items)
    ensures |resolved| + unresolved == Stop(check, items)
    ensures ok <==> forall i | 0 <= i < |items| :: Conclusive(check, items[i])
  {
    hide *;
    hide KeyOf, Judge, Effective, Unresolved, PendingItem, AppendResolution, ValidResolution, RowFor;
    resolved, unresolved, ok := [], 0, true;
    NoneDone(a, store.Contents(), check, done, items);
    for i := 0 to |items|
      invariant ok && ItemsDone(a, store.Contents(), resolved, unresolved, check, done, items, i)
    {
      NextItem(a, store.Contents(), resolved, unresolved, check, done, items, i);
      ghost var sofar, left0, m := resolved, unresolved, store.Contents();
      var receipt, left := ResolveItem(store, items[i], evidence, check, a, done + ItemSet(items[..i]));
      if left {
        unresolved := unresolved + 1;
      } else if receipt.Some? {
        resolved := resolved + [receipt.value];
      } else {
        ok := false;
      }
      ItemAdds(a, m, store.Contents(), sofar, left0, check, done, items, i, receipt, left);
      if !ok {
        return;
      }
    }
    AllDone(a, store.Contents(), resolved, unresolved, check, done, items);
  }

  /** The first items of a list are judged: their rows are written and their receipts collected. */
  ghost predicate ItemsDone(a: Db, b: Db, resolved: seq<Receipt>, unresolved: nat, check: Check, done: set<Item>,
                            items: seq<Item>, i: nat)
    requires i <= |items|
  {
    && |resolved| + unresolved == i
    && Wrote(a, b, check, false, done + ItemSet(items[..i])) && Reports(resolved, a, check, ItemSet(items[..i]))
    && forall k | 0 <= k < i :: Conclusive(check, items[k])
  }

  lemma NoneDone(a: Db, b: Db, check: Check, done: set<Item>, items: seq<Item>)
    requires Wrote(a, b, check, false, done)
    ensures ItemsDone(a, b, [], 0, check, done, items, 0)
  {
    hide Wrote;
    assert ItemSet(items[..0]) == {} && done + {} == done;
    ReportsNothing(a, check, {});
  }

  lemma NextItem(a: Db, b: Db, resolved: seq<Receipt>, unresolved: nat, check: Check, done: set<Item>,
                 items: seq<Item>, i: nat)
    requires Snapshot(a, items) && Apart(done, items) && i < |items|
    requires ItemsDone(a, b, resolved, unresolved, check, done, items, i)
    ensures Wrote(a, b, check, false, done + ItemSet(items[..i]))
    ensures Unresolved(a, items[i].id) && items[i] == PendingItem(a, items[i].id)
    ensures forall y | y in done + ItemSet(items[..i]) :: y.id != items[i].id
  {
    hide Unresolved, PendingItem, Wrote, Reports, Conclusive;
    assert items[i] in items;
  }

  /** What one more item, left, written or refused, makes of that. */
  lemma ItemAdds(a: Db, m: Db, b: Db, resolved: seq<Receipt>, unresolved: nat, check: Check, done: set<Item>,
                 items: seq<Item>, i: nat, receipt: Option<Receipt>, left: bool)
    requires i < |items| && ItemsDone(a, m, resolved, unresolved, check, done, items, i)
    requires Snapshot(a, items)
    requires Wrote(a, b, check, false, done + ItemSet(items[..i]) + {items[i]})
    requires receipt == ReceiptOf(a, check, items[i]) && (left ==> receipt.None?)
    requires left || receipt.Some? <==> Conclusive(check, items[i])
    ensures var more := if receipt.Some? then resolved + [receipt.value] else resolved;
            if Conclusive(check, items[i]) then
              ItemsDone(a, b, more, if left then unresolved + 1 else unresolved, check, done, items, i + 1)
            else
              ItemsJudged(a, b, resolved, check, done, items) && |resolved| + unresolved == Stop(check, items) == i
  {
    hide Unresolved, PendingItem, Wrote, Reports, ReceiptOf, Conclusive;
    TakeOne(items, i, done);
    if Conclusive(check, items[i]) {
      ReportsOneMore(resolved, a, check, ItemSet(items[..i]), items[i]);
    } else {
      hide Reached, Concluded, Stop;
      StopsAt(check, items, i);
      assert done + ItemSet(items[..i]) + {items[i]} == done + (ItemSet(items[..i]) + {items[i]});
    }
  }

  lemma AllDone(a: Db, b: Db, resolved: seq<Receipt>, unresolved: nat, check: Check, done: set<Item>, items: seq<Item>)
    requires ItemsDone(a, b, resolved, unresolved, check, done, items, |items|)
    ensures ItemsJudged(a, b, resolved, check, done, items)
    ensures |resolved| + unresolved == Stop(check, items) == |items|
    ensures forall i | 0 <= i < |items| :: Conclusive(check, items[i])
  {
    hide Wrote, Reports, Conclusive, Stop, Reached, Concluded;
    assert items[..|items|] == items;
    AllPassed(check, items);
  }

  lemma TakeOne(items: seq<Item>, i: nat, done: set<Item>)
    requires i < |items|
    ensures ItemSet(items[..i + 1]) == ItemSet(items[..i]) + {items[i]}
    ensures done + ItemSet(items[..i + 1]) == done + ItemSet(items[..i]) + {items[i]}
  {
    assert items[..i + 1] == items[..i] + [items[i]];
  }

  ghost predicate Apart(done: set<Item>, items: seq<Item>) {
    forall x, y | x in done && y in items :: x.id != y.id
  }

  // ----- grouping -----

  lemma {:induction false} WithKeySnapshot(db: Db, items: seq<Item>, key: EvidenceKey)
    requires Snapshot(db, items)
    ensures Snapshot(db, WithKey(items, key))
  {
    if items != [] {
      var rest := items[1..];
      WithKeySnapshot(db, rest, key);
      forall x | x in rest ensures x.id != items[0].id {
        var i :| 0 <= i < |rest| && rest[i] == x;
        assert items[i + 1] == x;
      }
    }
  }

  lemma {:induction false} WithKeyAppend(items: seq<Item>, x: Item, key: EvidenceKey)
    ensures WithKey(items + [x], key) == WithKey(items, key) + (if KeyOf(x) == key then [x] else [])
  {
    if items != [] {
      WithKeyAppend(items[1..], x, key);
      assert (items + [x])[1..] == items[1..] + [x];
    }
  }

  /** The items no processed key covers. */
  function Rest(items: seq<Item>, keys: set<EvidenceKey>): (r: seq<Item>)
    ensures |r| <= |items|
  {
    if items == [] then []
    else
      var rest := Rest(items[1..], keys);
      if KeyOf(items[0]) in keys then rest else [items[0]] + rest
  }

  lemma {:induction false} RestShrinks(items: seq<Item>, keys: set<EvidenceKey>, key: EvidenceKey)
    requires key !in keys
    ensures |Rest(items, keys)| == |WithKey(items, key)| + |Rest(items, keys + {key})|
  {
    if items != [] {
      RestShrinks(items[1..], keys, key);
    }
  }

  lemma {:induction false} RestOfNone(items: seq<Item>)
    ensures Rest(items, {}) == items
  {
    if items != [] {
      RestOfNone(items[1..]);
    }
  }

  lemma {:induction false} RestOfAll(items: seq<Item>, keys: set<EvidenceKey>)
    requires forall x | x in items :: KeyOf(x) in keys
    ensures Rest(items, keys) == []
  {
    if items != [] {
      RestOfAll(items[1..], keys);
    }
  }

  method GroupByDay(pending: seq<Item>) returns (byDay: map<EvidenceKey, seq<Item>>)
    ensures forall key :: key in byDay <==> WithKey(pending, key) != []
    ensures forall key | key in byDay :: byDay[key] == WithKey(pending, key)
  {
    hide KeyOf;
    byDay := map[];
    for i := 0 to |pending|
      invariant forall key :: key in byDay <==> WithKey(pending[..i], key) != []
      invariant forall key | key in byDay :: byDay[key] == WithKey(pending[..i], key)
    {
      var x := pending[i];
      var key := KeyOf(x);
      assert pending[..i + 1] == pending[..i] + [x];
      forall k ensures WithKey(pending[..i + 1], k) == WithKey(pending[..i], k) + (if KeyOf(x) == k then [x] else []) {
        WithKeyAppend(pending[..i], x, k);
      }
      byDay := byDay[key := (if key in byDay then byDay[key] else []) + [x]];
    }
    assert pending[..|pending|] == pending;
  }

  /** Scope first, then day. */
  predicate Before(a: EvidenceKey, b: EvidenceKey) {
    match (a, b)
    case (DayKey(s, d), DayKey(t, e)) => if s == t then d < e else s == KISMock
    case _ => false
  }

  predicate IsDay(k: EvidenceKey) {
    k.DayKey? && k.scope in KIS_SCOPES
  }

  ghost predicate Ascending(days: seq<EvidenceKey>) {
    forall i, j | 0 <= i < j < |days| :: Before(days[i], days[j])
  }

  lemma InsertAscending(days: seq<EvidenceKey>, i: nat, k: EvidenceKey)
    requires Ascending(days) && i <= |days| && IsDay(k) && k !in days && forall d | d in days :: IsDay(d)
    requires forall n | 0 <= n < i :: Before(days[n], k)
    requires i < |days| ==> !Before(days[i], k)
    ensures var longer := days[..i] + [k] + days[i..];
            Ascending(longer) && forall m :: m in longer <==> m in days || m == k
  {
    var longer := days[..i] + [k] + days[i..];
    if i < |days| {
      assert days[i] in days && Before(k, days[i]);
      forall n | i <= n < |days| ensures Before(k, days[n]) {
        assert days[n] in days && (n > i ==> Before(days[i], days[n]));
      }
    }
    forall p, q | 0 <= p < q < |longer| ensures Before(longer[p], longer[q]) {
      assert longer[p] == if p < i then days[p] else if p == i then k else days[p - 1];
      assert longer[q] == if q < i then days[q] else if q == i then k else days[q - 1];
    }
  }

  /** sort.Slice over the days: every key once, by scope and then by day. */
  method SortDays(keys: set<EvidenceKey>) returns (days: seq<EvidenceKey>)
    requires forall k | k in keys :: IsDay(k)
    ensures NoDuplicates(days) && Ascending(days) && forall k :: k in days <==> k in keys
  {
    days := [];
    var left := keys;
    while left != {}
      invariant left <= keys && Ascending(days)
      invariant forall k :: k in days <==> k in keys && k !in left
    {
      var k :| k in left;
      var i := 0;
      while i < |days| && Before(days[i], k)
        invariant 0 <= i <= |days|
        invariant forall n | 0 <= n < i :: Before(days[n], k)
      {
        i := i + 1;
      }
      InsertAscending(days, i, k);
      days, left := days[..i] + [k] + days[i..], left - {k};
    }
    forall i, j | 0 <= i < j < |days| ensures days[i] != days[j] {
      assert Before(days[i], days[j]);
    }
  }

  lemma NothingWritten(a: Db, b: Db, check: Check, done: set<Item>, items: seq<Item>)
    requires Wrote(a, b, check, false, done)
    requires forall x | x in items :: Verdict(check, false, x) == Leave
    ensures Wrote(a, b, check, false, done + ItemSet(items))
  {
  }

  lemma NoReaderLeaves(check: Check, items: seq<Item>)
    requires check.readers.kis.None? && forall x | x in items :: x.scope in KIS_SCOPES
    ensures forall x | x in items :: Verdict(check, false, x) == Leave
  {
  }

  /** The items of some processed day. */
  ghost function Covered(pending: seq<Item>, keys: set<EvidenceKey>): set<Item> {
    set x | x in pending && KeyOf(x) in keys
  }

  /** The reads of a set of days that fail. */
  ghost function UnreadAmong(check: Check, keys: set<EvidenceKey>): set<EvidenceKey> {
    set k | k in keys && ReadFor(check.readers, k).Unread?
  }

  ghost function KeysOf(items: seq<Item>): set<EvidenceKey> {
    set x | x in items :: KeyOf(x)
  }

  lemma UnreadOneMore(check: Check, keys: set<EvidenceKey>, key: EvidenceKey)
    requires key !in keys
    ensures |UnreadAmong(check, keys + {key})|
            == |UnreadAmong(check, keys)| + if ReadFor(check.readers, key).Unread? then 1 else 0
  {
    var more := UnreadAmong(check, keys + {key});
    if ReadFor(check.readers, key).Unread? {
      assert more == UnreadAmong(check, keys) + {key};
    } else {
      assert more == UnreadAmong(check, keys);
    }
  }

  /** Every item of the earlier days is concluded. */
  ghost predicate EarlierConcluded(check: Check, pending: seq<Item>, key: EvidenceKey) {
    forall x | x in pending && Before(KeyOf(x), key) :: Conclusive(check, x)
  }

  /** So is every item of the day. */
  ghost predicate DayConcluded(check: Check, pending: seq<Item>, key: EvidenceKey) {
    EarlierConcluded(check, pending, key) && forall x | x in pending && KeyOf(x) == key :: Conclusive(check, x)
  }

  /** The days the batch gets past. */
  ghost function Finished(check: Check, pending: seq<Item>): set<EvidenceKey> {
    set k | k in KeysOf(pending) && DayConcluded(check, pending, k)
  }

  /** The items the batch gets to: the earlier days are concluded, and so are the earlier items of
      their own day. */
  ghost function KisReached(check: Check, pending: seq<Item>): set<Item> {
    set x | x in pending && EarlierConcluded(check, pending, KeyOf(x))
            && x in Reached(check, WithKey(pending, KeyOf(x)))
  }

  /** One failure without a reader, and otherwise one for each finished day whose read fails. */
  ghost function KisFailures(check: Check, pending: seq<Item>): nat {
    if pending == [] then 0
    else if check.readers.kis.None? then 1
    else |UnreadAmong(check, Finished(check, pending))|
  }

  /** What a run over the days leaves, whether it gets to the end or stops in one: the rows of the
      items it reached and the receipts of the days it finished. The rows already written in the day
      it stopped in have no receipts. */
  ghost predicate DaysJudged(a: Db, b: Db, resolved: seq<Receipt>, unresolved: nat, check: Check, pending: seq<Item>) {
    && Wrote(a, b, check, false, KisReached(check, pending))
    && Reports(resolved, a, check, Covered(pending, Finished(check, pending)))
    && |resolved| + unresolved + |Rest(pending, Finished(check, pending))| == |pending|
  }

  lemma AllFinished(check: Check, pending: seq<Item>)
    requires forall x | x in pending :: Conclusive(check, x)
    ensures KisReached(check, pending) == ItemSet(pending) && Finished(check, pending) == KeysOf(pending)
    ensures Covered(pending, Finished(check, pending)) == ItemSet(pending)
    ensures Rest(pending, Finished(check, pending)) == []
  {
    hide Conclusive, KeyOf, Reached, Concluded;
    forall x | x in pending ensures x in Reached(check, WithKey(pending, KeyOf(x))) {
      AllPassed(check, WithKey(pending, KeyOf(x)));
    }
    RestOfAll(pending, KeysOf(pending));
    AllCovered(pending, KeysOf(pending));
  }

  lemma BeforeOrders(days: seq<EvidenceKey>, f: nat, e: nat)
    requires Ascending(days) && f < |days| && e < |days|
    ensures Before(days[f], days[e]) <==> f < e
    ensures days[f] == days[e] <==> f == e
  {
    if e < f {
      assert Before(days[e], days[f]);
    }
  }

  /** What comes no later than one of the sorted days is one of the days up to it. */
  lemma DayIndex(pending: seq<Item>, days: seq<EvidenceKey>, x: Item, e: nat, d: nat)
    requires Ascending(days) && e <= d < |days| && KeysOf(pending) == DaySet(days) && x in pending
    requires (e < d && KeyOf(x) == days[e]) || Before(KeyOf(x), days[e])
    ensures KeyOf(x) in DaySet(days[..d])
  {
    hide KeyOf;
    assert KeyOf(x) in KeysOf(pending);
    var f :| 0 <= f < |days| && days[f] == KeyOf(x);
    BeforeOrders(days, f, e);
    assert days[..d][f] == KeyOf(x);
  }

  /** The days before the first that is not concluded are concluded, and no later day is. */
  lemma DaysAround(check: Check, pending: seq<Item>, days: seq<EvidenceKey>, d: nat, e: nat)
    requires Ascending(days) && d < |days| && e < |days| && KeysOf(pending) == DaySet(days)
    requires forall x | x in pending && KeyOf(x) in DaySet(days[..d]) :: Conclusive(check, x)
    requires exists x :: x in pending && KeyOf(x) == days[d] && !Conclusive(check, x)
    ensures DayConcluded(check, pending, days[e]) <==> e < d
    ensures EarlierConcluded(check, pending, days[e]) <==> e <= d
    ensures days[e] in DaySet(days[..d]) <==> e < d
  {
    hide Conclusive, KeyOf;
    if e < d {
      assert days[..d][e] == days[e];
    } else {
      forall f | 0 <= f < d ensures days[f] != days[e] {
        assert Before(days[f], days[e]);
      }
    }
    if e <= d {
      forall x | x in pending && Before(KeyOf(x), days[e]) ensures Conclusive(check, x) {
        DayIndex(pending, days, x, e, d);
      }
    } else {
      assert Before(days[d], days[e]);
    }
  }

  /** Where a batch that stops in one of the sorted days has got to. */
  lemma StopsInDay(check: Check, pending: seq<Item>, days: seq<EvidenceKey>, d: nat)
    requires Ascending(days) && d < |days| && KeysOf(pending) == DaySet(days)
    requires forall x | x in pending && KeyOf(x) in DaySet(days[..d]) :: Conclusive(check, x)
    requires exists x :: x in pending && KeyOf(x) == days[d] && !Conclusive(check, x)
    ensures Finished(check, pending) == DaySet(days[..d])
    ensures KisReached(check, pending)
         == Covered(pending, DaySet(days[..d])) + Reached(check, WithKey(pending, days[d]))
  {
    hide Conclusive, KeyOf, Reached, Concluded, DayConcluded, EarlierConcluded;
    forall e | 0 <= e < |days|
      ensures DayConcluded(check, pending, days[e]) <==> e < d
      ensures EarlierConcluded(check, pending, days[e]) <==> e <= d
      ensures days[e] in DaySet(days[..d]) <==> e < d
    {
      DaysAround(check, pending, days, d, e);
    }
    ReachedAmong(check, WithKey(pending, days[d]));
    forall x | x in pending
      ensures x in KisReached(check, pending) <==>
                x in Covered(pending, DaySet(days[..d])) + Reached(check, WithKey(pending, days[d]))
    {
      assert KeyOf(x) in KeysOf(pending);
      var e :| 0 <= e < |days| && days[e] == KeyOf(x);
      if e < d {
        AllPassed(check, WithKey(pending, days[e]));
      }
    }
  }

  lemma ReachedAmong(check: Check, items: seq<Item>)
    ensures Reached(check, items) <= ItemSet(items)
  {
  }

  /** One completed or failed day read and the items it answers for. */
  method ResolveDay(store: Store.Store, items: seq<Item>, key: EvidenceKey, check: Check,
                    ghost a: Db, ghost done: set<Item>)
    returns (resolved: seq<Receipt>, unresolved: nat, readFailures: nat, ok: bool)
    requires Wrote(a, store.Contents(), check, false, done) && Snapshot(a, items) && Apart(done, items)
    requires forall i | 0 <= i < |items| :: KeyOf(items[i]) == key
    modifies store
    ensures ItemsJudged(a, store.Contents(), resolved, check, done, items)
    ensures |resolved| + unresolved == Stop(check, items)
    ensures readFailures == if ReadFor(check.readers, key).Unread? then 1 else 0
    ensures ok <==> AllConcluded(check, items)
  {
    var evidence := ReadFor(check.readers, key);
    if evidence.Unread? {
      NothingWritten(a, store.Contents(), check, done, items);
      ReportsNothing(a, check, ItemSet(items));
      AllPassed(check, items);
      return [], |items|, 1, true;
    }
    readFailures := 0;
    resolved, unresolved, ok := ResolveEvidence(store, items, evidence, check, a, done);
  }

  lemma AllConclusive(check: Check, pending: seq<Item>, key: EvidenceKey)
    requires forall i | 0 <= i < |WithKey(pending, key)| :: Conclusive(check, WithKey(pending, key)[i])
    ensures forall x | x in pending && KeyOf(x) == key :: Conclusive(check, x)
  {
    hide Conclusive, KeyOf;
    forall x | x in pending && KeyOf(x) == key ensures Conclusive(check, x) {
      assert x in WithKey(pending, key);
    }
  }

  /** The items of some days are judged and the others untouched. */
  ghost predicate DaysDone(a: Db, b: Db, resolved: seq<Receipt>, unresolved: nat, failures: nat, check: Check,
                           pending: seq<Item>, keys: set<EvidenceKey>) {
    && Wrote(a, b, check, false, Covered(pending, keys)) && Reports(resolved, a, check, Covered(pending, keys))
    && |resolved| + unresolved + |Rest(pending, keys)| == |pending|
    && failures == |UnreadAmong(check, keys)|
    && forall x | x in pending && KeyOf(x) in keys :: Conclusive(check, x)
  }

  function DaySet(days: seq<EvidenceKey>): set<EvidenceKey> {
    set k | k in days
  }

  lemma NoDayDone(a: Db, check: Check, pending: seq<Item>)
    ensures DaysDone(a, a, [], 0, 0, check, pending, {})
  {
    RestOfNone(pending);
    assert Covered(pending, {}) == {} && UnreadAmong(check, {}) == {};
    ReportsNothing(a, check, {});
  }

  lemma NextDay(a: Db, b: Db, resolved: seq<Receipt>, unresolved: nat, failures: nat, check: Check,
                pending: seq<Item>, days: seq<EvidenceKey>, d: nat)
    requires Snapshot(a, pending) && NoDuplicates(days) && d < |days|
    requires DaysDone(a, b, resolved, unresolved, failures, check, pending, DaySet(days[..d]))
    ensures days[d] !in days[..d] && DaySet(days[..d + 1]) == DaySet(days[..d]) + {days[d]}
    ensures var keys := DaySet(days[..d]); var items := WithKey(pending, days[d]);
            && Wrote(a, b, check, false, Covered(pending, keys)) && Snapshot(a, items)
            && Apart(Covered(pending, keys), items) && forall i | 0 <= i < |items| :: KeyOf(items[i]) == days[d]
  {
    hide Wrote, Reports, Snapshot, Covered, Apart, Rest, UnreadAmong, KeyOf, Conclusive;
    assert days[..d + 1] == days[..d] + [days[d]];
    WithKeySnapshot(a, pending, days[d]);
    CoveredApart(a, pending, DaySet(days[..d]), days[d]);
    var items := WithKey(pending, days[d]);
    assert forall i | 0 <= i < |items| :: items[i] in items;
  }

  predicate AllConcluded(check: Check, items: seq<Item>) {
    forall i | 0 <= i < |items| :: Conclusive(check, items[i])
  }

  /** What one more day makes of that: the day is done, or the batch stops in it and drops its receipts. */
  lemma DayAdds(a: Db, m: Db, b: Db, sofar: seq<Receipt>, unresolved: nat, failures: nat, more: seq<Receipt>, left: nat,
                dayFailures: nat, check: Check, pending: seq<Item>, days: seq<EvidenceKey>, d: nat)
    requires Snapshot(a, pending) && Ascending(days) && d < |days| && KeysOf(pending) == DaySet(days)
    requires var keys, items := DaySet(days[..d]), WithKey(pending, days[d]);
             && DaysDone(a, m, sofar, unresolved, failures, check, pending, keys) && days[d] !in keys
             && ItemsJudged(a, b, more, check, Covered(pending, keys), items)
             && |more| + left == Stop(check, items)
    requires dayFailures == if ReadFor(check.readers, days[d]).Unread? then 1 else 0
    ensures AllConcluded(check, WithKey(pending, days[d])) ==>
              DaysDone(a, b, sofar + more, unresolved + left, failures + dayFailures, check, pending,
                       DaySet(days[..d]) + {days[d]})
    ensures !AllConcluded(check, WithKey(pending, days[d])) ==>
              && DaysJudged(a, b, sofar, unresolved, check, pending)
              && failures == |UnreadAmong(check, Finished(check, pending))|
              && exists x :: x in pending && !Conclusive(check, x)
  {
    hide Wrote, Reports, Snapshot, Covered, Rest, UnreadAmong, ReadFor, Conclusive, KeyOf, Reached, Concluded, Stop,
         KisReached, Finished, DaySet, KeysOf, Ascending;
    var keys, items := DaySet(days[..d]), WithKey(pending, days[d]);
    if AllConcluded(check, items) {
      AllPassed(check, items);
      CoveredApart(a, pending, keys, days[d]);
      CoveredGrows(pending, keys, days[d]);
      RestShrinks(pending, keys, days[d]);
      UnreadOneMore(check, keys, days[d]);
      ReportsTogether(sofar, more, a, check, Covered(pending, keys), ItemSet(items));
      AllConclusive(check, pending, days[d]);
    } else {
      var i :| 0 <= i < |items| && !Conclusive(check, items[i]);
      assert items[i] in items;
      StopsInDay(check, pending, days, d);
    }
  }

  lemma AllDaysDone(a: Db, b: Db, resolved: seq<Receipt>, unresolved: nat, failures: nat, check: Check,
      pending: seq<Item>)
    requires DaysDone(a, b, resolved, unresolved, failures, check, pending, KeysOf(pending))
    ensures DaysJudged(a, b, resolved, unresolved, check, pending)
    ensures failures == |UnreadAmong(check, Finished(check, pending))|
    ensures forall x | x in pending :: Conclusive(check, x)
  {
    assert forall x | x in pending :: KeyOf(x) in KeysOf(pending);
    hide Wrote, Reports, UnreadAmong, Conclusive, Finished, KisReached;
    AllFinished(check, pending);
  }

  lemma AllCovered(pending: seq<Item>, keys: set<EvidenceKey>)
    requires forall x | x in pending :: KeyOf(x) in keys
    ensures Covered(pending, keys) == ItemSet(pending)
  {
  }

  /** The loop over the days, in the given order. */
  method ResolveDays(store: Store.Store, pending: seq<Item>, byDay: map<EvidenceKey, seq<Item>>,
                     days: seq<EvidenceKey>, check: Check, ghost a: Db)
    returns (resolved: seq<Receipt>, unresolved: nat, readFailures: nat, ok: bool)
    requires store.Contents() == a && Snapshot(a, pending) && NoDuplicates(days) && Ascending(days)
    requires forall d | 0 <= d < |days| :: days[d] in byDay && byDay[days[d]] == WithKey(pending, days[d])
    requires KeysOf(pending) == DaySet(days)
    modifies store
    ensures DaysJudged(a, store.Contents(), resolved, unresolved, check, pending)
    ensures readFailures == |UnreadAmong(check, Finished(check, pending))|
    ensures ok <==> forall x | x in pending :: Conclusive(check, x)
  {
    assert DaySet(days[..0]) == {} && days[..|days|] == days;
    hide *;
    resolved, unresolved, readFailures, ok := [], 0, 0, true;
    ghost var keys: set<EvidenceKey> := {};
    NoDayDone(a, check, pending);
    for d := 0 to |days|
      invariant ok && keys == DaySet(days[..d])
      invariant DaysDone(a, store.Contents(), resolved, unresolved, readFailures, check, pending, keys)
    {
      var key := days[d];
      NextDay(a, store.Contents(), resolved, unresolved, readFailures, check, pending, days, d);
      ghost var m := store.Contents();
      var more, left, failures, fine := ResolveDay(store, byDay[key], key, check, a, Covered(pending, keys));
      DayAdds(a, m, store.Contents(), resolved, unresolved, readFailures, more, left, failures, check, pending, days,
              d);
      if !fine {
        ok := false;
        return;
      }
      resolved, unresolved, readFailures := resolved + more, unresolved + left, readFailures + failures;
      keys := keys + {key};
    }
    AllDaysDone(a, store.Contents(), resolved, unresolved, readFailures, check, pending);
  }

  lemma CoveredGrows(pending: seq<Item>, keys: set<EvidenceKey>, key: EvidenceKey)
    ensures Covered(pending, keys) + ItemSet(WithKey(pending, key)) == Covered(pending, keys + {key})
  {
  }

  lemma KeysAreGroups(pending: seq<Item>, days: seq<EvidenceKey>)
    requires forall k :: k in days <==> WithKey(pending, k) != []
    ensures KeysOf(pending) == DaySet(days)
  {
    forall x | x in pending ensures KeyOf(x) in days {
      assert x in WithKey(pending, KeyOf(x));
    }
    forall k | k in days ensures k in KeysOf(pending) {
      assert WithKey(pending, k)[0] in WithKey(pending, k);
    }
  }

  lemma NothingJudged(a: Db, check: Check, pending: seq<Item>)
    requires forall x | x in pending :: Verdict(check, false, x) == Leave
    ensures DaysJudged(a, a, [], |pending|, check, pending)
  {
    hide KisReached, Finished, Rest, Covered, Verdict;
    AllFinished(check, pending);
    NothingWritten(a, a, check, {}, pending);
    ReportsNothing(a, check, ItemSet(pending));
    assert {} + ItemSet(pending) == ItemSet(pending);
  }

  /** A row that was stored is reported if and only if its whole day was concluded: a batch that stops
      in a day drops the receipts of the rows it stored in that day before. */
  lemma ReportedIffDayConcluded(a: Db, b: Db, resolved: seq<Receipt>, unresolved: nat, check: Check,
      pending: seq<Item>, x: Item)
    requires DaysJudged(a, b, resolved, unresolved, check, pending) && Snapshot(a, pending)
    requires x in KisReached(check, pending) && Stored(check, false, x)
    ensures x.id in b.resolutions && b.resolutions[x.id] == RowOf(check, false, x)
    ensures (exists r :: r in resolved && r.id == x.id) <==> DayConcluded(check, pending, KeyOf(x))
  {
    hide Wrote, Reports, Stored, DayConcluded, EarlierConcluded, Reached, KeyOf, Rest, PendingItem;
    RowStands(a, b, check, KisReached(check, pending), x);
    forall y | y in Covered(pending, Finished(check, pending)) && y.id == x.id ensures y == x {
      assert y in pending && x in pending;
    }
    ReportedIff(resolved, a, check, Covered(pending, Finished(check, pending)), x);
  }

  lemma RowStands(a: Db, b: Db, check: Check, items: set<Item>, x: Item)
    requires Wrote(a, b, check, false, items) && x in items && Stored(check, false, x)
    ensures x.id in b.resolutions && b.resolutions[x.id] == RowOf(check, false, x)
  {
  }

  lemma ReportedIff(resolved: seq<Receipt>, a: Db, check: Check, items: set<Item>, x: Item)
    requires Reports(resolved, a, check, items) && Stored(check, false, x) && x.id in a.commands
    requires forall y | y in items && y.id == x.id :: y == x
    ensures (exists r :: r in resolved && r.id == x.id) <==> x in items
  {
    hide Verdict, RowFor;
    var r := ReceiptOf(a, check, x).value;
    if x in items {
      assert r in resolved && r.id == x.id;
    }
    if p :| p in resolved && p.id == x.id {
      var y :| y in items && ReceiptOf(a, check, y) == Some(p);
      assert y.id == x.id;
    }
  }

  /** resolveKIS: one read per scope and day, groups in sorted order. */
  method ResolveKIS(store: Store.Store, pending: seq<Item>, check: Check, ghost a: Db)
    returns (resolved: seq<Receipt>, unresolved: nat, readFailures: nat, ok: bool)
    requires store.Contents() == a && Snapshot(a, pending)
    requires forall x | x in pending :: x.scope in KIS_SCOPES
    modifies store
    ensures DaysJudged(a, store.Contents(), resolved, unresolved, check, pending)
    ensures readFailures == KisFailures(check, pending)
    ensures ok <==> forall x | x in pending :: Conclusive(check, x)
  {
    resolved, unresolved, readFailures, ok := [], 0, 0, true;
    if pending == [] {
      NothingJudged(a, check, pending);
      return;
    }
    if check.readers.kis.None? {
      NoReaderLeaves(check, pending);
      NothingJudged(a, check, pending);
      return [], |pending|, 1, true;
    }
    var byDay := GroupByDay(pending);
    forall key | key in byDay.Keys ensures IsDay(key) {
      assert WithKey(pending, key)[0] in WithKey(pending, key);
    }
    var days := SortDays(byDay.Keys);
    KeysAreGroups(pending, days);
    resolved, unresolved, readFailures, ok := ResolveDays(store, pending, byDay, days, check, a);
  }

  lemma CoveredApart(db: Db, pending: seq<Item>, keys: set<EvidenceKey>, key: EvidenceKey)
    requires Snapshot(db, pending) && key !in keys
    ensures Apart(Covered(pending, keys), WithKey(pending, key))
  {
    forall x, y | x in Covered(pending, keys) && y in WithKey(pending, key) ensures x.id != y.id {
      assert x in pending && y in pending && KeyOf(x) != KeyOf(y);
    }
  }

  predicate FailedLookup(check: Check, x: Item) {
    var evidence := ReadFor(check.readers, KeyOf(x));
    evidence.Unread? || evidence == ClientOrder(true, "")
  }

  /** How many lookups fail among the first items. */
  function FailedLookups(check: Check, items: seq<Item>, n: nat): nat
    requires n <= |items|
  {
    if n == 0 then 0 else FailedLookups(check, items, n - 1) + if FailedLookup(check, items[n - 1]) then 1 else 0
  }

  /** One failure without a reader, and otherwise one for each lookup that fails or finds an order
      without an id, up to where the run stops. */
  function AlpacaFailures(check: Check, pending: seq<Item>): nat {
    if Mapped(pending) == [] then 0
    else if check.readers.alpaca.None? then 1
    else FailedLookups(check, Mapped(pending), Stop(check, Mapped(pending)))
  }

  /** The items accounted for: those that cannot be looked up, and those looked up before the stop. */
  function AlpacaCounted(check: Check, pending: seq<Item>): nat {
    |pending| - |Mapped(pending)| + Stop(check, Mapped(pending))
  }

  /** One read by the client order id. */
  method LookUp(readers: Readers, x: Item) returns (evidence: Evidence)
    requires x.scope == AlpacaPaperCrypto
    ensures evidence == ReadFor(readers, KeyOf(x))
  {
    evidence := ReadFor(readers, ClientKey(x.clientOrderId));
  }

  /** A failed lookup leaves its item, and is what the loop counts when it leaves one. */
  lemma FailureCounted(check: Check, items: seq<Item>, i: nat)
    requires i < |items| && items[i].scope == AlpacaPaperCrypto && ClientMapped(items[i])
    ensures FailedLookups(check, items, i + 1)
            == FailedLookups(check, items, i) + if FailedLookup(check, items[i]) then 1 else 0
    ensures var evidence := ReadFor(check.readers, KeyOf(items[i]));
            FailedLookup(check, items[i]) <==>
              Verdict(check, false, items[i]) == Leave
              && (evidence.Unread? || (evidence.ClientOrder? && evidence.found))
    ensures FailedLookup(check, items[i]) ==> Conclusive(check, items[i])
  {
  }

  /** Every item before the stop is accounted for, and so is every lookup that failed there. */
  predicate MappedCounted(check: Check, items: seq<Item>, count: nat, failures: nat) {
    count == Stop(check, items) && failures == FailedLookups(check, items, count)
  }

  /** The first items of the list are looked up, judged and counted. */
  ghost predicate LookedUp(a: Db, b: Db, resolved: seq<Receipt>, unresolved: nat, failures: nat, check: Check,
                           done: set<Item>, items: seq<Item>, i: nat)
    requires i <= |items|
  {
    ItemsDone(a, b, resolved, unresolved, check, done, items, i) && failures == FailedLookups(check, items, i)
  }

  lemma NoneLookedUp(a: Db, b: Db, check: Check, done: set<Item>, items: seq<Item>)
    requires Wrote(a, b, check, false, done)
    ensures LookedUp(a, b, [], 0, 0, check, done, items, 0)
  {
    hide Wrote, ItemsDone;
    NoneDone(a, b, check, done, items);
  }

  lemma NextLookUp(a: Db, b: Db, resolved: seq<Receipt>, unresolved: nat, failures: nat, check: Check,
                   done: set<Item>, items: seq<Item>, i: nat)
    requires Snapshot(a, items) && Apart(done, items) && i < |items|
    requires LookedUp(a, b, resolved, unresolved, failures, check, done, items, i)
    ensures Wrote(a, b, check, false, done + ItemSet(items[..i]))
    ensures Unresolved(a, items[i].id) && items[i] == PendingItem(a, items[i].id)
    ensures forall y | y in done + ItemSet(items[..i]) :: y.id != items[i].id
  {
    hide Wrote, ItemsDone, Snapshot, Apart, Unresolved, PendingItem, FailedLookups;
    NextItem(a, b, resolved, unresolved, check, done, items, i);
  }

  /** What one more lookup, left, written or refused, makes of that. */
  lemma LookUpAdds(a: Db, m: Db, b: Db, resolved: seq<Receipt>, unresolved: nat, failures0: nat, check: Check,
                   done: set<Item>, items: seq<Item>, i: nat, receipt: Option<Receipt>, left: bool, failures: nat)
    requires Snapshot(a, items) && i < |items|
    requires items[i].scope == AlpacaPaperCrypto && ClientMapped(items[i])
    requires LookedUp(a, m, resolved, unresolved, failures0, check, done, items, i)
    requires Wrote(a, b, check, false, done + ItemSet(items[..i]) + {items[i]})
    requires receipt == ReceiptOf(a, check, items[i]) && (left ==> receipt.None?)
    requires left || receipt.Some? <==> Conclusive(check, items[i])
    requires left <==> Verdict(check, false, items[i]) == Leave
    requires var evidence := ReadFor(check.readers, KeyOf(items[i]));
             failures == failures0
                         + if left && (evidence.Unread? || (evidence.ClientOrder? && evidence.found)) then 1 else 0
    ensures Conclusive(check, items[i]) ==>
              LookedUp(a, b, if receipt.Some? then resolved + [receipt.value] else resolved,
                       if left then unresolved + 1 else unresolved, failures, check, done, items, i + 1)
    ensures !Conclusive(check, items[i]) ==>
              ItemsJudged(a, b, resolved, check, done, items)
              && MappedCounted(check, items, |resolved| + unresolved, failures)
  {
    hide Wrote, Reports, ItemsDone, ItemsJudged, Snapshot, ReceiptOf, Conclusive, Verdict, ReadFor, KeyOf, ClientMapped,
         FailedLookups, Stop;
    ItemAdds(a, m, b, resolved, unresolved, check, done, items, i, receipt, left);
    FailureCounted(check, items, i);
  }

  /** The lookup and the judgement of the next item, counting failed lookups. */
  method ResolveNext(store: Store.Store, items: seq<Item>, i: nat, check: Check, ghost a: Db, ghost done: set<Item>,
                     failures0: nat, ghost resolved: seq<Receipt>, ghost unresolved: nat)
    returns (receipt: Option<Receipt>, left: bool, failures: nat)
    requires Snapshot(a, items) && Apart(done, items) && i < |items|
    requires items[i].scope == AlpacaPaperCrypto && ClientMapped(items[i])
    requires LookedUp(a, store.Contents(), resolved, unresolved, failures0, check, done, items, i)
    modifies store
    ensures left ==> receipt.None?
    ensures left || receipt.Some? <==> Conclusive(check, items[i])
    ensures Conclusive(check, items[i]) ==>
              LookedUp(a, store.Contents(), if receipt.Some? then resolved + [receipt.value] else resolved,
                       if left then unresolved + 1 else unresolved, failures, check, done, items, i + 1)
    ensures !Conclusive(check, items[i]) ==>
              && ItemsJudged(a, store.Contents(), resolved, check, done, items)
              && MappedCounted(check, items, |resolved| + unresolved, failures)
  {
    hide *;
    hide ClientMapped, KeyOf;
    NextLookUp(a, store.Contents(), resolved, unresolved, failures0, check, done, items, i);
    ghost var m := store.Contents();
    var evidence := LookUp(check.readers, items[i]);
    receipt, left := ResolveItem(store, items[i], evidence, check, a, done + ItemSet(items[..i]));
    failures := failures0;
    if left && (evidence.Unread? || (evidence.ClientOrder? && evidence.found)) {
      failures := failures + 1;
    }
    LookUpAdds(a, m, store.Contents(), resolved, unresolved, failures0, check, done, items, i, receipt, left, failures);
  }

  lemma AllLookedUp(a: Db, b: Db, resolved: seq<Receipt>, unresolved: nat, failures: nat, check: Check,
                    done: set<Item>, items: seq<Item>)
    requires LookedUp(a, b, resolved, unresolved, failures, check, done, items, |items|)
    ensures ItemsJudged(a, b, resolved, check, done, items)
    ensures MappedCounted(check, items, |resolved| + unresolved, failures)
    ensures forall i | 0 <= i < |items| :: Conclusive(check, items[i])
  {
    hide Wrote, Reports, Conclusive, ItemsJudged, ItemsDone, FailedLookups;
    AllDone(a, b, resolved, unresolved, check, done, items);
  }

  /** The Alpaca loop over the items whose client order id is known to have been sent. */
  method ResolveMapped(store: Store.Store, items: seq<Item>, check: Check, ghost a: Db, ghost done: set<Item>)
    returns (resolved: seq<Receipt>, unresolved: nat, readFailures: nat, ok: bool)
    requires Wrote(a, store.Contents(), check, false, done) && Snapshot(a, items) && Apart(done, items)
    requires forall i | 0 <= i < |items| :: items[i].scope == AlpacaPaperCrypto && ClientMapped(items[i])
    modifies store
    ensures ItemsJudged(a, store.Contents(), resolved, check, done, items)
    ensures MappedCounted(check, items, |resolved| + unresolved, readFailures)
    ensures ok <==> forall i | 0 <= i < |items| :: Conclusive(check, items[i])
  {
    hide *;
    hide ClientMapped, KeyOf, Judge, Effective, Unresolved, PendingItem, AppendResolution, ValidResolution, RowFor;
    resolved, unresolved, readFailures, ok := [], 0, 0, true;
    NoneLookedUp(a, store.Contents(), check, done, items);
    for i := 0 to |items|
      invariant ok && LookedUp(a, store.Contents(), resolved, unresolved, readFailures, check, done, items, i)
    {
      var receipt: Option<Receipt>, left: bool;
      receipt, left, readFailures := ResolveNext(store, items, i, check, a, done, readFailures, resolved, unresolved);
      if left {
        unresolved := unresolved + 1;
      } else if receipt.Some? {
        resolved := resolved + [receipt.value];
      } else {
        ok := false;
        return;
      }
    }
    AllLookedUp(a, store.Contents(), resolved, unresolved, readFailures, check, done, items);
  }

  function Mapped(items: seq<Item>): (r: seq<Item>)
    ensures |r| <= |items|
    ensures forall x :: x in r <==> x in items && ClientMapped(x)
  {
    if items == [] then []
    else if ClientMapped(items[|items| - 1]) then Mapped(items[..|items| - 1]) + [items[|items| - 1]]
    else Mapped(items[..|items| - 1])
  }

  lemma {:induction false} MappedSnapshot(db: Db, items: seq<Item>)
    requires Snapshot(db, items)
    ensures Snapshot(db, Mapped(items))
  {
    if items != [] {
      MappedSnapshot(db, items[..|items| - 1]);
    }
  }

  /** Items that cannot be looked up, and items without a reader, are left as they are. */
  lemma UnmappedLeft(check: Check, items: seq<Item>)
    requires forall x | x in items :: x.scope == AlpacaPaperCrypto
    ensures forall x | x in items && (!ClientMapped(x) || check.readers.alpaca.None?) ::
              Verdict(check, false, x) == Leave
  {
  }

  lemma WroteAlso(a: Db, b: Db, check: Check, small: set<Item>, large: set<Item>)
    requires Wrote(a, b, check, false, small) && small <= large
    requires forall x | x in large && x !in small :: Verdict(check, false, x) == Leave
    ensures Wrote(a, b, check, false, large)
  {
  }

  lemma ReportsAlso(resolved: seq<Receipt>, a: Db, check: Check, small: set<Item>, large: set<Item>)
    requires Reports(resolved, a, check, small) && small <= large
    requires forall x | x in large && x !in small :: Verdict(check, false, x) == Leave
    ensures Reports(resolved, a, check, large)
  {
    hide RowOf;
    forall r ensures r in resolved <==> exists x :: x in large && ReceiptOf(a, check, x) == Some(r) {
      if r in resolved {
        var x :| x in small && ReceiptOf(a, check, x) == Some(r);
        assert x in large;
      }
    }
  }

  /** Leaving the items that cannot be looked up aside does not move the stop. */
  lemma {:induction false} MappedReached(check: Check, pending: seq<Item>)
    requires forall x | x in pending && !ClientMapped(x) :: Conclusive(check, x)
    ensures Stop(check, pending) == |pending| <==> Stop(check, Mapped(pending)) == |Mapped(pending)|
    ensures forall x :: x in Reached(check, Mapped(pending)) <==> x in Reached(check, pending) && ClientMapped(x)
    ensures forall x :: x in Concluded(check, Mapped(pending)) <==> x in Concluded(check, pending) && ClientMapped(x)
  {
    hide Conclusive, ClientMapped, Stop;
    if pending != [] {
      var front, last := pending[..|pending| - 1], pending[|pending| - 1];
      MappedReached(check, front);
      OneMoreReached(check, front, last);
      assert pending == front + [last];
      if ClientMapped(last) {
        OneMoreReached(check, Mapped(front), last);
      }
    }
  }

  lemma OneMoreReached(check: Check, items: seq<Item>, x: Item)
    ensures var whole := Stop(check, items) == |items|;
            && (Stop(check, items + [x]) == |items| + 1 <==> whole && Conclusive(check, x))
            && Reached(check, items + [x]) == Reached(check, items) + (if whole then {x} else {})
            && Concluded(check, items + [x])
               == Concluded(check, items) + (if whole && Conclusive(check, x) then {x} else {})
  {
    hide Conclusive;
    var s, more := Stop(check, items), items + [x];
    assert more[..|items|] == items;
    if s < |items| {
      StopsAt(check, items, s);
      StopsAt(check, more, s);
      assert more[..s] == items[..s];
    } else {
      AllPassed(check, items);
      if Conclusive(check, x) {
        AllPassed(check, more);
        hide Stop, Reached, Concluded;
        assert ItemSet(more) == ItemSet(items) + {x};
      } else {
        StopsAt(check, more, s);
        hide Stop, Reached, Concluded;
        assert more[s] == x;
      }
    }
  }

  /** The items left aside have no rows and no receipts. */
  lemma MappedJudged(a: Db, b: Db, resolved: seq<Receipt>, check: Check, done: set<Item>, pending: seq<Item>)
    requires forall x | x in pending && !ClientMapped(x) :: Verdict(check, false, x) == Leave
    requires ItemsJudged(a, b, resolved, check, done, Mapped(pending))
    ensures ItemsJudged(a, b, resolved, check, done, pending)
  {
    hide Verdict, ClientMapped, Reached, Concluded, Wrote, Reports;
    MappedReached(check, pending);
    ReachedWithin(check, pending);
    WroteAlso(a, b, check, done + Reached(check, Mapped(pending)), done + Reached(check, pending));
    ReportsAlso(resolved, a, check, Concluded(check, Mapped(pending)), Concluded(check, pending));
  }

  lemma ReachedWithin(check: Check, items: seq<Item>)
    ensures Concluded(check, items) <= Reached(check, items) <= ItemSet(items)
  {
  }

  lemma NothingLookedUp(a: Db, b: Db, check: Check, done: set<Item>, pending: seq<Item>)
    requires Wrote(a, b, check, false, done) && forall x | x in pending :: Verdict(check, false, x) == Leave
    ensures ItemsJudged(a, b, [], check, done, pending) && AlpacaCounted(check, pending) == |pending|
    ensures Mapped(pending) != [] && check.readers.alpaca.None? ==> AlpacaFailures(check, pending) == 1
  {
    hide Verdict, Wrote, Reports, Mapped;
    AllPassed(check, pending);
    AllPassed(check, Mapped(pending));
    NothingWritten(a, b, check, done, pending);
    ReportsNothing(a, check, ItemSet(pending));
  }

  lemma MappedAccounts(check: Check, pending: seq<Item>, count: nat, failures: nat)
    requires MappedCounted(check, Mapped(pending), count, failures)
    requires Mapped(pending) == [] || check.readers.alpaca.Some?
    ensures failures == AlpacaFailures(check, pending)
    ensures |pending| - |Mapped(pending)| + count == AlpacaCounted(check, pending)
  {
    hide Mapped, Conclusive;
  }

  method ResolveAlpaca(store: Store.Store, pending: seq<Item>, check: Check, ghost a: Db, ghost done: set<Item>)
    returns (resolved: seq<Receipt>, unresolved: nat, readFailures: nat, ok: bool)
    requires Wrote(a, store.Contents(), check, false, done) && Snapshot(a, pending) && Apart(done, pending)
    requires forall x | x in pending :: x.scope == AlpacaPaperCrypto
    modifies store
    ensures ItemsJudged(a, store.Contents(), resolved, check, done, pending)
    ensures |resolved| + unresolved == AlpacaCounted(check, pending)
    ensures readFailures == AlpacaFailures(check, pending)
    ensures ok <==> forall x | x in pending :: Conclusive(check, x)
  {
    hide Reports, ItemsJudged, AlpacaFailures, AlpacaCounted, MappedCounted, Verdict, Wrote, ClientMapped, Snapshot,
         Stored;
    UnmappedLeft(check, pending);
    var items: seq<Item> := [];
    unresolved := 0;
    for i := 0 to |pending|
      invariant items == Mapped(pending[..i]) && unresolved + |items| == i
    {
      assert pending[..i + 1][..i] == pending[..i];
      if ClientMapped(pending[i]) {
        items := items + [pending[i]];
      } else {
        unresolved := unresolved + 1;
      }
    }
    assert pending[..|pending|] == pending;
    MappedSnapshot(a, pending);
    if items != [] && check.readers.alpaca.None? {
      NothingLookedUp(a, store.Contents(), check, done, pending);
      return [], |pending|, 1, true;
    }
    var left: nat;
    resolved, left, readFailures, ok := ResolveMapped(store, items, check, a, done);
    MappedAccounts(check, pending, |resolved| + left, readFailures);
    unresolved := unresolved + left;
    MappedJudged(a, store.Contents(), resolved, check, done, pending);
    if exists x :: x in pending && !Conclusive(check, x) {
      var x :| x in pending && !Conclusive(check, x);
      assert x in items;
    }
  }

  /** Every command the batch looks at. */
  function AllPending(db: Db): seq<Item> {
    PendingKis(db) + PendingAlpaca(db)
  }

  function PendingKis(db: Db): seq<Item> {
    PendingAmong(db, KIS_SCOPES, db.order)
  }

  function PendingAlpaca(db: Db): seq<Item> {
    PendingAmong(db, ALPACA_SCOPES, db.order)
  }

  lemma {:induction false} PendingSnapshot(db: Db, scopes: set<Scope>, order: seq<Id>)
    requires NoDuplicates(order)
    ensures Snapshot(db, PendingAmong(db, scopes, order))
  {
    if order != [] {
      assert NoDuplicates(order[1..]) && order[0] !in order[1..];
      PendingSnapshot(db, scopes, order[1..]);
      forall x | x in PendingAmong(db, scopes, order[1..]) ensures x.id != order[0] {
      }
    }
  }

  ghost predicate KisConcluded(check: Check, db: Db) {
    forall x | x in PendingKis(db) :: Conclusive(check, x)
  }

  /** The commands a batch gets to: the Alpaca ones only after all others were concluded. */
  ghost function BatchReached(check: Check, db: Db): set<Item> {
    KisReached(check, PendingKis(db)) + if KisConcluded(check, db) then Reached(check, PendingAlpaca(db)) else {}
  }

  /** The commands whose receipts it returns: those of the finished days, and every Alpaca one it got past. */
  ghost function BatchReported(check: Check, db: Db): set<Item> {
    Covered(PendingKis(db), Finished(check, PendingKis(db)))
    + if KisConcluded(check, db) then Concluded(check, PendingAlpaca(db)) else {}
  }

  /** The commands it accounts for, as resolved or as unresolved. */
  ghost function BatchCounted(check: Check, db: Db): int {
    |PendingKis(db)| - |Rest(PendingKis(db), Finished(check, PendingKis(db)))|
    + if KisConcluded(check, db) then AlpacaCounted(check, PendingAlpaca(db)) else 0
  }

  ghost function BatchFailures(check: Check, db: Db): nat {
    KisFailures(check, PendingKis(db)) + if KisConcluded(check, db) then AlpacaFailures(check, PendingAlpaca(db)) else 0
  }

  /** A batch that is not stopped gets to every pending command, reports on all and counts all. */
  lemma WholeBatch(check: Check, db: Db)
    requires forall x | x in AllPending(db) :: Conclusive(check, x)
    ensures BatchReached(check, db) == BatchReported(check, db) == ItemSet(AllPending(db))
    ensures BatchCounted(check, db) == |AllPending(db)|
  {
    hide Conclusive, KisReached, Finished, Covered, Reached, Concluded, Stop, Rest, PendingKis, PendingAlpaca, Mapped;
    forall x | x in PendingKis(db) || x in PendingAlpaca(db) ensures Conclusive(check, x) {
      assert x in AllPending(db);
    }
    AllFinished(check, PendingKis(db));
    AllPassed(check, PendingAlpaca(db));
    AllPassed(check, Mapped(PendingAlpaca(db)));
    assert ItemSet(AllPending(db)) == ItemSet(PendingKis(db)) + ItemSet(PendingAlpaca(db));
  }

  lemma ApartScopes(db: Db)
    ensures Apart(ItemSet(PendingKis(db)), PendingAlpaca(db))
  {
    forall x, y | x in ItemSet(PendingKis(db)) && y in PendingAlpaca(db) ensures x.id != y.id {
      assert x == PendingItem(db, x.id) && y == PendingItem(db, y.id);
    }
  }

  /** Resolve: both snapshots first, then the KIS days, then the Alpaca items. */
  method Resolve(store: Store.Store, check: Check)
    returns (resolved: seq<Receipt>, unresolved: nat, readFailures: nat, ok: bool)
    requires OrderOk(store.Contents())
    modifies store
    ensures Wrote(old(store.Contents()), store.Contents(), check, false, BatchReached(check, old(store.Contents())))
    ensures Reports(resolved, old(store.Contents()), check, BatchReported(check, old(store.Contents())))
    ensures |resolved| + unresolved == BatchCounted(check, old(store.Contents()))
    ensures readFailures == BatchFailures(check, old(store.Contents()))
    ensures ok <==> forall x | x in AllPending(old(store.Contents())) :: Conclusive(check, x)
  {
    hide Reports, KisFailures, AlpacaFailures, AlpacaCounted, KisReached, Finished, Covered, Rest, Reached, Concluded,
         Verdict, Wrote, Conclusive;
    ghost var a := store.Contents();
    var kis := store.PendingResolutions(KIS_SCOPES);
    var alpaca := store.PendingResolutions(ALPACA_SCOPES);
    PendingSnapshot(a, KIS_SCOPES, a.order);
    PendingSnapshot(a, ALPACA_SCOPES, a.order);
    resolved, unresolved, readFailures, ok := ResolveKIS(store, kis, check, a);
    assert forall x :: x in AllPending(a) <==> x in kis || x in alpaca;
    if !ok {
      assert KisReached(check, kis) + {} == KisReached(check, kis);
      assert Covered(kis, Finished(check, kis)) + {} == Covered(kis, Finished(check, kis));
      return;
    }
    AllFinished(check, kis);
    ApartScopes(a);
    var more, left, failures, fine := ResolveAlpaca(store, alpaca, check, a, ItemSet(kis));
    ReachedWithin(check, alpaca);
    ReportsTogether(resolved, more, a, check, ItemSet(kis), Concluded(check, alpaca));
    resolved, unresolved, readFailures, ok := resolved + more, unresolved + left, readFailures + failures, fine;
  }

  // ----- the batch is every single check -----

  /** The two callers judge an item alike except on one answer: an order found without an id,
      after the grace, which only the single check takes for absence. */
  lemma VerdictsPart(check: Check, x: Item)
    ensures Verdict(check, true, x) == Verdict(check, false, x)
       <==> !(x.scope == AlpacaPaperCrypto && ClientMapped(x) && GraceOver(x, check.now, check.grace)
              && ReadFor(check.readers, KeyOf(x)) == ClientOrder(true, ""))
  {
  }

  /** Readers that never report an order without an id, as every shipped reader guarantees. */
  ghost predicate WellBehaved(readers: Readers) {
    forall key :: match ReadFor(readers, key)
      case Unread => true
      case DayOrders(orders) => forall i | 0 <= i < |orders| :: orders[i].brokerOrderId != ""
      case ClientOrder(found, oid) => found ==> oid != ""
  }

  /** ResolveOne called on each of the given commands, one after the other; `states` are the
      tables in between. */
  ghost predicate SingleChecks(states: seq<Db>, check: Check, ids: seq<Id>) {
    && |states| == |ids| + 1
    && (forall i | 0 <= i < |ids| :: SingleCheck(states[i], states[i + 1], check, ids[i]))
  }

  ghost function ItemsOf(db: Db, ids: seq<Id>): set<Item> {
    set i | 0 <= i < |ids| && ids[i] in db.commands :: PendingItem(db, ids[i])
  }

  lemma WellBehavedConcludes(check: Check, x: Item)
    requires WellBehaved(check.readers) && ValidCommandId(x.id) && check.write(x.id) == Fine
    ensures Conclusive(check, x) && Verdict(check, true, x) == Verdict(check, false, x)
  {
    var e := ReadFor(check.readers, KeyOf(x));
    if e.DayOrders? && JudgeDay(x, e.orders, check.now, check.grace, check.window).Accept? {
      var o := AcceptanceHasOrder(x, e.orders, check.now, check.grace, check.window);
      assert o in e.orders;
    }
  }

  /** A single check on tables that already carry other items' rows adds its own item's row. */
  lemma OneCheckMore(a: Db, m: Db, b: Db, check: Check, done: set<Item>, id: Id)
    requires Wrote(a, m, check, true, done) && Unresolved(a, id) && ValidCommandId(id)
    requires forall y | y in done :: y.id != id
    requires SingleCheck(m, b, check, id)
    ensures Wrote(a, b, check, true, done + {PendingItem(a, id)})
  {
    hide Verdict, Writes, Judge;
    var x := PendingItem(a, id);
    WroteOneMore(a, m, check, true, done, x);
    assert PendingItem(m, id) == x;
    assert Wrote(m, m, check, true, {});
    WroteOneMore(m, m, check, true, {}, x);
    assert {} + {x} == {x};
    WroteDetermines(m, b, if Writes(check, true, x) then AppendResolution(m, x.id, RowOf(check, true, x)) else m,
                    check, true, {x});
  }

  lemma ItemsOfOneMore(a: Db, ids: seq<Id>, k: nat)
    requires k < |ids| && NoDuplicates(ids) && ids[k] in a.commands
    ensures ItemsOf(a, ids[..k + 1]) == ItemsOf(a, ids[..k]) + {PendingItem(a, ids[k])}
    ensures forall y | y in ItemsOf(a, ids[..k]) :: y.id != ids[k]
  {
    assert ids[..k + 1] == ids[..k] + [ids[k]];
  }

  lemma NothingYet(a: Db, check: Check)
    ensures Wrote(a, a, check, true, {})
  {
  }

  lemma {:induction false} SingleChecksWrite(states: seq<Db>, check: Check, ids: seq<Id>, k: nat)
    requires SingleChecks(states, check, ids) && NoDuplicates(ids) && k <= |ids|
    requires forall i | 0 <= i < |ids| :: ValidCommandId(ids[i]) && Unresolved(states[0], ids[i])
    ensures Wrote(states[0], states[k], check, true, ItemsOf(states[0], ids[..k]))
  {
    hide Wrote, SingleCheck, PendingItem, ValidCommandId;
    var a := states[0];
    if k == 0 {
      NothingYet(a, check);
      assert ItemsOf(a, ids[..0]) == {};
    } else {
      SingleChecksWrite(states, check, ids, k - 1);
      ItemsOfOneMore(a, ids, k - 1);
      assert SingleCheck(states[k - 1], states[k - 1 + 1], check, ids[k - 1]);
      OneCheckMore(a, states[k - 1], states[k], check, ItemsOf(a, ids[..k - 1]), ids[k - 1]);
    }
  }

  lemma SameVerdictsSameRows(a: Db, b: Db, check: Check, items: set<Item>)
    requires Wrote(a, b, check, true, items)
    requires forall x | x in items :: Verdict(check, true, x) == Verdict(check, false, x)
    ensures Wrote(a, b, check, false, items)
  {
    forall id | id in b.resolutions && id !in a.resolutions
      ensures exists x :: x in items && x.id == id && Writes(check, false, x)
    {
      var x :| x in items && x.id == id && Writes(check, true, x);
      assert Writes(check, false, x);
    }
  }

  /** With well-behaved readers, statements that do not err, one clock and the same settings, a batch
      leaves exactly the tables that single checks of the pending commands leave, in whatever order
      the commands are checked and however the batch groups them; and the batch succeeds. */
  lemma BatchIsEverySingleCheck(b: Db, states: seq<Db>, check: Check, ids: seq<Id>)
    requires SingleChecks(states, check, ids) && NoDuplicates(ids)
    requires DbOk(states[0]) && OrderOk(states[0]) && WellBehaved(check.readers)
    requires forall id :: id in ids <==> Listed(states[0], KIS_SCOPES + ALPACA_SCOPES, id)
    requires forall id | id in ids :: check.write(id) == Fine
    requires Wrote(states[0], b, check, false, BatchReached(check, states[0]))
    ensures b == states[|ids|]
    ensures forall x | x in AllPending(states[0]) :: Conclusive(check, x)
  {
    var a := states[0];
    forall i | 0 <= i < |ids| ensures ValidCommandId(ids[i]) && Unresolved(a, ids[i]) {
      assert ids[i] in ids && RowOk(a, ids[i]);
    }
    forall x | x in AllPending(a) ensures Conclusive(check, x) && Verdict(check, true, x) == Verdict(check, false, x) {
      assert RowOk(a, x.id) && x.id in ids;
      WellBehavedConcludes(check, x);
    }
    WholeBatch(check, a);
    ListingIsPending(a, ids);
    SingleChecksWrite(states, check, ids, |ids|);
    assert ids[..|ids|] == ids;
    SameVerdictsSameRows(a, states[|ids|], check, ItemSet(AllPending(a)));
    WroteDetermines(a, b, states[|ids|], check, false, ItemSet(AllPending(a)));
  }

  lemma ListingIsPending(a: Db, ids: seq<Id>)
    requires OrderOk(a) && forall id :: id in ids <==> Listed(a, KIS_SCOPES + ALPACA_SCOPES, id)
    ensures ItemsOf(a, ids) == ItemSet(AllPending(a))
  {
    forall x | x in ItemsOf(a, ids) ensures x in AllPending(a) {
      var i :| 0 <= i < |ids| && ids[i] in a.commands && x == PendingItem(a, ids[i]);
      assert ids[i] in ids && x.id in a.order;
    }
    forall x | x in AllPending(a) ensures x in ItemsOf(a, ids) {
      assert Listed(a, KIS_SCOPES + ALPACA_SCOPES, x.id);
      var i :| 0 <= i < |ids| && ids[i] == x.id;
    }
  }
}
