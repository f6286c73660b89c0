/**
 * The four tables the placement edge shares between processes, and the effect of each SQL
 * statement on them. A statement is atomic; nothing larger is. An empty string stands for
 * SQL NULL, which the statements write through NULLIF.
 */
module Tables {
  import opened Contracts

  datatype Phase = Pending | Final

  datatype CommandRow = CommandRow(
    disposition: Disposition, brokerOrderId: string, errorCode: string, recordedAt: Time,
    phase: Phase, scope: Scope, orgNo: string)

  /** A command_contexts row: the immutable facts of a send. */
  datatype Facts = Facts(
    side: string, stockCode: string, quantity: string, price: string, sentAt: Time,
    clientOrderId: string)

  datatype Resolution = Resolution(
    disposition: Disposition, brokerOrderId: string, errorCode: string, resolvedAt: Time)

  datatype CancelState = Cancelled | CancelNotFound | CancelUnknown

  datatype CancelRow = CancelRow(state: CancelState, errorCode: string, recordedAt: Time)

  /** `order` lists the commands by rowid, which is the order of insertion. */
  datatype Db = Db(
    order: seq<Id>, commands: map<Id, CommandRow>, contexts: map<Id, Facts>,
    resolutions: map<Id, Resolution>, cancels: map<Id, CancelRow>)

  datatype CancelReceipt = CancelReceipt(
    id: Id, state: CancelState, errorCode: string, recordedAt: Time)

  datatype Target = Target(
    id: Id, scope: Scope, brokerOrderId: string, orgNo: string, side: string, stockCode: string,
    quantity: string, price: string)

  /** One unresolved UNKNOWN command joined with its context row, if it has one. */
  datatype Item = Item(
    id: Id, scope: Scope, side: string, stockCode: string, quantity: string, price: string,
    sentAt: Time, contextPresent: bool, clientOrderId: string)

  // ----- reads -----

  /** Find: the command row, overridden by its resolution row. */
  function Effective(db: Db, id: Id): Option<Receipt> {
    if id !in db.commands then None
    else
      var c := db.commands[id];
      if id in db.resolutions then
        var r := db.resolutions[id];
        Some(Receipt(id, r.disposition, r.brokerOrderId, r.errorCode, c.recordedAt))
      else
        Some(Receipt(id, c.disposition, c.brokerOrderId, c.errorCode, c.recordedAt))
  }

  /** The join condition of FindCancelTarget and of ReserveCancel's INSERT ... SELECT. */
  predicate Cancellable(db: Db, id: Id) {
    var e := Effective(db, id);
    e.Some? && e.value.disposition == Accepted && e.value.brokerOrderId != ""
  }

  function CancelTarget(db: Db, id: Id): Option<Target> {
    if !Cancellable(db, id) then None
    else
      var c := db.commands[id];
      var oid := Effective(db, id).value.brokerOrderId;
      if id in db.contexts then
        var x := db.contexts[id];
        Some(Target(id, c.scope, oid, c.orgNo, x.side, x.stockCode, x.quantity, x.price))
      else
        Some(Target(id, c.scope, oid, c.orgNo, "", "", "", ""))
  }

  function FindCancel(db: Db, id: Id): Option<CancelReceipt> {
    if id !in db.cancels then None
    else
      var r := db.cancels[id];
      Some(CancelReceipt(id, r.state, r.errorCode, r.recordedAt))
  }

  /** The WHERE clause of the resolver's queries. */
  predicate Unresolved(db: Db, id: Id) {
    id in db.commands && db.commands[id].disposition == Unknown && id !in db.resolutions
  }

  function PendingItem(db: Db, id: Id): Item
    requires id in db.commands
  {
    var c := db.commands[id];
    if id in db.contexts then
      var x := db.contexts[id];
      Item(id, c.scope, x.side, x.stockCode, x.quantity, x.price, x.sentAt, true, x.clientOrderId)
    else
      Item(id, c.scope, "", "", "", "", c.recordedAt, false, "")
  }

  predicate Listed(db: Db, scopes: set<Scope>, id: Id) {
    Unresolved(db, id) && db.commands[id].scope in scopes
  }

  /** pendingResolutions over the given row order. */
  function PendingAmong(db: Db, scopes: set<Scope>, order: seq<Id>): (items: seq<Item>)
    ensures forall x :: x in items <==> x.id in order && Listed(db, scopes, x.id) && x == PendingItem(db, x.id)
  {
    if order == [] then []
    else
      var rest := PendingAmong(db, scopes, order[1..]);
      if Listed(db, scopes, order[0]) then [PendingItem(db, order[0])] + rest else rest
  }

  const KIS_SCOPES: set<Scope> := {KISMock, KISMockUS}
  const ALPACA_SCOPES: set<Scope> := {AlpacaPaperCrypto}

  // ----- writes: each returns the new tables and whether it affected a row -----

  function FactsOf(cmd: Command, sentAt: Time): Facts {
    Facts(cmd.side, cmd.stockCode, cmd.quantity, cmd.price, sentAt,
          if cmd.scope == AlpacaPaperCrypto then cmd.id else "")
  }

  /** ReservePending's transaction: both rows or neither. */
  function ReservePending(db: Db, receipt: Receipt, cmd: Command): (Db, bool) {
    if receipt.id in db.commands then (db, false)
    else
      var row := CommandRow(receipt.disposition, receipt.brokerOrderId, receipt.errorCode,
                            receipt.recordedAt, Pending, cmd.scope, "");
      (db.(order := db.order + [receipt.id],
           commands := db.commands[receipt.id := row],
           contexts := db.contexts[receipt.id := FactsOf(cmd, receipt.recordedAt)]), true)
  }

  /** StoreFinal's INSERT. It names no scope, so the column default applies. */
  function InsertFinal(db: Db, receipt: Receipt): (Db, bool) {
    if receipt.id in db.commands then (db, false)
    else
      var row := CommandRow(receipt.disposition, receipt.brokerOrderId, receipt.errorCode,
                            receipt.recordedAt, Final, KISMock, "");
      (db.(order := db.order + [receipt.id], commands := db.commands[receipt.id := row]), true)
  }

  /** Finalize's UPDATE ... WHERE phase = 'pending'. It never looks at a resolution row. */
  function FinalizePending(db: Db, receipt: Receipt, orgNo: string): (Db, bool) {
    if receipt.id !in db.commands || db.commands[receipt.id].phase != Pending then (db, false)
    else
      var row := CommandRow(receipt.disposition, receipt.brokerOrderId, receipt.errorCode,
                            receipt.recordedAt, Final, db.commands[receipt.id].scope, orgNo);
      (db.(commands := db.commands[receipt.id := row]), true)
  }

  /** ResolveUnknown's INSERT ... SELECT ... ON CONFLICT DO NOTHING. */
  function AppendResolution(db: Db, id: Id, row: Resolution): Db {
    if Unresolved(db, id) then db.(resolutions := db.resolutions[id := row]) else db
  }

  function ReserveCancel(db: Db, receipt: CancelReceipt): (Db, bool) {
    if !Cancellable(db, receipt.id) || receipt.id in db.cancels then (db, false)
    else
      var row := CancelRow(receipt.state, receipt.errorCode, receipt.recordedAt);
      (db.(cancels := db.cancels[receipt.id := row]), true)
  }

  /** FinalizeCancel's UPDATE ... WHERE state = 'UNKNOWN'; the table has no phase column. */
  function FinalizeCancel(db: Db, receipt: CancelReceipt): (Db, bool) {
    if receipt.id !in db.cancels || db.cancels[receipt.id].state != CancelUnknown then (db, false)
    else
      var row := CancelRow(receipt.state, receipt.errorCode, receipt.recordedAt);
      (db.(cancels := db.cancels[receipt.id := row]), true)
  }

  /** ResolveUnknown refuses an acceptance without an order id and a denial without a code. */
  predicate ValidResolution(id: Id, row: Resolution) {
    && ValidCommandId(id)
    && ((row.disposition == Accepted && row.brokerOrderId != "")
        || (row.disposition == NotCreated && row.errorCode != ""))
  }

  // ----- what every statement keeps -----

  predicate NoDuplicates<T(==)>(s: seq<T>) {
    forall i, j | 0 <= i < j < |s| :: s[i] != s[j]
  }

  /** What the tables promise about one command id. */
  ghost predicate RowOk(db: Db, id: Id) {
    && (id in db.contexts || id in db.resolutions || id in db.cancels ==> id in db.commands)
    && (id in db.commands ==>
          && ValidCommandId(id)
          && (db.commands[id].phase == Pending ==> db.commands[id].disposition == Unknown)
          && (db.commands[id].disposition == Accepted ==> db.commands[id].brokerOrderId != "")
          && (db.commands[id].disposition == NotCreated ==> id !in db.contexts))
    && (id in db.resolutions ==> ValidResolution(id, db.resolutions[id]))
    && (id in db.cancels ==> Cancellable(db, id))
  }

  /** The tables' own consistency, also demanded of rows left by earlier releases. */
  ghost predicate DbOk(db: Db) {
    forall id :: RowOk(db, id)
  }

  /** The rowid order lists every command once. */
  ghost predicate OrderOk(db: Db) {
    NoDuplicates(db.order) && forall id :: id in db.order <==> id in db.commands
  }

  /** A command is settled once its effective disposition has left UNKNOWN. */
  predicate Settled(db: Db, id: Id) {
    Effective(db, id).Some? && Effective(db, id).value.disposition != Unknown
  }

  /** The replayable part of a receipt; recordedAt may still move after a resolution. */
  function Outcome(r: Receipt): (Disposition, string, string) {
    (r.disposition, r.brokerOrderId, r.errorCode)
  }

  /** A resolution row with another outcome than the receipt claims. */
  predicate Contradicted(db: Db, receipt: Receipt) {
    receipt.disposition != Unknown && receipt.id in db.resolutions
    && var r := db.resolutions[receipt.id];
       (r.disposition, r.brokerOrderId, r.errorCode) != Outcome(receipt)
  }

  /** What any number of statements by anyone can do to one id: its rows only appear, facts and
      resolutions are write-once, final rows stand, and a settled outcome is frozen. */
  ghost predicate GrowsAt(a: Db, b: Db, id: Id) {
    && (id in a.commands ==>
          && id in b.commands
          && b.commands[id].scope == a.commands[id].scope
          && (a.commands[id].phase == Final ==> b.commands[id] == a.commands[id])
          && (id in b.contexts ==> id in a.contexts))
    && (id in a.contexts ==> id in b.contexts && b.contexts[id] == a.contexts[id])
    && (id in a.resolutions ==> id in b.resolutions && b.resolutions[id] == a.resolutions[id])
    && (Settled(a, id) ==> Settled(b, id) && Outcome(Effective(b, id).value) == Outcome(Effective(a, id).value))
    && (id in a.cancels ==> id in b.cancels)
  }

  ghost predicate Grows(a: Db, b: Db) {
    forall id :: GrowsAt(a, b, id)
  }

  lemma GrowsTransitive(a: Db, b: Db, c: Db)
    requires Grows(a, b) && Grows(b, c)
    ensures Grows(a, c)
  {
    forall id ensures GrowsAt(a, c, id) {
      assert GrowsAt(a, b, id) && GrowsAt(b, c, id);
    }
  }

  /** Every command row other than `touched`'s, and every cancel row other than `cancelled`'s,
      is left exactly as it was. */
  ghost predicate LeavesAt(a: Db, b: Db, touched: Id, cancelled: Id, id: Id) {
    && (id in a.commands && id != touched ==> id in b.commands && b.commands[id] == a.commands[id])
    && (id in a.cancels && id != cancelled ==> id in b.cancels && b.cancels[id] == a.cancels[id])
  }

  /** The whole guarantee of one statement. No row has the empty id, so "" touches nothing. */
  ghost predicate Keeps(a: Db, b: Db, touched: Id, cancelled: Id) {
    forall id :: RowOk(b, id) && GrowsAt(a, b, id) && LeavesAt(a, b, touched, cancelled, id)
  }

  lemma ReservePendingKeeps(db: Db, receipt: Receipt, cmd: Command)
    requires DbOk(db)
    requires ValidCommandId(receipt.id) && receipt.disposition == Unknown
    ensures Keeps(db, ReservePending(db, receipt, cmd).0, "", "")
  {
    var b := ReservePending(db, receipt, cmd).0;
    forall k ensures RowOk(b, k) && GrowsAt(db, b, k) && LeavesAt(db, b, "", "", k) {
      assert RowOk(db, k);
    }
  }

  lemma InsertFinalKeeps(db: Db, receipt: Receipt)
    requires DbOk(db)
    requires ValidCommandId(receipt.id) && receipt.disposition == NotCreated
    ensures Keeps(db, InsertFinal(db, receipt).0, "", "")
  {
    var b := InsertFinal(db, receipt).0;
    forall k ensures RowOk(b, k) && GrowsAt(db, b, k) && LeavesAt(db, b, "", "", k) {
      assert RowOk(db, k);
    }
  }

  lemma FinalizePendingKeeps(db: Db, receipt: Receipt, orgNo: string)
    requires DbOk(db)
    requires receipt.disposition == Unknown || (receipt.disposition == Accepted && receipt.brokerOrderId != "")
    ensures Keeps(db, FinalizePending(db, receipt, orgNo).0, receipt.id, "")
  {
    var b := FinalizePending(db, receipt, orgNo).0;
    forall k ensures RowOk(b, k) && GrowsAt(db, b, k) && LeavesAt(db, b, receipt.id, "", k) {
      assert RowOk(db, k);
    }
  }

  lemma AppendResolutionKeeps(db: Db, id: Id, row: Resolution)
    requires DbOk(db)
    requires ValidResolution(id, row)
    ensures Keeps(db, AppendResolution(db, id, row), "", "")
    ensures id in db.commands ==> Settled(AppendResolution(db, id, row), id)
  {
    var b := AppendResolution(db, id, row);
    assert RowOk(db, id);
    forall k ensures RowOk(b, k) && GrowsAt(db, b, k) && LeavesAt(db, b, "", "", k) {
      assert RowOk(db, k);
    }
  }

  lemma ReserveCancelKeeps(db: Db, receipt: CancelReceipt)
    requires DbOk(db)
    ensures Keeps(db, ReserveCancel(db, receipt).0, "", "")
  {
    var b := ReserveCancel(db, receipt).0;
    forall k ensures RowOk(b, k) && GrowsAt(db, b, k) && LeavesAt(db, b, "", "", k) {
      assert RowOk(db, k);
    }
  }

  lemma FinalizeCancelKeeps(db: Db, receipt: CancelReceipt)
    requires DbOk(db)
    ensures Keeps(db, FinalizeCancel(db, receipt).0, "", receipt.id)
  {
    var b := FinalizeCancel(db, receipt).0;
    forall k ensures RowOk(b, k) && GrowsAt(db, b, k) && LeavesAt(db, b, "", receipt.id, k) {
      assert RowOk(db, k);
    }
  }
}
