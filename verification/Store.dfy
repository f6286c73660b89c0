/** The durable store: one method for each SQL statement, over tables it updates in place. */
module Store {
  import opened Contracts
  import opened Tables
  import opened Protocol

  class Store {
    var order: seq<Id>
    var commands: map<Id, CommandRow>
    var contexts: map<Id, Facts>
    var resolutions: map<Id, Resolution>
    var cancels: map<Id, CancelRow>

    constructor (db: Db)
      ensures Contents() == db
    {
      order, commands, contexts, resolutions, cancels :=
        db.order, db.commands, db.contexts, db.resolutions, db.cancels;
    }

    function Contents(): Db
      reads this
    {
      Db(order, commands, contexts, resolutions, cancels)
    }

    /** What other processes on the same file left behind. */
    method Load(db: Db)
      modifies this
      ensures Contents() == db
    {
      order, commands, contexts, resolutions, cancels :=
        db.order, db.commands, db.contexts, db.resolutions, db.cancels;
    }

    method Find(id: Id, fault: Fault) returns (receipt: Option<Receipt>, failed: bool)
      ensures failed <==> fault != Fine
      ensures !failed ==> receipt == Effective(Contents(), id)
    {
      receipt, failed := None, fault != Fine;
      if failed || id !in commands {
        return;
      }
      var c := commands[id];
      if id in resolutions {
        var r := resolutions[id];
        receipt := Some(Receipt(id, r.disposition, r.brokerOrderId, r.errorCode, c.recordedAt));
      } else {
        receipt := Some(Receipt(id, c.disposition, c.brokerOrderId, c.errorCode, c.recordedAt));
      }
    }

    method ReservePending(receipt: Receipt, cmd: Command, fault: Fault) returns (reserved: bool, failed: bool)
      requires receipt.id == cmd.id
      modifies this
      ensures failed <==> fault != Fine || !PlaceableScope(cmd.scope)
      ensures fault == Refused || !PlaceableScope(cmd.scope) ==> Contents() == old(Contents())
      ensures fault != Refused && PlaceableScope(cmd.scope) ==>
                (Contents(), reserved) == Tables.ReservePending(old(Contents()), receipt, cmd)
    {
      reserved, failed := false, fault != Fine || !PlaceableScope(cmd.scope);
      if fault == Refused || !PlaceableScope(cmd.scope) {
        return;
      }
      if receipt.id !in commands {
        order := order + [receipt.id];
        commands := commands[receipt.id := CommandRow(receipt.disposition, receipt.brokerOrderId,
          receipt.errorCode, receipt.recordedAt, Pending, cmd.scope, "")];
        contexts := contexts[receipt.id := FactsOf(cmd, receipt.recordedAt)];
        reserved := true;
      }
    }

    method StoreFinal(receipt: Receipt, fault: Fault) returns (inserted: bool, failed: bool)
      modifies this
      ensures failed <==> fault != Fine
      ensures fault == Refused ==> Contents() == old(Contents())
      ensures fault != Refused ==> (Contents(), inserted) == InsertFinal(old(Contents()), receipt)
    {
      inserted, failed := false, fault != Fine;
      if fault != Refused && receipt.id !in commands {
        order := order + [receipt.id];
        commands := commands[receipt.id := CommandRow(receipt.disposition, receipt.brokerOrderId,
          receipt.errorCode, receipt.recordedAt, Final, KISMock, "")];
        inserted := true;
      }
    }

    method Finalize(receipt: Receipt, orgNo: string, fault: Fault) returns (updated: bool, failed: bool)
      modifies this
      ensures failed <==> fault != Fine
      ensures fault == Refused ==> Contents() == old(Contents())
      ensures fault != Refused ==> (Contents(), updated) == FinalizePending(old(Contents()), receipt, orgNo)
    {
      updated, failed := false, fault != Fine;
      if fault != Refused && receipt.id in commands && commands[receipt.id].phase == Pending {
        commands := commands[receipt.id := CommandRow(receipt.disposition, receipt.brokerOrderId,
          receipt.errorCode, receipt.recordedAt, Final, commands[receipt.id].scope, orgNo)];
        updated := true;
      }
    }

    method FindCancelAttempt(id: Id, fault: Fault) returns (receipt: Option<CancelReceipt>, failed: bool)
      ensures failed <==> fault != Fine
      ensures !failed ==> receipt == FindCancel(Contents(), id)
    {
      receipt, failed := None, fault != Fine;
      if !failed && id in cancels {
        receipt := Some(CancelReceipt(id, cancels[id].state, cancels[id].errorCode, cancels[id].recordedAt));
      }
    }

    method FindCancelTarget(id: Id, fault: Fault) returns (target: Option<Target>, failed: bool)
      ensures failed <==> fault != Fine
      ensures !failed ==> target == CancelTarget(Contents(), id)
    {
      target, failed := None, fault != Fine;
      if failed || id !in commands {
        return;
      }
      var c := commands[id];
      var disposition, oid := c.disposition, c.brokerOrderId;
      if id in resolutions {
        disposition, oid := resolutions[id].disposition, resolutions[id].brokerOrderId;
      }
      if disposition != Accepted || oid == "" {
        return;
      }
      var side, stockCode, quantity, price := "", "", "", "";
      if id in contexts {
        var x := contexts[id];
        side, stockCode, quantity, price := x.side, x.stockCode, x.quantity, x.price;
      }
      target := Some(Target(id, c.scope, oid, c.orgNo, side, stockCode, quantity, price));
    }

    method ReserveCancel(receipt: CancelReceipt, fault: Fault) returns (reserved: bool, failed: bool)
      modifies this
      ensures failed <==> fault != Fine
      ensures fault == Refused ==> Contents() == old(Contents())
      ensures fault != Refused ==> (Contents(), reserved) == Tables.ReserveCancel(old(Contents()), receipt)
    {
      reserved, failed := false, fault != Fine;
      if fault == Refused || receipt.id !in commands || receipt.id in cancels {
        return;
      }
      var disposition, oid := commands[receipt.id].disposition, commands[receipt.id].brokerOrderId;
      if receipt.id in resolutions {
        disposition, oid := resolutions[receipt.id].disposition, resolutions[receipt.id].brokerOrderId;
      }
      if disposition == Accepted && oid != "" {
        cancels := cancels[receipt.id := CancelRow(receipt.state, receipt.errorCode, receipt.recordedAt)];
        reserved := true;
      }
    }

    method FinalizeCancel(receipt: CancelReceipt, fault: Fault) returns (updated: bool, failed: bool)
      modifies this
      ensures failed <==> fault != Fine
      ensures fault == Refused ==> Contents() == old(Contents())
      ensures fault != Refused ==> (Contents(), updated) == Tables.FinalizeCancel(old(Contents()), receipt)
    {
      updated, failed := false, fault != Fine;
      if fault != Refused && receipt.id in cancels && cancels[receipt.id].state == CancelUnknown {
        cancels := cancels[receipt.id := CancelRow(receipt.state, receipt.errorCode, receipt.recordedAt)];
        updated := true;
      }
    }

    lemma PendingStep(db: Db, scopes: set<Scope>, ids: seq<Id>, i: nat)
      requires i < |ids|
      ensures PendingAmong(db, scopes, ids[i..])
              == (if Listed(db, scopes, ids[i]) then [PendingItem(db, ids[i])] else []) + PendingAmong(db, scopes,
                  ids[i + 1..])
    {
      assert ids[i..][1..] == ids[i + 1..];
    }

    lemma PendingEnds(db: Db, scopes: set<Scope>, ids: seq<Id>)
      ensures PendingAmong(db, scopes, ids[|ids|..]) == [] && ids[0..] == ids
    {
    }

    /** The rows loop of pendingResolutions. */
    method PendingResolutions(scopes: set<Scope>) returns (items: seq<Item>)
      ensures items == PendingAmong(Contents(), scopes, order)
    {
      hide PendingAmong;
      items := [];
      PendingEnds(Contents(), scopes, order);
      for i := 0 to |order|
        invariant items + PendingAmong(Contents(), scopes, order[i..]) == PendingAmong(Contents(), scopes, order)
      {
        var id := order[i];
        PendingStep(Contents(), scopes, order, i);
        if id in commands && commands[id].disposition == Unknown && commands[id].scope in scopes && id !in resolutions {
          var c := commands[id];
          var item := Item(id, c.scope, "", "", "", "", c.recordedAt, false, "");
          if id in contexts {
            var x := contexts[id];
            item := Item(id, c.scope, x.side, x.stockCode, x.quantity, x.price, x.sentAt, true, x.clientOrderId);
          }
          items := items + [item];
        }
      }
    }

    /** FindPendingResolution: the unresolved row of one command. */
    method FindPendingResolution(id: Id, fault: Fault) returns (item: Option<Item>, failed: bool)
      ensures failed <==> fault != Fine
      ensures !failed ==> item == if Unresolved(Contents(), id) then Some(PendingItem(Contents(), id)) else None
    {
      item, failed := None, fault != Fine;
      if failed || id !in commands || commands[id].disposition != Unknown || id in resolutions {
        return;
      }
      var c := commands[id];
      if id in contexts {
        var x := contexts[id];
        item := Some(Item(id, c.scope, x.side, x.stockCode, x.quantity, x.price, x.sentAt, true, x.clientOrderId));
      } else {
        item := Some(Item(id, c.scope, "", "", "", "", c.recordedAt, false, ""));
      }
    }

    /** ResolveUnknown's INSERT ... SELECT ... ON CONFLICT DO NOTHING. */
    method AppendResolution(id: Id, row: Resolution, fault: Fault) returns (failed: bool)
      modifies this
      ensures failed <==> fault != Fine || !ValidResolution(id, row)
      ensures fault == Refused || !ValidResolution(id, row) ==> Contents() == old(Contents())
      ensures fault != Refused && ValidResolution(id, row) ==>
                Contents() == Tables.AppendResolution(old(Contents()), id, row)
    {
      failed := fault != Fine || !ValidResolution(id, row);
      if fault == Refused || !ValidResolution(id, row) {
        return;
      }
      if id in commands && commands[id].disposition == Unknown && id !in resolutions {
        resolutions := resolutions[id := row];
      }
    }

    /** ResolveUnknown: the additive row, then the resulting receipt. */
    method ResolveUnknown(id: Id, row: Resolution, fault: Fault) returns (receipt: Option<Receipt>)
      modifies this
      ensures fault == Refused || !ValidResolution(id, row) ==> Contents() == old(Contents())
      ensures fault != Refused && ValidResolution(id, row) ==>
                Contents() == Tables.AppendResolution(old(Contents()), id, row)
      ensures receipt == if fault == Fine && ValidResolution(id, row) then Effective(Contents(), id) else None
    {
      receipt := None;
      var failed := AppendResolution(id, row, fault);
      if !failed {
        receipt, failed := Find(id, Fine);
      }
    }
  }
}
