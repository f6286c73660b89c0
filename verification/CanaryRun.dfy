/**
 * One canary run: place, check, cancel against an edge that may answer anything. The answer to
 * a request may depend on everything asked so far.
 */
module CanaryRun {
  import opened Contracts
  import opened Numerals
  import opened Decimals
  import opened Ticks
  import opened CanaryPrice
  import opened Caps

  const OK := "ok"
  const PLACE_NOT_ACCEPTED := "place_not_accepted"
  const CANCEL_NOT_CANCELLED := "cancel_not_cancelled"
  const EDGE_UNREACHABLE := "edge_unreachable"
  const PRICE_UNAVAILABLE := "price_unavailable"
  const NO_SESSION := "no_session"
  const CANARY_TIMEOUT := "canary_timeout"
  const CHECK_FAILED := "check_failed"

  datatype Session = KR | US | Closed

  datatype Stage = NotStarted | BandGet | PlaceSent | PlaceAcked | CancelSent | CancelAcked

  datatype Request =
    | GetBand(symbol: string)
    | Place(id: Id, stockCode: string, quantity: string, price: string)
    | Resolve(id: Id)
    | Cancel(id: Id)

  /** The members the canary reads of any of the edge's bodies. A body whose decoding failed may
      still have filled some of them. */
  datatype Body = Body(
    schemaKnown: bool, stockCode: string, band: Band, disposition: string, evidenceRead: string,
    state: string, errorCode: string, rejection: string)

  datatype Answer = Failed(deadline: bool) | Answered(status: int, decoded: bool, body: Body)

  type EdgeAnswers = seq<Request> -> Answer

  predicate Success(status: int) {
    200 <= status < 300
  }

  /** The placement itself was accepted. */
  predicate Accepts(a: Answer) {
    a.Answered? && a.decoded && Success(a.status) && a.body.disposition == "ACCEPTED"
  }

  /** The edge answered that it never sent the order. */
  predicate RulesOut(a: Answer) {
    a.Answered? && a.decoded && a.body.disposition == "NOT_CREATED"
  }

  /** The check proved this command's own order resting. */
  predicate ProvesOrder(a: Answer) {
    a.Answered? && a.decoded && a.status == 200 && a.body.disposition == "ACCEPTED"
  }

  predicate Cancels(a: Answer) {
    a.Answered? && a.decoded && Success(a.status) && a.body.state == "CANCELLED"
  }

  // ----- what every run's requests look like -----

  /** A run places at most once and first of all but the band inquiry; it checks right after a
      placement that is neither accepted nor ruled out; it cancels right after an accepted
      placement or a check that proved the order. Always under its own command id. */
  predicate Lawful(rs: seq<Request>, edge: EdgeAnswers, id: Id) {
    forall i | 0 <= i < |rs| :: LawfulAt(rs, edge, id, i)
  }

  predicate LawfulAt(rs: seq<Request>, edge: EdgeAnswers, id: Id, i: nat)
    requires i < |rs|
  {
    match rs[i]
    case GetBand(_) => i == 0
    case Place(c, _, _, _) => c == id && (i == 0 || (i == 1 && rs[0].GetBand?))
    case Resolve(c) => c == id && i > 0 && rs[i - 1].Place? && !Accepts(edge(rs[..i])) && !RulesOut(edge(rs[..i]))
    case Cancel(c) =>
      c == id && i > 0 && (if rs[i - 1].Place? then Accepts(edge(rs[..i]))
                           else rs[i - 1].Resolve? && ProvesOrder(edge(rs[..i])))
  }

  lemma LawfulAppend(rs: seq<Request>, edge: EdgeAnswers, id: Id, r: Request)
    requires Lawful(rs, edge, id) && LawfulAt(rs + [r], edge, id, |rs|)
    ensures Lawful(rs + [r], edge, id)
  {
    var ts := rs + [r];
    forall i | 0 <= i < |ts| ensures LawfulAt(ts, edge, id, i) {
      if i < |rs| {
        assert LawfulAt(rs, edge, id, i) && ts[..i] == rs[..i];
      }
    }
  }

  predicate SameKind(r: Request, s: Request) {
    r.GetBand? == s.GetBand? && r.Place? == s.Place? && r.Resolve? == s.Resolve? && r.Cancel? == s.Cancel?
  }

  /** Where in a run a request of its kind stands. */
  lemma Standing(rs: seq<Request>, edge: EdgeAnswers, id: Id, i: nat)
    requires Lawful(rs, edge, id) && i < |rs|
    ensures var first := if rs[0].GetBand? then 1 else 0;
            && (rs[i].GetBand? ==> i == 0)
            && (rs[i].Place? ==> i == first)
            && (rs[i].Resolve? ==> i == first + 1 && rs[first].Place? && !Accepts(edge(rs[..i])))
            && (rs[i].Cancel? ==>
                  rs[first].Place? && i == if Accepts(edge(rs[..first + 1])) then first + 1 else first + 2)
  {
    assert LawfulAt(rs, edge, id, i) && LawfulAt(rs, edge, id, 0);
    if i > 0 {
      assert LawfulAt(rs, edge, id, i - 1);
    }
    if i > 1 {
      assert LawfulAt(rs, edge, id, i - 2);
    }
  }

  /** No request is ever repeated: at most one placement, one check and one cancel. */
  lemma NeverRepeats(rs: seq<Request>, edge: EdgeAnswers, id: Id)
    requires Lawful(rs, edge, id)
    ensures forall i, j | 0 <= i < j < |rs| :: !SameKind(rs[i], rs[j])
    ensures |rs| <= 4
  {
    forall i, j | 0 <= i < j < |rs| ensures !SameKind(rs[i], rs[j]) {
      Standing(rs, edge, id, i);
      Standing(rs, edge, id, j);
    }
    if |rs| > 0 {
      Standing(rs, edge, id, |rs| - 1);
    }
  }

  /** The run ended well: the placement was accepted and its order cancelled. */
  predicate RoundTrip(rs: seq<Request>, edge: EdgeAnswers) {
    var n := |rs|;
    n >= 2 && rs[n - 2].Place? && Accepts(edge(rs[..n - 1])) && rs[n - 1].Cancel? && Cancels(edge(rs))
  }

  datatype OrderCheck = OrderCheck(disposition: string, evidenceRead: string, errorCode: string, cancelState: string)

  /** The fields of the run record that the requests after the band inquiry move. */
  datatype Summary = Summary(outcome: string, stage: Stage, errorCode: string, rejection: string)

  /** A cancel's answer, folded into the record: a transport error keeps the error fields, and so
      does a body that could not be decoded. */
  function AfterCancel(r: Summary, a: Answer): (s: Summary)
    ensures s.outcome == OK <==> Cancels(a)
  {
    if a.Failed? then
      if a.deadline then Summary(CANCEL_NOT_CANCELLED, CancelSent, CANARY_TIMEOUT, "")
      else r.(outcome := EDGE_UNREACHABLE, stage := CancelSent)
    else if Cancels(a) then Summary(OK, CancelAcked, "", "")
    else if a.decoded then Summary(CANCEL_NOT_CANCELLED, CancelAcked, a.body.errorCode, a.body.rejection)
    else r.(outcome := CANCEL_NOT_CANCELLED, stage := CancelSent)
  }

  /** A check and its cleanup: a cleanup that succeeds moves the stage alone. */
  function AfterCheck(r: Summary, checked: Answer, cancelled: Answer): (s: Summary)
    requires r.outcome != OK
    ensures s.outcome != OK
  {
    if !ProvesOrder(checked) then r
    else if Cancels(cancelled) then r.(stage := CancelAcked)
    else AfterCancel(r, cancelled)
  }

  /** A placement that was not accepted, before anything is done about it. */
  function NotPlaced(a: Answer): (s: Summary)
    ensures s.outcome != OK
  {
    if a.Failed? then
      if a.deadline then Summary(PLACE_NOT_ACCEPTED, PlaceSent, CANARY_TIMEOUT, "")
      else Summary(EDGE_UNREACHABLE, PlaceSent, "", "")
    else if a.decoded then Summary(PLACE_NOT_ACCEPTED, PlaceAcked, a.body.errorCode, a.body.rejection)
    else Summary(PLACE_NOT_ACCEPTED, PlaceSent, "", "")
  }

  /** How a run that placed ends. */
  function AfterPlace(placed: seq<Request>, edge: EdgeAnswers, id: Id): (s: Summary)
    ensures s.outcome == OK <==> Accepts(edge(placed)) && Cancels(edge(placed + [Cancel(id)]))
  {
    var a := edge(placed);
    var asked := placed + [Resolve(id)];
    if Accepts(a) then AfterCancel(Summary("", PlaceAcked, "", ""), edge(placed + [Cancel(id)]))
    else if RulesOut(a) then NotPlaced(a)
    else AfterCheck(NotPlaced(a), edge(asked), edge(asked + [Cancel(id)]))
  }

  /** What the record says of the check. */
  function CheckRecord(checked: Answer, cancelled: Answer): OrderCheck {
    if checked.Answered? && checked.decoded && checked.status == 200 then
      OrderCheck(checked.body.disposition, checked.body.evidenceRead, "",
                 if ProvesOrder(checked) && cancelled.Answered? then cancelled.body.state else "")
    else
      OrderCheck("", "",
                 if checked.Failed? then (if checked.deadline then CANARY_TIMEOUT else CHECK_FAILED)
                 else if checked.decoded && checked.status != 200 && checked.body.errorCode != "" then
                   checked.body.errorCode
                 else CHECK_FAILED, "")
  }

  /** What the record of a run tells of its placement alone: an answer that ruled the order out or was not
      an acceptance, a lost answer, or an edge that was not there. */
  lemma PlacementTold(placed: seq<Request>, edge: EdgeAnswers, id: Id)
    requires !Accepts(edge(placed)) && !ProvesOrder(edge(placed + [Resolve(id)]))
    ensures var a, s := edge(placed), AfterPlace(placed, edge, id);
            && s.outcome == (if a.Failed? && !a.deadline then "edge_unreachable" else "place_not_accepted")
            && s.stage == (if a.Answered? && a.decoded then PlaceAcked else PlaceSent)
            && s.errorCode == (if a.Failed? then (if a.deadline then "canary_timeout" else "")
                               else if a.decoded then a.body.errorCode else "")
            && s.rejection == if a.Answered? && a.decoded then a.body.rejection else ""
  {
  }

  /** What it tells of a cancel after an accepted placement. */
  lemma CancelTold(placed: seq<Request>, edge: EdgeAnswers, id: Id)
    requires Accepts(edge(placed))
    ensures var c, s := edge(placed + [Cancel(id)]), AfterPlace(placed, edge, id);
            var clean := c.Answered? && c.decoded && 200 <= c.status < 300 && c.body.state == "CANCELLED";
            && s.outcome == (if clean then "ok" else if c.Failed? && !c.deadline then "edge_unreachable"
                             else "cancel_not_cancelled")
            && s.stage == (if c.Answered? && c.decoded then CancelAcked else CancelSent)
            && s.errorCode == (if clean then "" else if c.Failed? then (if c.deadline then "canary_timeout" else "")
                               else if c.decoded then c.body.errorCode else "")
            && s.rejection == if c.Answered? && c.decoded && !clean then c.body.rejection else ""
  {
  }

  /** What it tells of a cancel that cleaned up after a check: a clean one moves the stage alone, a lost one
      keeps the placement's error, and any other replaces it. */
  lemma CleanupTold(placed: seq<Request>, edge: EdgeAnswers, id: Id)
    requires !Accepts(edge(placed)) && !RulesOut(edge(placed)) && ProvesOrder(edge(placed + [Resolve(id)]))
    ensures var a, s := edge(placed), AfterPlace(placed, edge, id);
            var c := edge(placed + [Resolve(id)] + [Cancel(id)]);
            var code := if a.Failed? then (if a.deadline then "canary_timeout" else "")
                        else if a.decoded then a.body.errorCode else "";
            && s.stage == (if c.Answered? && c.decoded then CancelAcked else CancelSent)
            && (Cancels(c) ==>
                  s.outcome == (if a.Failed? && !a.deadline then "edge_unreachable" else "place_not_accepted")
                  && s.errorCode == code)
            && (!Cancels(c) ==>
                  s.outcome == (if c.Failed? && !c.deadline then "edge_unreachable" else "cancel_not_cancelled")
                  && s.errorCode == if c.Failed? then (if c.deadline then "canary_timeout" else code)
                                    else if c.decoded then c.body.errorCode else code)
  {
  }

  /** The record of a check holds its answer when there was one, and otherwise says why there was none. */
  lemma CheckTold(checked: Answer, cancelled: Answer)
    ensures var c := CheckRecord(checked, cancelled);
            && (c.errorCode == "" <==> checked.Answered? && checked.decoded && checked.status == 200)
            && (c.errorCode == "" ==>
                  c.disposition == checked.body.disposition && c.evidenceRead == checked.body.evidenceRead)
            && (c.errorCode != "" ==>
                  && c.disposition == "" && c.evidenceRead == ""
                  && (checked.Failed? ==> c.errorCode == if checked.deadline then "canary_timeout" else "check_failed")
                  && (checked.Answered? ==>
                        c.errorCode == if checked.decoded && checked.status != 200 && checked.body.errorCode != "" then
                                         checked.body.errorCode else "check_failed"))
            && c.cancelState == if c.disposition == "ACCEPTED" && cancelled.Answered? then cancelled.body.state else ""
  {
  }

  class Run {
    const edge: EdgeAnswers
    const id: Id
    var requests: seq<Request>
    var outcome: string
    var price: string
    var band: Option<Band>
    var stage: Stage
    var errorCode: string
    var rejection: string
    var check: Option<OrderCheck>

    constructor (answers: EdgeAnswers, commandId: Id)
      ensures edge == answers && id == commandId && requests == [] && check.None? && band.None?
      ensures Record() == Summary("", NotStarted, "", "")
    {
      edge, id, requests := answers, commandId, [];
      outcome, price, band, stage, errorCode, rejection, check := "", "", None, NotStarted, "", "", None;
    }

    function Record(): Summary
      reads this
    {
      Summary(outcome, stage, errorCode, rejection)
    }

    /** timed: one request, one answer. */
    method Ask(r: Request) returns (a: Answer)
      modifies this`requests
      ensures requests == old(requests) + [r] && a == edge(requests)
    {
      requests := requests + [r];
      a := edge(requests);
    }

    /** cancel: one cancel of the own command, folded into the outcome. */
    method CancelOwn() returns (a: Answer)
      modifies this`requests, this`outcome, this`stage, this`errorCode, this`rejection
      ensures requests == old(requests) + [Cancel(id)] && a == edge(requests)
      ensures Record() == AfterCancel(old(Record()), a)
    {
      stage := CancelSent;
      a := Ask(Cancel(id));
      if a.Failed? {
        if a.deadline {
          outcome, errorCode, rejection := CANCEL_NOT_CANCELLED, CANARY_TIMEOUT, "";
        } else {
          outcome := EDGE_UNREACHABLE;
        }
        return;
      }
      if a.decoded {
        stage := CancelAcked;
      }
      if !a.decoded || !Success(a.status) || a.body.state != "CANCELLED" {
        outcome := CANCEL_NOT_CANCELLED;
        if a.decoded {
          errorCode, rejection := a.body.errorCode, a.body.rejection;
        }
        return;
      }
      outcome, errorCode, rejection := OK, "", "";
    }

    /** checkOwnOrder: one check, then a cancel only of an order the check proved. A cleanup that
        succeeds leaves the failed placement's outcome and error as they were. */
    method CheckOwnOrder()
      requires outcome != OK
      modifies this`requests, this`outcome, this`stage, this`errorCode, this`rejection, this`check
      ensures var asked := old(requests) + [Resolve(id)];
              && requests == asked + (if ProvesOrder(edge(asked)) then [Cancel(id)] else [])
              && Record() == AfterCheck(old(Record()), edge(asked), edge(asked + [Cancel(id)]))
              && check == Some(CheckRecord(edge(asked), edge(asked + [Cancel(id)])))
    {
      var a := Ask(Resolve(id));
      var found := OrderCheck("", "", CHECK_FAILED, "");
      if a.Failed? {
        check := Some(if a.deadline then found.(errorCode := CANARY_TIMEOUT) else found);
        return;
      }
      if a.status == 200 {
        if a.decoded {
          found := OrderCheck(a.body.disposition, a.body.evidenceRead, "", "");
        }
      } else if a.decoded && a.body.errorCode != "" {
        found := found.(errorCode := a.body.errorCode);
      }
      check := Some(found);
      if found.disposition != "ACCEPTED" {
        return;
      }
      var priorOutcome, priorCode, priorRejection := outcome, errorCode, rejection;
      var cancelled := CancelOwn();
      if cancelled.Answered? {
        check := Some(found.(cancelState := cancelled.body.state));
      }
      if outcome == OK {
        outcome, errorCode, rejection := priorOutcome, priorCode, priorRejection;
      }
    }

    /** The band inquiry and the price it leads to. */
    method GetPrice(symbol: string) returns (ok: bool)
      requires requests == []
      modifies this`requests, this`outcome, this`stage, this`errorCode, this`band, this`price
      ensures requests == [GetBand(symbol)]
      ensures var a := edge(requests);
              ok <==> a.Answered? && a.decoded && Success(a.status) && a.body.schemaKnown
                      && a.body.stockCode == symbol && PriceFloor(a.body.band).Some?
      ensures ok ==> outcome == old(outcome) && errorCode == old(errorCode) && band == Some(edge(requests).body.band)
      ensures ok ==> Derived(band, price)
      ensures stage == BandGet
      ensures var a := edge(requests);
              && (!ok ==> outcome == PRICE_UNAVAILABLE
                          && errorCode == if a.Failed? && a.deadline then CANARY_TIMEOUT else old(errorCode))
              && band == if a.Answered? && a.decoded && Success(a.status) && a.body.schemaKnown
                         then Some(a.body.band) else old(band)
    {
      stage := BandGet;
      var a := Ask(GetBand(symbol));
      ok := false;
      if a.Answered? && a.decoded && Success(a.status) && a.body.schemaKnown {
        band := Some(a.body.band);
        if a.body.stockCode == symbol {
          var derived, found := DerivePrice(a.body.band);
          if found {
            price := Print(derived);
            return true;
          }
        }
      }
      outcome := PRICE_UNAVAILABLE;
      if a.Failed? && a.deadline {
        errorCode := CANARY_TIMEOUT;
      }
    }

    /** The requests a placement leads to. */
    function Followed(placed: seq<Request>): seq<Request> {
      var asked := placed + [Resolve(id)];
      if Accepts(edge(placed)) then [Cancel(id)]
      else if RulesOut(edge(placed)) then []
      else [Resolve(id)] + if ProvesOrder(edge(asked)) then [Cancel(id)] else []
    }

    /** The placement and whatever it leads to. */
    method PlaceOrder(stock: string)
      requires outcome == "" && errorCode == "" && rejection == ""
      modifies this`requests, this`outcome, this`stage, this`errorCode, this`rejection, this`check
      ensures var placed := old(requests) + [Place(id, stock, "1", old(price))];
              && requests == placed + Followed(placed)
              && Record() == AfterPlace(placed, edge, id)
              && check == if Accepts(edge(placed)) || RulesOut(edge(placed)) then old(check)
                          else Some(CheckRecord(edge(placed + [Resolve(id)]),
                              edge(placed + [Resolve(id)] + [Cancel(id)])))
    {
      stage := PlaceSent;
      var a := Ask(Place(id, stock, "1", price));
      if a.Failed? {
        outcome := EDGE_UNREACHABLE;
        if a.deadline {
          outcome, errorCode := PLACE_NOT_ACCEPTED, CANARY_TIMEOUT;
        }
        CheckOwnOrder();
        return;
      }
      if a.decoded {
        stage := PlaceAcked;
      }
      if !a.decoded || !Success(a.status) || a.body.disposition != "ACCEPTED" {
        outcome := PLACE_NOT_ACCEPTED;
        if a.decoded {
          errorCode, rejection := a.body.errorCode, a.body.rejection;
        }
        if a.decoded && a.body.disposition == "NOT_CREATED" {
          return;
        }
        CheckOwnOrder();
        return;
      }
      var _ := CancelOwn();
    }

    /** The requests of a run that got as far as placing. */
    lemma PlacedLawfully(before: seq<Request>, place: Request, rs: seq<Request>)
      requires before == [] || (|before| == 1 && before[0].GetBand?)
      requires place.Place? && place.id == id
      requires rs == before + [place] + Followed(before + [place])
      ensures Lawful(rs, edge, id)
      ensures RoundTrip(rs, edge) <==>
                Accepts(edge(before + [place])) && Cancels(edge(before + [place] + [Cancel(id)]))
    {
      var placed := before + [place];
      assert placed[..|placed|] == placed;
      LawfulAppend(before, edge, id, place);
      var a := edge(placed);
      if Accepts(a) {
        assert (placed + [Cancel(id)])[..|placed|] == placed;
        LawfulAppend(placed, edge, id, Cancel(id));
      } else if !RulesOut(a) {
        var asked := placed + [Resolve(id)];
        assert asked[..|placed|] == placed;
        LawfulAppend(placed, edge, id, Resolve(id));
        if ProvesOrder(edge(asked)) {
          assert rs == asked + [Cancel(id)] && rs[..|asked|] == asked;
          LawfulAppend(asked, edge, id, Cancel(id));
        } else {
          assert rs == asked;
        }
      } else {
        assert rs == placed;
      }
    }

    /** The record of a run that got as far as placing, and of one that did not. */
    ghost predicate Recorded(session: Session, edgeIsLoopback: bool, krSymbol: string)
      reads this
    {
      if session == Closed then requests == [] && Record() == Summary(NO_SESSION, NotStarted, "", "")
      else if !edgeIsLoopback then requests == [] && Record() == Summary(EDGE_UNREACHABLE, NotStarted, "", "")
      else if session == US then Ended([Place(id, "AAPL", "1", "1")]) && price == "1"
      else
        var asked := [GetBand(krSymbol)];
        var a := edge(asked);
        if requests == asked then
          Record() == Summary(PRICE_UNAVAILABLE, BandGet, if a.Failed? && a.deadline then CANARY_TIMEOUT else "", "")
        else
          Ended(asked + [Place(id, krSymbol, "1", price)]) && a.Answered? && band == Some(a.body.band)
              && Derived(band, price)
    }

    /** After its placement a run went on as it must and recorded what it was answered. */
    ghost predicate Ended(placed: seq<Request>)
      reads this
    {
      requests == placed + Followed(placed) && Record() == AfterPlace(placed, edge, id)
      && check == if Accepts(edge(placed)) || RulesOut(edge(placed)) then None
                  else Some(CheckRecord(edge(placed + [Resolve(id)]), edge(placed + [Resolve(id)] + [Cancel(id)])))
    }

    /** execute: the requests are lawful, the record is what the answers make of it, and the outcome
        is ok exactly when the placement itself was accepted and its order cancelled, whatever the
        edge answers in between. */
    method Execute(session: Session, edgeIsLoopback: bool, krSymbol: string)
      requires requests == [] && Record() == Summary("", NotStarted, "", "") && check == None && band == None
      modifies this
      ensures Lawful(requests, edge, id)
      ensures outcome == OK <==> RoundTrip(requests, edge)
      ensures Recorded(session, edgeIsLoopback, krSymbol)
    {
      if session == Closed {
        outcome := NO_SESSION;
        return;
      }
      if !edgeIsLoopback {
        outcome := EDGE_UNREACHABLE;
        return;
      }
      var stock := krSymbol;
      if session == US {
        stock, price := "AAPL", "1";
      } else {
        var ok := GetPrice(stock);
        if !ok {
          return;
        }
      }
      ghost var before := requests;
      PlaceOrder(stock);
      hide Lawful, RoundTrip, Derived, Accepts, RulesOut, ProvesOrder, Cancels, AfterPlace, CheckRecord, Followed;
      PlacedLawfully(before, Place(id, stock, "1", price), requests);
      assert session == US ==> before + [Place(id, stock, "1", price)] == [Place(id, "AAPL", "1", "1")];
      assert Ended(before + [Place(id, stock, "1", price)]);
      assert |requests| > |before|;
    }
  }

  /** The price was rounded up from the band that travels with it. */
  ghost predicate Derived(band: Option<Band>, price: string) {
    band.Some? && PriceFloor(band.value).Some?
    && exists p: nat :: LeastOnTick(p, PriceFloor(band.value).value) && price == Print(p)
  }

  /** Over any band a price comes from, with fields of at most 127 characters, the edge accepts the
      form of the canary's order, and its caps let it pass up to a price of a million won. */
  lemma CanaryOrderIsValid(band: Band, price: string, stockCode: string)
    requires Derived(Some(band), price) && |stockCode| == 6 && AllDigits(stockCode)
    requires |band.lowerLimit| < MAX_LENGTH && |band.basePrice| < MAX_LENGTH
    ensures KISMockVerdict("buy", stockCode, "1", price) == ""
    ensures ShareVerdict("1", price) == if NatValue(price) <= MAX_NOTIONAL_KRW then "" else ORDER_LIMIT_EXCEEDED
  {
    var p: nat :| LeastOnTick(p, PriceFloor(band).value) && price == Print(p);
    OneIsPositive();
    hide LeastOnTick, Print, NatValue, IsPositiveInteger;
    DerivedPriceIsAccepted(band, p, MAX_LENGTH - 1, "buy", stockCode, "1");
    OneShareCaps(price);
  }

  lemma OneIsPositive()
    ensures IsPositiveInteger("1") && NatValue("1") == 1
  {
    OneDigit('1');
  }

  lemma OneShareCaps(price: string)
    requires IsPositiveInteger(price)
    ensures ShareVerdict("1", price) == if NatValue(price) <= MAX_NOTIONAL_KRW then "" else ORDER_LIMIT_EXCEEDED
  {
    OneIsPositive();
    hide NatValue, IsPositiveInteger;
  }
}
