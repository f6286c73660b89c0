/**
 * Cursor-paged history reads. The broker is an arbitrary answer to each request; a read either
 * returns everything along the cursor chain up to its first terminal page or an error.
 */
module Paging {
  import opened Contracts
  import opened Evidence

  const RESPONSE_INVALID := "response_invalid"

  /** A string member of the response body. */
  datatype Field = Absent | Malformed | Text(value: string)

  /** What one request comes back with: a failure before the body could be used, or a body with
      its rows (none when a row or the list is malformed), its trimmed upper-case tr_cont header
      and its two cursor members. */
  datatype Response =
    | Failed(error: string)
    | Page(rows: Option<seq<Order>>, trCont: string, fk: Field, nk: Field)

  datatype Cursor = Cursor(fk: string, nk: string)

  const START := Cursor("", "")

  datatype ReadSpec = ReadSpec(usesHeader: bool, maximumPages: nat)

  const DOMESTIC_BALANCE := ReadSpec(true, 10)
  const OVERSEAS_BALANCE := ReadSpec(false, 10)
  const DOMESTIC_HISTORY := ReadSpec(false, 100)
  const OVERSEAS_HISTORY := ReadSpec(false, 100)

  /** The answer to the request with this number and cursor. */
  type Broker = (nat, Cursor) -> Response

  // ----- the continuation rule -----

  datatype Continuation = Broken | Last | More(cursor: Cursor)

  /** The page says that it is the last one. */
  predicate Terminal(spec: ReadSpec, p: Response)
    requires p.Page?
  {
    if spec.usesHeader then p.trCont in ["", "D", "E"]
    else !p.fk.Malformed? && !p.nk.Malformed? && (p.fk.Absent? || p.nk.Absent? || p.nk.value == "")
  }

  /** The page names the next cursor. */
  predicate Names(spec: ReadSpec, p: Response, next: Cursor)
    requires p.Page?
  {
    && (spec.usesHeader ==> p.trCont in ["F", "M"])
    && p.fk == Text(next.fk) && p.nk == Text(next.nk) && (spec.usesHeader || next.nk != "")
  }

  /** nextCursor, branch by branch. */
  function NextCursor(spec: ReadSpec, p: Response): (c: Continuation)
    requires p.Page?
    ensures c == Last <==> Terminal(spec, p)
    ensures forall next :: c == More(next) <==> Names(spec, p, next)
  {
    if spec.usesHeader && p.trCont in ["", "D", "E"] then Last
    else if spec.usesHeader && p.trCont !in ["F", "M"] then Broken
    else if p.fk.Malformed? || p.nk.Malformed? then Broken
    else if spec.usesHeader && (p.fk.Absent? || p.nk.Absent?) then Broken
    else if !spec.usesHeader && (p.fk.Absent? || p.nk.Absent? || p.nk.value == "") then Last
    else More(Cursor(p.fk.value, p.nk.value))
  }

  // ----- cursor chains -----

  /** The page goes on to another cursor, and the loop follows it: not stalled, not past the bound. */
  predicate Follows(b: Broker, spec: ReadSpec, page: nat, at: Cursor, next: Cursor) {
    var p := b(page, at);
    p.Page? && p.rows.Some? && Names(spec, p, next)
    && next.nk != "" && next.nk != at.nk && page + 1 < spec.maximumPages
  }

  /** The cursors of consecutive requests. */
  ghost predicate Chain(b: Broker, spec: ReadSpec, cs: seq<Cursor>) {
    cs != [] && cs[0] == START && |cs| <= spec.maximumPages
    && forall i | 0 <= i < |cs| - 1 :: Follows(b, spec, i, cs[i], cs[i + 1])
  }

  /** The chain ends in the first page that says it is the last. */
  ghost predicate Complete(b: Broker, spec: ReadSpec, cs: seq<Cursor>) {
    Chain(b, spec, cs) && Ends(b, spec, |cs| - 1, cs[|cs| - 1])
  }

  predicate Ends(b: Broker, spec: ReadSpec, page: nat, at: Cursor) {
    var p := b(page, at);
    p.Page? && p.rows.Some? && Terminal(spec, p)
  }

  /** Everything the pages of a chain list. */
  function Rows(b: Broker, cs: seq<Cursor>): seq<Order>
  {
    if cs == [] then []
    else
      var page := |cs| - 1;
      var p := b(page, cs[page]);
      Rows(b, cs[..page]) + if p.Page? && p.rows.Some? then p.rows.value else []
  }

  // ----- what a list of pages holds -----

  /** How many rows the pages before this one list. */
  function RowsBefore(b: Broker, cs: seq<Cursor>, page: nat): nat
    requires page <= |cs|
  {
    if page == 0 then 0
    else
      var p := b(page - 1, cs[page - 1]);
      RowsBefore(b, cs, page - 1) + if p.Page? && p.rows.Some? then |p.rows.value| else 0
  }

  /** The list is the pages of the chain and nothing else: each page's rows stand in it as one block,
      right behind the blocks of the pages before it, and it ends with the last one. */
  ghost predicate Lists(b: Broker, cs: seq<Cursor>, all: seq<Order>) {
    && |all| == RowsBefore(b, cs, |cs|)
    && forall page | 0 <= page < |cs| ::
         && b(page, cs[page]).Page? && b(page, cs[page]).rows.Some?
         && HasBlock(all, RowsBefore(b, cs, page), b(page, cs[page]).rows.value)
  }

  predicate HasBlock(all: seq<Order>, at: nat, rows: seq<Order>) {
    at + |rows| <= |all| && all[at..at + |rows|] == rows
  }

  lemma {:induction false} BeforeInPrefix(b: Broker, cs: seq<Cursor>, ds: seq<Cursor>, page: nat)
    requires page <= |cs| && cs <= ds
    ensures RowsBefore(b, cs, page) == RowsBefore(b, ds, page)
  {
    if page > 0 {
      BeforeInPrefix(b, cs, ds, page - 1);
    }
  }

  lemma {:induction false} RowsCounted(b: Broker, cs: seq<Cursor>)
    ensures |Rows(b, cs)| == RowsBefore(b, cs, |cs|)
  {
    if cs != [] {
      var front := cs[..|cs| - 1];
      RowsCounted(b, front);
      BeforeInPrefix(b, front, cs, |front|);
    }
  }

  lemma {:induction false} RowsHaveBlock(b: Broker, cs: seq<Cursor>, page: nat)
    requires page < |cs| && b(page, cs[page]).Page? && b(page, cs[page]).rows.Some?
    ensures HasBlock(Rows(b, cs), RowsBefore(b, cs, page), b(page, cs[page]).rows.value)
  {
    var front := cs[..|cs| - 1];
    RowsCounted(b, front);
    BeforeInPrefix(b, front, cs, page);
    if page < |front| {
      RowsHaveBlock(b, front, page);
    }
  }

  lemma CompletePagesHaveRows(b: Broker, spec: ReadSpec, cs: seq<Cursor>)
    requires Complete(b, spec, cs)
    ensures Lists(b, cs, Rows(b, cs))
  {
    forall page | 0 <= page < |cs| ensures b(page, cs[page]).Page? && b(page, cs[page]).rows.Some? {
      if page < |cs| - 1 {
        assert Follows(b, spec, page, cs[page], cs[page + 1]);
      }
    }
    RowsCounted(b, cs);
    forall page | 0 <= page < |cs|
      ensures HasBlock(Rows(b, cs), RowsBefore(b, cs, page), b(page, cs[page]).rows.value)
    {
      RowsHaveBlock(b, cs, page);
    }
  }

  /** A chain is determined by the broker, so there is at most one complete chain. */
  lemma {:induction false} ChainsAgree(b: Broker, spec: ReadSpec, cs: seq<Cursor>, ds: seq<Cursor>, k: nat)
    requires Chain(b, spec, cs) && Chain(b, spec, ds) && k < |cs| && k < |ds|
    ensures cs[k] == ds[k]
  {
    if k > 0 {
      ChainsAgree(b, spec, cs, ds, k - 1);
      assert Follows(b, spec, k - 1, cs[k - 1], cs[k - 1 + 1]);
      assert Follows(b, spec, k - 1, ds[k - 1], ds[k - 1 + 1]);
    }
  }

  lemma TerminalNamesNothing(spec: ReadSpec, p: Response, next: Cursor)
    requires p.Page? && Terminal(spec, p)
    ensures !Names(spec, p, next)
  {
  }

  /** No chain goes past the end of a complete one. */
  lemma CompleteIsLongest(b: Broker, spec: ReadSpec, cs: seq<Cursor>, ds: seq<Cursor>)
    requires Complete(b, spec, cs) && Chain(b, spec, ds)
    ensures ds <= cs
  {
    var end := |cs| - 1;
    if |ds| > |cs| {
      ChainsAgree(b, spec, cs, ds, end);
      assert Follows(b, spec, end, ds[end], ds[end + 1]);
      TerminalNamesNothing(spec, b(end, cs[end]), ds[end + 1]);
    }
    forall k | 0 <= k < |ds| ensures ds[k] == cs[k] {
      ChainsAgree(b, spec, cs, ds, k);
    }
  }

  /** A broker whose answers depend on the cursor alone. */
  ghost predicate Stateless(b: Broker) {
    forall i, j, c :: b(i, c) == b(j, c)
  }

  /** Over such a broker a complete chain never comes back to a cursor. */
  lemma {:induction false} CompleteNeverRevisits(b: Broker, spec: ReadSpec, cs: seq<Cursor>, i: nat, j: nat)
    requires Stateless(b) && Complete(b, spec, cs) && i < j < |cs|
    ensures cs[i] != cs[j]
    decreases |cs| - j
  {
    if cs[i] == cs[j] {
      assert Follows(b, spec, i, cs[i], cs[i + 1]);
      assert b(i, cs[i]) == b(j, cs[j]);
      if j == |cs| - 1 {
        TerminalNamesNothing(spec, b(j, cs[j]), cs[i + 1]);
      } else {
        assert Follows(b, spec, j, cs[j], cs[j + 1]);
        CompleteNeverRevisits(b, spec, cs, i + 1, j + 1);
      }
    }
  }

  /** A cycle is never read as a complete history, however long its period: once a chain comes
      back to a cursor, no complete chain exists, so every read answers with an error. */
  lemma CycleIsNeverComplete(b: Broker, spec: ReadSpec, cs: seq<Cursor>, i: nat, j: nat, ds: seq<Cursor>)
    requires Stateless(b) && Chain(b, spec, cs) && i < j < |cs| && cs[i] == cs[j]
    ensures !Complete(b, spec, ds)
  {
    if Complete(b, spec, ds) {
      CompleteIsLongest(b, spec, ds, cs);
      CompleteNeverRevisits(b, spec, ds, i, j);
    }
  }

  // ----- the page loops -----

  /** The error of a read that stops at this page without completing. */
  function StopError(p: Response): string {
    if p.Failed? then p.error else RESPONSE_INVALID
  }

  /** How a read ends: after the whole chain, or with the error of the page it stopped at. */
  ghost predicate Outcome(b: Broker, spec: ReadSpec, cs: seq<Cursor>, error: Option<string>) {
    && Chain(b, spec, cs)
    && (error.None? <==> Complete(b, spec, cs))
    && (error.Some? ==> error.value == StopError(b(|cs| - 1, cs[|cs| - 1])))
    && (error.Some? ==> Stops(b, spec, |cs| - 1, cs[|cs| - 1]))
  }

  ghost predicate Stops(b: Broker, spec: ReadSpec, page: nat, at: Cursor) {
    forall next :: !Follows(b, spec, page, at, next)
  }

  /** A read that reports an error had no complete chain to report. */
  lemma ErrorMeansIncomplete(b: Broker, spec: ReadSpec, cs: seq<Cursor>, error: string, ds: seq<Cursor>)
    requires Outcome(b, spec, cs, Some(error))
    ensures !Complete(b, spec, ds)
  {
    if Complete(b, spec, ds) {
      CompleteIsLongest(b, spec, ds, cs);
      if |cs| < |ds| {
        InnerGoesOn(b, spec, ds, |cs| - 1);
      }
    }
  }

  lemma InnerGoesOn(b: Broker, spec: ReadSpec, cs: seq<Cursor>, i: nat)
    requires Chain(b, spec, cs) && i + 1 < |cs|
    ensures !Stops(b, spec, i, cs[i])
  {
    assert Follows(b, spec, i, cs[i], cs[i + 1]);
  }

  lemma OutcomeIsExact(b: Broker, spec: ReadSpec, cs: seq<Cursor>, error: Option<string>)
    requires Outcome(b, spec, cs, error)
    ensures error.None? <==> exists ds :: Complete(b, spec, ds)
    ensures forall ds | Complete(b, spec, ds) :: ds == cs
  {
    forall ds | Complete(b, spec, ds) ensures error.None? && ds == cs {
      if error.Some? {
        ErrorMeansIncomplete(b, spec, cs, error.value, ds);
      } else {
        CompleteIsLongest(b, spec, cs, ds);
        CompleteIsLongest(b, spec, ds, cs);
      }
    }
  }

  /** What a read returns: all that a complete chain lists, or nothing and the error of the page it
      stopped at. */
  ghost predicate Answers(b: Broker, spec: ReadSpec, all: seq<Order>, error: Option<string>) {
    exists cs :: Outcome(b, spec, cs, error) && all == if error.None? then Rows(b, cs) else []
  }

  /** Whatever the broker answers, a read succeeds exactly when a complete chain within the page
      bound exists, and then returns everything that chain lists. */
  lemma SucceedsIffComplete(b: Broker, spec: ReadSpec, all: seq<Order>, error: Option<string>)
    requires Answers(b, spec, all, error)
    ensures error.None? <==> exists cs :: Complete(b, spec, cs)
    ensures forall cs | Complete(b, spec, cs) :: Lists(b, cs, all)
    ensures error.Some? ==> all == []
  {
    var cs :| Outcome(b, spec, cs, error) && all == if error.None? then Rows(b, cs) else [];
    OutcomeIsExact(b, spec, cs, error);
    forall ds | Complete(b, spec, ds) ensures Lists(b, ds, all) {
      CompletePagesHaveRows(b, spec, ds);
    }
  }

  /** An error is the one of the failed request at which the chain stopped, and otherwise says that the
      response there was invalid: broken, stalled or past the bound. */
  lemma ErrorTold(b: Broker, spec: ReadSpec, all: seq<Order>, error: string)
    requires Answers(b, spec, all, Some(error))
    ensures exists cs :: Chain(b, spec, cs) && Stops(b, spec, |cs| - 1, cs[|cs| - 1])
              && error == if b(|cs| - 1, cs[|cs| - 1]).Failed? then b(|cs| - 1, cs[|cs| - 1]).error
                          else "response_invalid"
  {
    var cs :| Outcome(b, spec, cs, Some(error)) && all == [];
    assert Chain(b, spec, cs);
  }

  /** This page lists these rows and names another cursor as the next. */
  predicate Hands(b: Broker, spec: ReadSpec, page: nat, at: Cursor, rows: seq<Order>, next: Cursor) {
    var p := b(page, at);
    && p.Page? && p.rows == Some(rows) && p.fk == Text(next.fk) && p.nk == Text(next.nk)
    && next.nk != "" && next.nk != at.nk && (spec.usesHeader ==> p.trCont in ["F", "M"])
  }

  /** This page lists these rows and says that it is the last. */
  predicate Closes(b: Broker, spec: ReadSpec, page: nat, at: Cursor, rows: seq<Order>) {
    var p := b(page, at);
    && p.Page? && p.rows == Some(rows)
    && if spec.usesHeader then p.trCont in ["", "D", "E"]
       else !p.fk.Malformed? && (p.nk.Absent? || p.nk == Text(""))
  }

  /** A broker that splits a list over pages, each naming the next by another cursor and the last saying
      that it is the last, is read back whole, if the pages are within the bound. */
  lemma PagedListIsRead(b: Broker, spec: ReadSpec, pages: seq<seq<Order>>, cs: seq<Cursor>, all: seq<Order>,
                        error: Option<string>)
    requires 0 < |cs| == |pages| <= spec.maximumPages && cs[0] == Cursor("", "")
    requires forall i | 0 <= i < |cs| - 1 :: Hands(b, spec, i, cs[i], pages[i], cs[i + 1])
    requires Closes(b, spec, |cs| - 1, cs[|cs| - 1], pages[|cs| - 1])
    requires Answers(b, spec, all, error)
    ensures error.None? && Lists(b, cs, all)
  {
    forall i | 0 <= i < |cs| - 1 ensures Follows(b, spec, i, cs[i], cs[i + 1]) {
      assert Hands(b, spec, i, cs[i], pages[i], cs[i + 1]);
      assert Names(spec, b(i, cs[i]), cs[i + 1]);
    }
    assert Complete(b, spec, cs);
    SucceedsIffComplete(b, spec, all, error);
  }

  /** So do the four reads that are made, each within its own bound. */
  lemma ShippedReadsSucceedIffComplete(b: Broker, spec: ReadSpec, all: seq<Order>, error: Option<string>)
    requires spec in [DOMESTIC_BALANCE, OVERSEAS_BALANCE, DOMESTIC_HISTORY, OVERSEAS_HISTORY]
    requires Answers(b, spec, all, error)
    ensures error.None? <==> exists cs :: Complete(b, spec, cs)
    ensures forall cs | Complete(b, spec, cs) ::
              Lists(b, cs, all) && |cs| <= if spec in [DOMESTIC_HISTORY, OVERSEAS_HISTORY] then 100 else 10
  {
    SucceedsIffComplete(b, spec, all, error);
  }

  lemma Extend(b: Broker, spec: ReadSpec, cs: seq<Cursor>, next: Cursor)
    requires Chain(b, spec, cs) && Follows(b, spec, |cs| - 1, cs[|cs| - 1], next)
    ensures Chain(b, spec, cs + [next])
    ensures Rows(b, cs + [next]) == Rows(b, cs)
            + (var p := b(|cs|, next); if p.Page? && p.rows.Some? then p.rows.value else [])
  {
    var ds := cs + [next];
    assert ds[..|cs|] == cs;
    forall i | 0 <= i < |ds| - 1 ensures Follows(b, spec, i, ds[i], ds[i + 1]) {
      if i < |cs| - 1 {
        assert ds[i] == cs[i] && ds[i + 1] == cs[i + 1];
      }
    }
  }

  /** DomesticOrderHistory: everything the pages of the one complete chain list, page after page, or
      nothing and an error. */
  method DomesticHistory(b: Broker, spec: ReadSpec) returns (orders: seq<Order>, error: Option<string>)
    requires spec.maximumPages > 0
    ensures Answers(b, spec, orders, error)
    ensures error.None? ==> exists cs :: Complete(b, spec, cs) && Lists(b, cs, orders)
    ensures error.Some? ==> orders == [] && forall cs :: !Complete(b, spec, cs)
  {
    orders, error := DomesticPages(b, spec);
    hide Lists, Complete;
    SucceedsIffComplete(b, spec, orders, error);
  }

  /** executeDomesticOrderHistoryPages. */
  method DomesticPages(b: Broker, spec: ReadSpec) returns (orders: seq<Order>, error: Option<string>)
    requires spec.maximumPages > 0
    ensures Answers(b, spec, orders, error)
  {
    orders := [];
    ghost var cs := [START];
    var cursor := START;
    for page := 0 to spec.maximumPages
      invariant page < spec.maximumPages && |cs| == page + 1 && cs[page] == cursor
      invariant Chain(b, spec, cs) && orders == Rows(b, cs[..page])
    {
      var p := b(page, cursor);
      if p.Failed? {
        assert Outcome(b, spec, cs, Some(p.error));
        return [], Some(p.error);
      }
      if p.rows.None? {
        assert Outcome(b, spec, cs, Some(RESPONSE_INVALID));
        return [], Some(RESPONSE_INVALID);
      }
      orders := orders + p.rows.value;
      match NextCursor(spec, p) {
        case Broken =>
          assert Outcome(b, spec, cs, Some(RESPONSE_INVALID));
          return [], Some(RESPONSE_INVALID);
        case Last =>
          assert Outcome(b, spec, cs, None);
          return orders, None;
        case More(next) =>
          if next.nk == "" || next.nk == cursor.nk || page + 1 == spec.maximumPages {
            assert Outcome(b, spec, cs, Some(RESPONSE_INVALID));
            return [], Some(RESPONSE_INVALID);
          }
          Extend(b, spec, cs, next);
          assert (cs + [next])[..page + 1] == cs;
          cursor, cs := next, cs + [next];
      }
    }
    assert false;
  }

  // ----- keeping first occurrences -----

  function Ids(s: seq<Order>): set<string> {
    set o | o in s :: o.brokerOrderId
  }

  lemma IdsAppend(s: seq<Order>, o: Order)
    ensures Ids(s + [o]) == Ids(s) + {o.brokerOrderId}
  {
    assert forall x | x in s :: x in s + [o];
    assert o in s + [o];
  }

  /** The list with only the first row of each order id. */
  function Firsts(s: seq<Order>): seq<Order> {
    if s == [] then []
    else
      var (front, last) := (s[..|s| - 1], s[|s| - 1]);
      Firsts(front) + if last.brokerOrderId in Ids(front) then [] else [last]
  }

  lemma FirstsAppend(s: seq<Order>, o: Order)
    ensures Firsts(s + [o]) == Firsts(s) + if o.brokerOrderId in Ids(s) then [] else [o]
  {
    assert (s + [o])[..|s|] == s;
  }

  /** Order ids are distinct and none that was listed is missing. */
  lemma {:induction false} FirstsAreDistinct(s: seq<Order>)
    ensures forall i, j | 0 <= i < j < |Firsts(s)| :: Firsts(s)[i].brokerOrderId != Firsts(s)[j].brokerOrderId
    ensures Ids(Firsts(s)) == Ids(s)
  {
    if s != [] {
      var (front, last) := (s[..|s| - 1], s[|s| - 1]);
      FirstsAreDistinct(front);
      var f := Firsts(front);
      assert s == front + [last];
      IdsAppend(front, last);
      IdsAppend(f, last);
      assert forall i | 0 <= i < |f| :: f[i].brokerOrderId in Ids(f);
    }
  }

  /** A row is kept if and only if no earlier row carries its order id, and rows keep their order:
      what a longer list adds comes after everything a shorter one kept. */
  lemma {:induction false} FirstsKeepFirsts(s: seq<Order>, k: nat)
    requires k <= |s|
    ensures Firsts(s[..k]) <= Firsts(s)
    ensures k < |s| ==> (Firsts(s[..k + 1]) == Firsts(s[..k]) + [s[k]] <==>
                           forall j | 0 <= j < k :: s[j].brokerOrderId != s[k].brokerOrderId)
    ensures k < |s| ==> Firsts(s[..k + 1]) == Firsts(s[..k]) + [s[k]] || Firsts(s[..k + 1]) == Firsts(s[..k])
    decreases |s| - k
  {
    if k == |s| {
      assert s[..k] == s;
    } else {
      FirstsKeepFirsts(s, k + 1);
      assert s[..k + 1][..k] == s[..k];
      assert s[k].brokerOrderId in Ids(s[..k]) <==> exists j :: 0 <= j < k && s[j].brokerOrderId == s[k].brokerOrderId;
    }
  }

  /** A list without repeated ids keeps every row. */
  lemma {:induction false} DistinctKeepsAll(s: seq<Order>)
    requires forall i, j | 0 <= i < j < |s| :: s[i].brokerOrderId != s[j].brokerOrderId
    ensures Firsts(s) == s
  {
    if s != [] {
      var (front, last) := (s[..|s| - 1], s[|s| - 1]);
      DistinctKeepsAll(front);
      forall o | o in front ensures o.brokerOrderId != last.brokerOrderId {
        var i :| 0 <= i < |front| && front[i] == o;
        assert s[i] == o;
      }
      assert Firsts(s) == front + [last] == s;
    }
  }

  /** One page of rows: every row whose id was not seen before is appended and its id recorded. */
  method AppendUnseen(rows: seq<Order>, ghost listed: seq<Order>, orders0: seq<Order>, seen0: set<string>)
    returns (orders: seq<Order>, seen: set<string>)
    requires orders0 == Firsts(listed) && seen0 == Ids(listed)
    ensures orders == Firsts(listed + rows) && seen == Ids(listed + rows)
  {
    hide Ids, Firsts;
    orders, seen := orders0, seen0;
    assert listed + rows[..0] == listed;
    for i := 0 to |rows|
      invariant orders == Firsts(listed + rows[..i]) && seen == Ids(listed + rows[..i])
    {
      assert listed + rows[..i + 1] == listed + rows[..i] + [rows[i]];
      IdsAppend(listed + rows[..i], rows[i]);
      FirstsAppend(listed + rows[..i], rows[i]);
      if rows[i].brokerOrderId !in seen {
        seen := seen + {rows[i].brokerOrderId};
        orders := orders + [rows[i]];
      }
    }
    assert rows[..|rows|] == rows;
  }

  /** A page of the chain lists a row with this order id. */
  ghost predicate PageHas(b: Broker, cs: seq<Cursor>, page: nat, id: string)
    requires page < |cs|
  {
    var p := b(page, cs[page]);
    p.Page? && p.rows.Some? && exists o :: o in p.rows.value && o.brokerOrderId == id
  }

  lemma {:induction false} BlockOf(b: Broker, cs: seq<Cursor>, k: nat, n: nat) returns (page: nat)
    requires n <= |cs| && k < RowsBefore(b, cs, n)
    requires forall i | 0 <= i < n :: b(i, cs[i]).Page? && b(i, cs[i]).rows.Some?
    ensures page < n && RowsBefore(b, cs, page) <= k < RowsBefore(b, cs, page) + |b(page, cs[page]).rows.value|
  {
    if RowsBefore(b, cs, n - 1) <= k {
      page := n - 1;
    } else {
      page := BlockOf(b, cs, k, n - 1);
    }
  }

  lemma ListedIsOnPage(b: Broker, cs: seq<Cursor>, all: seq<Order>, o: Order) returns (page: nat)
    requires Lists(b, cs, all) && o in all
    ensures page < |cs| && PageHas(b, cs, page, o.brokerOrderId)
  {
    var k: nat :| k < |all| && all[k] == o;
    page := BlockOf(b, cs, k, |cs|);
    InBlock(all, RowsBefore(b, cs, page), b(page, cs[page]).rows.value, k);
  }

  lemma InBlock(all: seq<Order>, at: nat, rows: seq<Order>, k: nat)
    requires HasBlock(all, at, rows) && at <= k < at + |rows|
    ensures all[k] in rows
  {
    assert all[k] == all[at..at + |rows|][k - at];
  }

  lemma BlockIn(all: seq<Order>, at: nat, rows: seq<Order>, o: Order)
    requires HasBlock(all, at, rows) && o in rows
    ensures o in all
  {
    var j: nat :| j < |rows| && rows[j] == o;
    assert all[at + j] == all[at..at + |rows|][j];
  }

  /** A list of pages has exactly the order ids of the pages. */
  lemma IdsOfPages(b: Broker, cs: seq<Cursor>, all: seq<Order>, id: string)
    requires Lists(b, cs, all)
    ensures id in Ids(all) <==> exists page :: 0 <= page < |cs| && PageHas(b, cs, page, id)
  {
    hide RowsBefore, HasBlock;
    if id in Ids(all) {
      var o :| o in all && o.brokerOrderId == id;
      var page := ListedIsOnPage(b, cs, all, o);
    }
    if page :| 0 <= page < |cs| && PageHas(b, cs, page, id) {
      var rows := b(page, cs[page]).rows.value;
      var o :| o in rows && o.brokerOrderId == id;
      BlockIn(all, RowsBefore(b, cs, page), rows, o);
    }
  }

  /** One row for every order id that some page lists, the first, in the order of the pages. */
  ghost predicate ListsFirsts(b: Broker, cs: seq<Cursor>, orders: seq<Order>) {
    && (exists all :: Lists(b, cs, all) && orders == Firsts(all))
    && (forall id :: id in Ids(orders) <==> exists page :: 0 <= page < |cs| && PageHas(b, cs, page, id))
    && (forall i, j | 0 <= i < j < |orders| :: orders[i].brokerOrderId != orders[j].brokerOrderId)
  }

  lemma FirstsOfPages(b: Broker, cs: seq<Cursor>, all: seq<Order>)
    requires Lists(b, cs, all)
    ensures ListsFirsts(b, cs, Firsts(all))
  {
    hide Lists, PageHas, Firsts, Ids;
    FirstsAreDistinct(all);
    forall id ensures id in Ids(Firsts(all)) <==> exists page :: 0 <= page < |cs| && PageHas(b, cs, page, id) {
      IdsOfPages(b, cs, all, id);
    }
  }

  /** OverseasOrderHistory: of the pages of the one complete chain one row for every order id, or nothing
      and an error. */
  method OverseasHistory(b: Broker, spec: ReadSpec) returns (orders: seq<Order>, error: Option<string>)
    requires spec.maximumPages > 0
    ensures error.None? ==> exists cs :: Complete(b, spec, cs) && ListsFirsts(b, cs, orders)
    ensures error.Some? ==> orders == [] && forall cs :: !Complete(b, spec, cs)
  {
    orders, error := OverseasPages(b, spec);
    ghost var all :| Answers(b, spec, all, error) && orders == Firsts(all);
    hide Lists, Complete, ListsFirsts, Answers;
    SucceedsIffComplete(b, spec, all, error);
    if error.None? {
      ghost var cs :| Complete(b, spec, cs);
      FirstsOfPages(b, cs, all);
    }
  }

  /** executeOverseasOrderHistoryPages: the same chain, keeping first occurrences. */
  method OverseasPages(b: Broker, spec: ReadSpec) returns (orders: seq<Order>, error: Option<string>)
    requires spec.maximumPages > 0
    ensures exists all :: Answers(b, spec, all, error) && orders == Firsts(all)
  {
    orders := [];
    ghost var cs := [START];
    var seen: set<string> := {};
    var cursor := START;
    for page := 0 to spec.maximumPages
      invariant page < spec.maximumPages && |cs| == page + 1 && cs[page] == cursor
      invariant Chain(b, spec, cs)
      invariant orders == Firsts(Rows(b, cs[..page])) && seen == Ids(Rows(b, cs[..page]))
    {
      var p := b(page, cursor);
      if p.Failed? {
        assert Outcome(b, spec, cs, Some(p.error)) && Answers(b, spec, [], Some(p.error));
        return [], Some(p.error);
      }
      if p.rows.None? {
        assert Outcome(b, spec, cs, Some(RESPONSE_INVALID)) && Answers(b, spec, [], Some(RESPONSE_INVALID));
        return [], Some(RESPONSE_INVALID);
      }
      orders, seen := AppendUnseen(p.rows.value, Rows(b, cs[..page]), orders, seen);
      match NextCursor(spec, p) {
        case Broken =>
          assert Outcome(b, spec, cs, Some(RESPONSE_INVALID)) && Answers(b, spec, [], Some(RESPONSE_INVALID));
          return [], Some(RESPONSE_INVALID);
        case Last =>
          assert Outcome(b, spec, cs, None) && Answers(b, spec, Rows(b, cs), None);
          return orders, None;
        case More(next) =>
          if next.nk == "" || next.nk == cursor.nk || page + 1 == spec.maximumPages {
            assert Outcome(b, spec, cs, Some(RESPONSE_INVALID)) && Answers(b, spec, [], Some(RESPONSE_INVALID));
            return [], Some(RESPONSE_INVALID);
          }
          Extend(b, spec, cs, next);
          assert (cs + [next])[..page + 1] == cs;
          cursor, cs := next, cs + [next];
      }
    }
    assert false;
  }

  /** The balance and count reads: how many pages the complete chain has and how many rows they list
      together, or nothing and an error. */
  method CountPages(b: Broker, spec: ReadSpec) returns (pages: nat, records: nat, error: Option<string>)
    requires spec.maximumPages > 0
    ensures error.None? ==> exists cs :: Complete(b, spec, cs) && pages == |cs| && records == RowsBefore(b, cs, |cs|)
    ensures error.Some? ==> pages == 0 && records == 0 && forall cs :: !Complete(b, spec, cs)
  {
    pages, records, error := ExecutePages(b, spec);
    ghost var cs :| Outcome(b, spec, cs, error)
                    && pages == (if error.None? then |cs| else 0)
                    && records == (if error.None? then |Rows(b, cs)| else 0);
    OutcomeIsExact(b, spec, cs, error);
    RowsCounted(b, cs);
  }

  /** executePages: the same chain, only counted. */
  method ExecutePages(b: Broker, spec: ReadSpec) returns (pages: nat, records: nat, error: Option<string>)
    requires spec.maximumPages > 0
    ensures exists cs :: Outcome(b, spec, cs, error)
              && pages == (if error.None? then |cs| else 0) && records == (if error.None? then |Rows(b, cs)| else 0)
  {
    pages, records := 0, 0;
    ghost var cs := [START];
    var cursor := START;
    for page := 0 to spec.maximumPages
      invariant page < spec.maximumPages && |cs| == page + 1 && cs[page] == cursor
      invariant Chain(b, spec, cs) && pages == page && records == |Rows(b, cs[..page])|
    {
      var p := b(page, cursor);
      if p.Failed? {
        assert Outcome(b, spec, cs, Some(p.error));
        return 0, 0, Some(p.error);
      }
      pages := pages + 1;
      if p.rows.None? {
        assert Outcome(b, spec, cs, Some(RESPONSE_INVALID));
        return 0, 0, Some(RESPONSE_INVALID);
      }
      records := records + |p.rows.value|;
      match NextCursor(spec, p) {
        case Broken =>
          assert Outcome(b, spec, cs, Some(RESPONSE_INVALID));
          return 0, 0, Some(RESPONSE_INVALID);
        case Last =>
          assert Outcome(b, spec, cs, None);
          return pages, records, None;
        case More(next) =>
          if next.nk == "" || next.nk == cursor.nk || page + 1 == spec.maximumPages {
            assert Outcome(b, spec, cs, Some(RESPONSE_INVALID));
            return 0, 0, Some(RESPONSE_INVALID);
          }
          Extend(b, spec, cs, next);
          assert (cs + [next])[..page + 1] == cs;
          cursor, cs := next, cs + [next];
      }
    }
    assert false;
  }
}
