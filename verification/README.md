# Verification of the broker edge

A Dafny model of the parts of this repository whose correctness is a matter of interleavings,
whole runs or exact arithmetic, and proofs of what they promise. `dafny verify dfyconfig.toml`
checks all of it.

## What is modelled

**The placement edge** (`internal/kismockedge`). `Tables` holds the four shared tables and one
function for each SQL statement; `Store` is the store as a class over these tables. `Protocol`
turns every statement, every send and every answer of `Process`, `Cancel`, `ResolveOne` and the
batch `Resolve` into one atomic step of a caller with a program counter. Any number of callers run
at once; each step may fail, may commit and still report an error, or may be a caller's last. The
tables may hold anything earlier releases left behind, rows without context included.
`ProtocolInvariant` proves one inductive invariant; `ProtocolSafety` and `ProtocolEvidence` draw
the theorems from it; `ProtocolAnswers` says what each call answers and records, told from the rows
and from what the outside said to it, and `ProtocolProvenance` that over whole runs nothing else
gets into the tables; `ProtocolBatch` shows that a batch passes nobody over; `ProtocolScenarios`
gives the runs in which a stronger claim fails. `Edge` runs `Process`, `Cancel`, `ResolveOne` and
the batch as methods on the store, with arbitrary interference between any two statements, and
records each statement as a step of the protocol, so the theorems hold of the methods. `Evidence`
is the matching of orders and the verdict on a command, `Matching` what a match means in numbers;
`Resolver` says exactly what a single check and a batch, with its grouping by day, do to the store
and answer when nobody else writes, errors of the resolving statement included.

**The token lock** (`internal/gatewayd`). `TokenLock` is the lock, the cache, the clock and the
time limit of every call as a state machine; `TokenGateway` runs `Ensure` call by call on it,
under interference. `Resp` is the wire format, following the "Bulk strings" section of the Redis
serialization protocol specification.

**Reads, prices and texts.** `Paging` is the three page loops over an arbitrary broker.
`Numerals` and `Decimals` are exact parsing and comparison; `Ticks`, `Caps` and `CanaryPrice` the
price rules of the edge and the canary; `CanaryRun` one canary run against an edge that may
answer anything; `Masker` the replacement of secrets (`Text` is its white space).

Time is an integer number of nanoseconds. An empty string stands for an absent order id or error
code, as it does in the statements. A receipt *agrees* with the tables when it is UNKNOWN, which
claims nothing, or has the effective disposition, order id and error code. An answer is *overruled*
when it was finalized over a resolution row with another outcome.

## Where the code does less than its comments say

- `Finalize` returns its caller's receipt, not the effective one. A placement answered after the
  grace can be told ACCEPTED for a command that stays NOT_CREATED
  (`LateAcceptanceIsContradicted`), and one answered inside it can be told one order id while every
  cancel names another (`InFlightCheckTakesAnotherOrder`). `FinalizeAnswerIffNotContradicted` gives
  the exact condition; `LoneOrderAnswerHolds` and `NamedOrderAnswerHolds` say when neither can happen.
- `ResolveOne` is documented never to resolve from a foreign order. Matching does not subtract
  order ids other commands hold, so a command with the same facts sent within the window can be
  given its twin's order (`TwinsShareOneOrder`). As long as the broker's answers name orders with
  the facts that were sent, only a twin's order can answer for a command
  (`SharedOrderMeansTwins`).
- Only the Korean day of the send is read. Complete reads rule out a false absence if and only if the
  match window does not cross midnight (`CompleteReadsSufficeIff`, and over every run
  `CompleteReadsNeverAbsent`). `OrderPastMidnightIsDeclaredAbsent` is an order declared absent.
- The grace is looked at when evidence is judged, not when it is read. A day read beside a send in
  flight and judged after the grace records an absence (`EarlyReadDeclaresAbsence`).
  `AbsenceIsSound` asks exactly the evidence that is answered, or still held, once the grace is over
  to show the order.
- The batch leaves an Alpaca command alone whose order is found without an id; the single check
  goes on to the grace rule (`VerdictsPart`). The shipped reader never reports such an order.
- A batch that stops in a day returns an error without the receipts of the rows it has already stored
  in that day, although its result is documented to report every receipt that obtained a resolution
  (`ReportedIffDayConcluded`).
- The window test negates a 64-bit duration, which has no effect on the least one
  (`WindowIsDistance`).
- A secret that is part of the marker "[redacted]" survives its own replacement, and one that overlaps
  its ends can come back (`MaskingIsExact`, `OneNeedleIsExact`, `BracketNeedleReturns`).
- A canary cleanup never turns a failed placement into `ok`, but a cleanup whose cancel fails does
  rename the outcome (`CheckOwnOrder`).
- `Process` with the scope kis_live answers NOT_CREATED without looking at the tables, so this
  answer can differ from a stored command of the same id (`UnstoredAnswerCanDiffer`).

## Model

| member | source | states |
|---|---|---|
| `ProtocolSafety.AtMostOneSend` | internal/kismockedge/service.go:151-199 | Over every run of any number of placements, cancels and resolvers, with faults, lost replies and crashes, and from any tables left by earlier releases: no command id is sent twice, and every send stands on a committed row with a context row holding the sent facts, whose own disposition is never NOT_CREATED. |
| `ProtocolSafety.SendBoundary` | internal/kismockedge/service.go:176-191 | At the instant of a send the pending UNKNOWN row of exactly that command is committed, nothing was sent for its id before, and no other live caller may send or finalize it. |
| `ProtocolSafety.StoredIdNeverSendsAgain` | internal/kismockedge/service.go:151-183 | A stored command that is not already at its send step gets no send in any continuation, whoever calls with whatever payload; a crash between commit and send is one such case. |
| `ProtocolSafety.SettledForever` | internal/kismockedge/store.go:447-466 | The effective disposition, order id and error code leave UNKNOWN at most once and never change after that, in every run. |
| `ProtocolSafety.ResolveUnknownConcludes` | internal/kismockedge/store.go:709-739 | The read-back of ResolveUnknown never reports UNKNOWN, even from a stale snapshot or after losing the race, and is what the single check answers. |
| `ProtocolSafety.UnownedRowsStand` | internal/kismockedge/store.go:743-775 | Only the reserver writes: once no live caller owns a commands or cancel row, it stands unchanged in every continuation. |
| `ProtocolSafety.FinalizersFindTheirRow` | internal/kismockedge/cancel.go:84-97 | The guards of Finalize and FinalizeCancel always hold for the caller that reserved: the read-back branches of both are never taken, and after the statement nobody owns the row. |
| `ProtocolSafety.AnswersHold` | internal/kismockedge/service.go:187-199 | An error-free answer of Process from the tables is UNKNOWN or the whole effective outcome (disposition, order id, error code) in every later state, if and only if it was not finalized over a resolution row with another outcome. |
| `ProtocolSafety.NeverOverruledButFinalize` | internal/kismockedge/store.go:743-775 | Only Finalize gives answers the tables overrule; replays, read-backs and stored denials never are. |
| `ProtocolSafety.UnstoredIsInvalid` | internal/kismockedge/service.go:133-148 | An answer given before the tables are looked at is always the same denial, and no statement is made for it. |
| `ProtocolSafety.FinalizeAnswerIffNotContradicted` | internal/kismockedge/store.go:762-775 | Finalize answers its caller's own receipt; that answer is true in its whole outcome, then and ever after, if and only if it claims nothing or no resolution row with another outcome stood when the UPDATE committed. |
| `ProtocolSafety.AcceptedIsCancellable` | internal/kismockedge/store.go:185-223 | A command once answered ACCEPTED, not overruled, is found by FindCancelTarget in every later state, with the very order id that was answered. |
| `ProtocolSafety.ChecksHold` | internal/kismockedge/resolver.go:302-399 | What a single check answers is UNKNOWN or the whole effective outcome, then and in every later state. |
| `ProtocolSafety.NextGrows` | internal/kismockedge/store.go:536-566 | Every step of anybody only grows the tables: rows never disappear, contexts and resolutions are write-once, final rows stand, settled outcomes are frozen. |
| `ProtocolSafety.RunGrows` | internal/kismockedge/store.go:536-566 | The same over whole runs, with the invariant. |
| `ProtocolInvariant.NextKeeps` | internal/kismockedge/service.go:133-200 | The inductive invariant (row consistency, per-caller facts, single ownership of pending rows, the two send logs) is kept by every event. |
| `ProtocolInvariant.RunKeeps` | internal/kismockedge/service.go:133-200 | Every state of every run satisfies the invariant. |
| `ProtocolInvariant.PlaceTurnKeeps` | internal/kismockedge/service.go:151-199 | One step of Process, under any fault and any broker answer, keeps the invariant for all callers. |
| `ProtocolInvariant.CancelTurnKeeps` | internal/kismockedge/cancel.go:48-97 | One step of Cancel keeps the invariant for all callers. |
| `ProtocolInvariant.ResolveTurnKeeps` | internal/kismockedge/resolver.go:190-225 | One step of a single or batch resolver keeps the invariant for all callers. |
| `ProtocolInvariant.OwnedIsStored` | internal/kismockedge/store.go:476-534 | A caller that may still send or finalize owns a stored command with a context row; one that may still finalize a cancel owns a pending cancel row. |
| `Protocol.RunConcat` | internal/kismockedge/service.go:133-200 | A run of two event lists is the run of the second from where the first ended, so what holds of all runs holds of all their parts. |
| `ProtocolSafety.AtMostOneCancel` | internal/kismockedge/cancel.go:48-97 | Over every run no command is cancelled twice at the broker, and every cancel sent names the order id that is, and stays, the effective accepted one. |
| `ProtocolSafety.TargetReadStaysTrue` | internal/kismockedge/store.go:185-223 | What FindCancelTarget reads outside the reservation stays true in every later state, except the forwarding office number. |
| `ProtocolSafety.CancelReserveNeverDisappears` | internal/kismockedge/store.go:227-257 | Without a fault the reservation of a target that was found never answers that the target disappeared. |
| `ProtocolSafety.CancelAnswersHold` | internal/kismockedge/store.go:259-282 | A conclusive cancel answer is the recorded state in every later state. |
| `Tables.ReservePendingKeeps` | internal/kismockedge/store.go:476-534 | The reservation transaction keeps every row consistent and only grows the tables. |
| `Tables.InsertFinalKeeps` | internal/kismockedge/store.go:536-566 | Inserting a conclusive denial keeps every row consistent and only grows the tables. |
| `Tables.FinalizePendingKeeps` | internal/kismockedge/store.go:743-775 | The UPDATE on phase = pending changes at most its own pending row, keeps rows consistent and never moves a settled outcome, even over a resolution row. |
| `Tables.AppendResolutionKeeps` | internal/kismockedge/store.go:709-739 | The additive resolution row keeps rows consistent, moves no settled outcome and leaves its command settled. |
| `Tables.ReserveCancelKeeps` | internal/kismockedge/store.go:227-257 | The INSERT ... SELECT of a cancel marker keeps rows consistent: a cancel row exists only for an effectively accepted command. |
| `Tables.FinalizeCancelKeeps` | internal/kismockedge/store.go:259-282 | The UPDATE on state = UNKNOWN changes at most its own cancel row. |
| `Tables.PendingAmong` | internal/kismockedge/store.go:601-636 | Exactly the unresolved UNKNOWN commands of the scopes, each with its context or the marker that it has none. |
| `Store.Store.Find` | internal/kismockedge/store.go:447-466 | Returns the effective receipt: the command row overridden by its resolution row. |
| `Store.Store.ReservePending` | internal/kismockedge/store.go:476-534 | Both rows or neither; unplaceable scopes are refused; a lost reply may hide a committed effect. |
| `Store.Store.StoreFinal` | internal/kismockedge/store.go:470-472 | Inserts the conclusive receipt with the default scope unless the id is stored. |
| `Store.Store.Finalize` | internal/kismockedge/store.go:743-775 | Replaces exactly the pending row and says whether it did. |
| `Store.Store.FindCancelAttempt` | internal/kismockedge/store.go:163-180 | Returns the stored attempt. |
| `Store.Store.FindCancelTarget` | internal/kismockedge/store.go:185-223 | Returns the facts and effective order id of an effectively accepted command, or nothing. |
| `Store.Store.ReserveCancel` | internal/kismockedge/store.go:227-257 | Inserts the marker exactly for an effectively accepted command without one. |
| `Store.Store.FinalizeCancel` | internal/kismockedge/store.go:259-282 | Replaces exactly a cancel row that is still UNKNOWN. |
| `Store.Store.PendingResolutions` | internal/kismockedge/store.go:601-636 | The rows loop lists exactly the pending commands of the scopes in rowid order. |
| `Store.Store.FindPendingResolution` | internal/kismockedge/store.go:642-665 | Returns the unresolved row of one command with its context or the marker that it has none, or nothing. |
| `Store.Store.AppendResolution` | internal/kismockedge/store.go:717-728 | Inserts the additive row only for an unresolved UNKNOWN command; incomplete resolutions are refused; a lost reply may hide a committed row. |
| `Store.Store.ResolveUnknown` | internal/kismockedge/store.go:709-739 | The insert and the read-back: the effective receipt, or none when the resolution is incomplete or the statement errs. |
| `Edge.Edge.Process` | internal/kismockedge/service.go:133-200 | Under arbitrary interference between any two statements, with any fault at each, the method runs as one placement of its own command in a recorded run of the protocol and returns what that placement answered; it answers without looking at the tables exactly for the reserved scope and malformed ids; and a command whose outcome was known when it was called is answered with that outcome, or with storage_failure and an error. |
| `Edge.Edge.LookUp` | internal/kismockedge/service.go:151-155 | A stored command is answered with its effective receipt, as a turn of its own; one with a known outcome never UNKNOWN. |
| `Edge.Edge.JudgeAndReserve` | internal/kismockedge/service.go:157-183 | From validation to the reservation: the same, for a placement at that point. |
| `Edge.Edge.Reserve` | internal/kismockedge/service.go:176-187 | The reservation, its read-back when the id was taken, and the send when it was not. |
| `Edge.Edge.SendAndFinalize` | internal/kismockedge/service.go:185-191 | The send is the very next step after the committed reservation. |
| `Edge.Edge.AwaitAnswer` | internal/kismockedge/service.go:191-199 | From the send on every outcome without an accepted order id becomes UNKNOWN. |
| `Edge.Edge.Finalize` | internal/kismockedge/service.go:235-244 | The finalization is a turn of the protocol and returns its answer. |
| `Edge.Edge.StoreFinal` | internal/kismockedge/service.go:226-233 | Storing a denial, or the receipt that was there first. |
| `Edge.Edge.Cancel` | internal/kismockedge/cancel.go:35-98 | Under arbitrary interference the method runs as one cancel of its own command in a recorded run and returns what that cancel answered; a command with an attempt on record is answered with exactly the row of that attempt, or an error. |
| `Edge.Edge.LookUpAttempt` | internal/kismockedge/cancel.go:48-52 | A replay returns the recorded attempt, state, code and time, and goes no further. |
| `Edge.Edge.LookUpTarget` | internal/kismockedge/cancel.go:53-64 | The target is read outside the reservation, as a turn of its own. |
| `Edge.Edge.ReserveAttempt` | internal/kismockedge/cancel.go:72-79 | The reservation, or the attempt that won. |
| `Edge.Edge.FinalizeCancel` | internal/kismockedge/cancel.go:95-97 | The finalization of the marker and its answer. |
| `Edge.Edge.ResolveOne` | internal/kismockedge/resolver.go:302-464 | Under arbitrary interference between any two statements and around the read at the broker, which may answer anything, the method runs as one single check of its own command in a recorded run and returns what that check answered; a command with a known outcome is answered with it, or an error. |
| `Edge.Edge.JudgeNext` | internal/kismockedge/resolver.go:201-224 | One item is left, or resolved by an insert and a read-back of their own, each a turn of the recorded run. |
| `Edge.Edge.AppendNext` | internal/kismockedge/store.go:717-739 | The insert of a resolution and its read-back are two turns; an error at either ends the run. |
| `Edge.Edge.ResolveAll` | internal/kismockedge/resolver.go:74-106 | Under the same interference a whole batch is one recorded run: both listings, group after group in any order, item after item, until a statement errs. |
| `Edge.Edge.ProcessPromises` | internal/kismockedge/service.go:187-199 | After any Process: no id was sent twice; an answer from the tables stays true in its whole outcome in every continuation if and only if it was not overruled, and an acceptance then has a cancel target with its order id; any other answer is the denial of a malformed request. |
| `Edge.Edge.CancelPromises` | internal/kismockedge/cancel.go:84-97 | After any Cancel: no cancel was sent twice, all name live targets, and a conclusive answer is the recorded state for good. |
| `Edge.Edge.CheckPromises` | internal/kismockedge/resolver.go:302-464 | After any single check: the receipt it answered is UNKNOWN or the whole effective outcome in every continuation. |
| `Edge.Edge.NothingIsMadeUp` | internal/kismockedge/service.go:133-200 | After any of these methods every final row, conclusive cancel row and resolution row that was not there at the start is what the outside said, in the recorded history, to a caller that asked about that command. |
| `ProtocolAnswers.ReadsAnswerTheRows` | internal/kismockedge/service.go:151-155 | In every reachable state a read without an error that answers (the first lookup, a read-back, the lookup of a check) answers with the whole receipt the rows tell: the resolution row over the command row. A command whose outcome is known is never answered UNKNOWN. |
| `ProtocolAnswers.ReadsGoOn` | internal/kismockedge/service.go:157-163 | An id that is not stored goes on to be judged; a check of a stored command without an outcome goes on with the receipt the rows tell. |
| `ProtocolAnswers.KnownIsReplayed` | internal/kismockedge/service.go:130-155 | Over every run: placing a command whose outcome is known again, with whatever payload and whatever runs beside it, answers that very outcome or an error of the store, and nothing else. |
| `ProtocolAnswers.BrokerAnswerIsRecorded` | internal/kismockedge/service.go:191-199 | Whatever others do between the answer and its UPDATE: an acceptance with an order id becomes exactly the ACCEPTED row and receipt with that id and office number, anything else the UNKNOWN one with the broker's code or broker_unknown; a refused statement leaves the row, a lost reply does not, and both are errors. |
| `ProtocolAnswers.RejectionIsRecorded` | internal/kismockedge/service.go:157-174 | A command rejected before its reservation is stored and answered NOT_CREATED with exactly the code it was rejected for, without context and with the default scope, unless its id was stored meanwhile. |
| `ProtocolAnswers.ReservationIsRecorded` | internal/kismockedge/service.go:176-187 | A command that may be sent is reserved, if its id is still free, as a pending UNKNOWN row with its own facts and the time it was judged; the send follows exactly when this statement inserted both rows and said so; every other end is the read-back or storage_failure. |
| `ProtocolAnswers.FailedReads` | internal/kismockedge/service.go:151-153 | A read that errs changes nothing and is answered with an error. |
| `ProtocolAnswers.TargetIsWhatWasSent` | internal/kismockedge/store.go:185-223 | The cancel target of an accepted placement carries, in every later state, the facts that were sent and the order id and office number that were answered. |
| `ProtocolAnswers.AttemptIsReplayed` | internal/kismockedge/cancel.go:48-52 | A stored cancel attempt is answered exactly as its row tells it, by a replay and after a lost race alike. |
| `ProtocolAnswers.TargetIsRead` | internal/kismockedge/cancel.go:53-61 | A cancel goes on exactly for a command whose rows tell an acceptance, with the scope, office number, order id and facts of these rows. |
| `ProtocolAnswers.CancelReservationIsRecorded` | internal/kismockedge/cancel.go:72-79 | The marker is inserted exactly when no attempt is there, and the send follows exactly when this statement inserted it and said so. |
| `ProtocolAnswers.CancelAnswerIsRecorded` | internal/kismockedge/cancel.go:85-97 | Whatever others do in between: CANCELLED is recorded and answered as CANCELLED, NOT_FOUND as NOT_FOUND, anything else as UNKNOWN, each with the broker's code or its default. |
| `ProtocolAnswers.DayCheckDecides` | internal/kismockedge/resolver.go:302-447 | An undisturbed single check given any day's listing ends by the rows of that listing alone: exactly one match gives that order's id as the additive row and the answer, whatever else the day lists; several leave the command; none is an absence if and only if the grace since the send is over and the command has a context or the day is empty. |
| `ProtocolAnswers.LookupCheckDecides` | internal/kismockedge/resolver.go:375-394 | An undisturbed check of an Alpaca command ends by what the lookup of its client order id found. |
| `ProtocolProvenance.FinalRowsWereSaid` | internal/kismockedge/service.go:157-199 | Over every run each final commands row that was not there before is, in its whole content, what the broker answered at that time to a send of that command, or the code it was denied with before any send. |
| `ProtocolProvenance.CancelStatesWereSaid` | internal/kismockedge/cancel.go:84-97 | Over every run each cancel row that says CANCELLED or NOT_FOUND and was not there before is what the broker answered, at that time, to the cancel of that command. |
| `ProtocolProvenance.ResolutionsWereSaid` | internal/kismockedge/resolver.go:190-287 | Over every run each resolution row that was not there before is justified by a read completed for that command's key, under the settings of a call that was made: the one matching order of the day, the order found, or an absence no earlier than the grace after the send. |
| `ProtocolBatch.NobodyIsPassedOver` | internal/kismockedge/resolver.go:74-188 | Whatever runs beside it: when a batch ends without an error, every command stored in a resolved scope when it began has its outcome, or the batch judged it by evidence it had read for it and left it. |
| `ProtocolEvidence.AbsenceIsSound` | internal/kismockedge/resolver.go:190-225 | If the broker holds an order with a command's stored facts inside the window, and every read of its day or client id that is answered, or still to be judged, once the grace is over shows it, no run of batch and single resolvers ever records the command as absent, whatever reads made beside the send in flight said. |
| `ProtocolEvidence.CompleteReadsNeverAbsent` | internal/kismockedge/resolver.go:190-225 | Away from midnight in Korea it is enough that those reads are complete: over every run, a command whose order is in the broker's book is never recorded as absent. |
| `ProtocolEvidence.FreshlyReservedIsNotAbsent` | internal/kismockedge/store.go:476-534 | The premise of that theorem holds from the moment of the reservation, whatever resolvers are running. |
| `ProtocolEvidence.NotAbsentStep` | internal/kismockedge/resolver.go:190-225 | One event of anybody keeps it. |
| `ProtocolEvidence.SharedOrderMeansTwins` | internal/kismockedge/resolver.go:470-508 | Two commands of one KIS scope that ever hold the same order id, by an accepted answer or by a resolver, have numerically equal facts and were sent within twice the window of each other, as long as the broker's answers name orders with the facts sent. |
| `ProtocolEvidence.RunByBook` | internal/kismockedge/resolver.go:470-508 | Every acceptance of a KIS command in a run, answered or resolved, names an order of the broker's book with the command's facts inside the window. |
| `ProtocolEvidence.ByBookStep` | internal/kismockedge/resolver.go:470-508 | One event of anybody keeps that. |
| `ProtocolEvidence.NewFinal` | internal/kismockedge/store.go:743-775 | A commands row that is newly ACCEPTED was finalized by the placement that owned it, with that placement's order id. |
| `ProtocolEvidence.RunAbsentOnlyLate` | internal/kismockedge/resolver.go:190-225 | Over every run a resolved_absent row appears only once the grace after the send has passed. |
| `ProtocolEvidence.FreshlyStoredIsAbsentOnlyLate` | internal/kismockedge/store.go:476-566 | That premise holds in the state right after the command was stored, if the resolvers then running are as patient. |
| `ProtocolEvidence.InTimeOverruledByOrderAlone` | internal/kismockedge/store.go:743-775 | A Finalize that commits inside the grace is overruled in one way alone: a resolver accepted another order for the command before. |
| `ProtocolEvidence.LoneOrderAnswerHolds` | internal/kismockedge/store.go:743-775 | So a placement answered inside the grace, whose order is the only one in the book with its facts inside the window, is never overruled: its answer is the effective outcome in every later state. |
| `ProtocolEvidence.RunOnlyNamed` | internal/kismockedge/resolver.go:227-287 | Over every run, if each read made for an Alpaca command names one order or none, no resolver ever accepts it under another order id. |
| `ProtocolEvidence.FreshlyReservedIsOnlyNamed` | internal/kismockedge/store.go:476-534 | Its premise holds in the state right after the reservation, whatever order id the command will have. |
| `ProtocolEvidence.NamedOrderAnswerHolds` | internal/kismockedge/store.go:743-775 | So an Alpaca placement answered inside the grace is never overruled if the reads by its client order id name the order that was sent: its answer is the effective outcome in every later state. |
| `ProtocolScenarios.LateAcceptanceIsContradicted` | internal/kismockedge/store.go:762-775 | A concrete run in which Finalize answers ACCEPTED without an error while Find says NOT_CREATED and no cancel target exists: the guard on the grace is needed. |
| `ProtocolScenarios.InFlightCheckTakesAnotherOrder` | internal/kismockedge/store.go:762-775 | A concrete run inside the grace in which Finalize answers order 7 without an error while every cancel names order 8: the guard on other orders with the same facts is needed. |
| `ProtocolScenarios.AcceptsAfterCheck` | internal/kismockedge/store.go:743-775 | Wherever a check concluded beside a send in flight, the placement answers its own receipt and the tables keep the check's outcome. |
| `ProtocolScenarios.EarlyReadDeclaresAbsence` | internal/kismockedge/resolver.go:190-225 | A concrete run in which an empty day is read at the instant of the send, judged once the grace is over, and recorded as absence: what is still held when the grace ends must count. |
| `ProtocolScenarios.UnstoredAnswerCanDiffer` | internal/kismockedge/service.go:133-148 | Process with the reserved scope denies an id whose stored order is accepted, and leaves the tables as they are. |
| `ProtocolScenarios.OneOrderAnswersForTwins` | internal/kismockedge/resolver.go:470-484 | Whenever an unresolved command matches the one order an accepted command already holds, a single check gives it the same order id and both become cancellable by it. |
| `ProtocolScenarios.TwinsTakeOneOrder` | internal/kismockedge/resolver.go:470-484 | Wherever two commands are placed one after the other and the second has the facts of the first one's order, a check beside the second send gives it that order too, and a cancel of either names it. |
| `ProtocolScenarios.TwinsShareOneOrder` | internal/kismockedge/resolver.go:470-484 | A concrete run from empty tables: the same order placed twice ends with both cancel targets naming one order id. |
| `Evidence.CompleteDayShowsOrder` | internal/kismockedge/resolver.go:466-468 | Away from midnight in Korea a complete day read lists a command's order wherever in the window it was dated, so it is not judged absent. |
| `ProtocolScenarios.OrderPastMidnightIsDeclaredAbsent` | internal/kismockedge/resolver.go:466-508 | Across midnight it need not: an order inside the window is declared absent although the one day read was complete. |
| `Evidence.OneDayCoversWindow` | internal/kismockedge/resolver.go:466-468 | The single day that is read covers the whole match window if and only if the send was at least the window after, and more than the window before, midnight in Korea. |
| `Evidence.CompleteReadsSufficeIff` | internal/kismockedge/resolver.go:466-508 | Complete reads of the one day rule absence out for every order that can be meant if and only if the send was at least the window after, and more than the window before, midnight in Korea; nearer to it some matching order inside the window is declared absent. |
| `Evidence.DayDecides` | internal/kismockedge/resolver.go:190-225 | For every listing, by the indices of its matching rows: exactly one accepts with its order id, two or more leave, none is an absence if and only if the grace is over and the command has a context or the day is empty. |
| `Evidence.LookupDecides` | internal/kismockedge/resolver.go:256-285 | For every lookup: a found order with an id accepts it, a missing one is an absence once the grace is over, one without an id is that for the single check alone, and a command without its own client order id is left. |
| `Matching.DomesticMatch` | internal/kismockedge/resolver.go:470-484 | A domestic order answers for a command exactly when side and stock are the same, quantity and price are as numbers, and it is dated within the window of the send. |
| `Matching.OverseasMatch` | internal/kismockedge/resolver.go:494-508 | An overseas order likewise, by its normalized symbol and with prices compared as real numbers. |
| `Matching.ClassSharesAgree` | internal/kismockedge/resolver.go:518-520 | A share class reads the same written with a slash or with a dot. |
| `Evidence.WindowIsDistance` | internal/kismockedge/resolver.go:534-539 | The saturating window test is the distance test, except that an order dated 2^63 ns or more before the send always passes it. |
| `Evidence.MatchRulesOutAbsence` | internal/kismockedge/resolver.go:190-225 | A listed order that matches a command rules out absence; an acceptance then carries that order's id. |
| `Evidence.AcceptanceHasOrder` | internal/kismockedge/resolver.go:190-225 | An acceptance comes from a listed order with the command's facts inside its window. |
| `Evidence.MatchingOrders` | internal/kismockedge/resolver.go:470-508 | The matching loop returns exactly the matching orders in order, and nothing without a context. |
| `Evidence.Matching` | internal/kismockedge/resolver.go:470-508 | An order is in the result if and only if it is listed and matches. |
| `Resolver.ResolveOne` | internal/kismockedge/resolver.go:302-464 | Writes exactly the row the verdict calls for, or nothing; answers the effective receipt after the check, or the one read first when a statement errs, the evidence fields of the read (needed, unavailable or completed, orders seen, matched) and the closed code, among them the reader's own. |
| `Resolver.AskedDecides` | internal/kismockedge/resolver.go:335-397 | An item nobody can be asked about, or whose read failed, is left by batch and single check alike; any other is judged by what its reader said. |
| `Resolver.RowsByListing` | internal/kismockedge/resolver.go:190-225 | For single check and batch alike: the row the tables gain for a KIS command they got to is settled by the rows of its listing alone, as above. |
| `Resolver.RowsByLookup` | internal/kismockedge/resolver.go:256-287 | The row of an Alpaca command by what its lookup found. |
| `Resolver.ReportCounts` | internal/kismockedge/resolver.go:407-421 | The counts of an answer are all rows of the day and exactly those that match. |
| `Resolver.Resolve` | internal/kismockedge/resolver.go:74-106 | Stopped or not, a batch adds exactly the rows of the items it got to: those whose earlier days and earlier items were all concluded, and Alpaca ones only once all KIS ones were. It returns exactly the receipts of the finished days and of every Alpaca item it got past, each once, and counts exactly these items and the reads that failed among them. It fails if and only if some conclusion is refused or some statement errs. |
| `Resolver.WholeBatch` | internal/kismockedge/resolver.go:74-106 | A batch that is not stopped gets to every pending command, reports on every one and counts them all. |
| `Resolver.ResolveKIS` | internal/kismockedge/resolver.go:108-188 | The same for the KIS commands, grouped by scope and day: one failure without a reader, else one for each finished day whose read failed; nothing of the day it stopped in is counted or reported. |
| `Resolver.ResolveDays` | internal/kismockedge/resolver.go:138-187 | The same for the loop over the sorted days. |
| `Resolver.ReportedIffDayConcluded` | internal/kismockedge/resolver.go:142-185 | A row the batch stored has its receipt in the result if and only if its whole day and all earlier ones were concluded: the receipts of the day it stopped in are dropped although their rows stand. |
| `Resolver.StopsInDay` | internal/kismockedge/resolver.go:138-187 | A run over the sorted days that meets an item it cannot conclude has finished exactly the days before and reached exactly the items up to that one. |
| `Resolver.ResolveDay` | internal/kismockedge/resolver.go:142-185 | One failed or completed day read judges exactly the commands of its day up to the first it cannot conclude, and counts its failure. |
| `Resolver.ResolveEvidence` | internal/kismockedge/resolver.go:190-225 | The item loop judges the items against the one read, in order, up to the first it cannot conclude: the rows of those it reached, the receipts of those it got past. |
| `Resolver.ResolveItem` | internal/kismockedge/resolver.go:190-225 | One item is left or gets its own row, and its receipt if the statement did not err. |
| `Resolver.ResolveAlpaca` | internal/kismockedge/resolver.go:227-287 | The same for the Alpaca commands, looked up by client order id: receipts of every item it got past, also when it stops; a failure is a lookup that errs or finds an order without an id. |
| `Resolver.ResolveMapped` | internal/kismockedge/resolver.go:256-286 | The loop over those whose client order id is known. |
| `Resolver.GroupByDay` | internal/kismockedge/resolver.go:125-129 | Groups partition the pending commands by scope and day, keeping their order. |
| `Resolver.SortDays` | internal/kismockedge/resolver.go:130-139 | Every group once, by scope and then by day. |
| `Resolver.WroteDetermines` | internal/kismockedge/resolver.go:74-287 | The description of a batch's effect leaves no freedom, so the grouping and the order of the reads cannot show. |
| `Resolver.VerdictsPart` | internal/kismockedge/resolver.go:386-391 | Batch and single check judge a command alike if and only if it is not an Alpaca command past its grace whose order was found without an id. |
| `Resolver.SingleChecksWrite` | internal/kismockedge/resolver.go:302-447 | Single checks of distinct pending commands one after the other write exactly their own rows. |
| `Resolver.BatchIsEverySingleCheck` | internal/kismockedge/resolver.go:74-287 | With readers that never report an order without an id, and statements that do not err, a batch leaves exactly the tables that single checks of the pending commands leave, in whatever order they are checked; and the batch succeeds. |
| `Resolver.WellBehavedConcludes` | internal/kismockedge/resolver.go:190-225 | With such readers and statements every verdict is concluded and both callers agree on it. |
| `TokenLock.IssuesAreSpaced` | internal/gatewayd/ensure.go:125-174 | Over any number of concurrent Ensure calls, faults and crashes, no issue starts between a successful cache write and its token's expiry less the provider's buffer, provided the call limits add up to less than the lock's time to live. |
| `TokenLock.IssuesAndWritesHoldTheLock` | internal/gatewayd/ensure.go:141-173 | Every issue and every cache write is made by the caller whose own lock is live, while nobody else is between taking a lock and publishing. |
| `TokenLock.LiveLockFallsOnlyToItsOwner` | internal/gatewayd/ensure.go:242-246 | No event removes or replaces a live lock but its owner's own release, however late a release comes. |
| `TokenLock.HoldersLiveIffLimitsFit` | internal/gatewayd/redis.go:213-236 | In every run callers own a live lock all the way to their cache write, if and only if the limits of lock reply, read, issue and write add up to less than the lock's time to live. |
| `TokenLock.RedisLimitsSuffice` | internal/gatewayd/redis.go:213-236 | For redis:// they add up to five seconds less. |
| `TokenLock.RunKeeps` | internal/gatewayd/ensure.go:125-174 | The invariant of lock, cache and log holds in every state of every run. |
| `TokenLock.NextKeeps` | internal/gatewayd/ensure.go:125-174 | Every event keeps it. |
| `TokenLock.LockTurnKeeps` | internal/gatewayd/redis.go:129-156 | Lock values are never drawn twice and a holder's time is bounded by the limits of the calls it made. |
| `TokenLock.LogTurnKeeps` | internal/kismockread/token.go:82-86 | Past the second look at the cache every token set before is stale; otherwise the cache still holds one that outlives it, because its time to live outlasts the freshness interval. |
| `TokenLock.TimeoutIsNeverEarly` | internal/gatewayd/ensure.go:211-240 | A caller gives up waiting no earlier than the initial wait and the whole timeout after it found the lock taken. |
| `TokenLock.PollsCoverTimeout` | internal/gatewayd/ensure.go:222-239 | The number of looks covers the timeout without a whole interval to spare. |
| `TokenLock.OutcomeIffEarned` | internal/gatewayd/ensure.go:125-174 | Over every run a caller ends with an outcome if and only if a step of its own earned it: FRESH by a faultless look at a cache whose token is good for longer than the margin, counted from a reading taken before the look; issued by the confirmed write of its token; a timeout by its last look at none; unavailable by an error or an unusable token. |
| `TokenLock.LookDecides` | internal/kismockread/token.go:82-86 | A faultless look ends FRESH if and only if the cache holds such a token; otherwise the caller goes for the lock, issues, or waits on. Nothing but a look ends FRESH. |
| `TokenLock.IssueIsPublished` | internal/gatewayd/ensure.go:157-173 | Whatever others do in between: a usable token is written with its own expiry counted from the answer, under a key that outlives it by a minute (for Toss by nothing); an unusable one changes nothing. |
| `TokenLock.LockIsTakenAndFreed` | internal/gatewayd/redis.go:129-156 | A lock is taken for thirty seconds exactly when none is live; a release frees the caller's own live lock and leaves any other. |
| `TokenGateway.Gateway.Ensure` | internal/gatewayd/ensure.go:125-174 | Under arbitrary interference between any two calls the method runs as one caller in a recorded run of the protocol and returns what that caller ended with; it returns an outcome if and only if one of its own steps since it began earned it, so FRESH exactly after a look at a fresh token. |
| `TokenGateway.Gateway.IssueOrWait` | internal/gatewayd/ensure.go:137-173 | Lock or wait, second look, issue, publish and release, each a turn of the protocol. |
| `TokenGateway.Gateway.TakeLock` | internal/gatewayd/redis.go:129-145 | Ends owning a fresh lock value, waiting, or with an error that may leave a lock nobody releases. |
| `TokenGateway.Gateway.Recheck` | internal/gatewayd/ensure.go:147-156 | The second look, after which the issue or the release of the own lock is due; nothing is issued by it. |
| `TokenGateway.Gateway.StartIssue` | internal/gatewayd/ensure.go:157-157 | The start of the issue is a call of its own, made whatever others did since the second look. |
| `TokenGateway.Gateway.IssueAndPublish` | internal/gatewayd/ensure.go:157-173 | An accepted answer is published before the release; every other outcome releases. |
| `TokenGateway.Gateway.WaitForFreshToken` | internal/gatewayd/ensure.go:211-240 | The polling loop is a bounded sequence of waits and looks and ends with its caller's answer. |
| `TokenGateway.Gateway.ReleaseLock` | internal/gatewayd/ensure.go:242-246 | Releases on every path, removing only the own value. |
| `TokenGateway.Gateway.SetNX` | internal/gatewayd/redis.go:129-145 | Takes the lock exactly when no live one is there. |
| `TokenGateway.Gateway.CompareAndDelete` | internal/gatewayd/redis.go:149-156 | Deletes the lock exactly when it is live and carries the given value. |
| `TokenGateway.Gateway.Promises` | internal/gatewayd/ensure.go:125-174 | Whatever ran, issues are spaced and whoever issues or writes next owns the live lock. |
| `Paging.DomesticHistory` | internal/kismockread/order_history.go:54-103 | Without an error the result is the pages of the one complete chain and nothing else: the rows of each page as one block right behind those of the pages before it; with one it is empty and there is no complete chain. |
| `Paging.OverseasHistory` | internal/kismockread/order_history.go:232-288 | Without an error exactly the order ids of all pages of the complete chain, each once, the first row for each, in the order of the pages; with one nothing, and there is no complete chain. |
| `Paging.CountPages` | internal/kismockread/runner.go:196-272 | Without an error the number of pages of the complete chain and the sum of their rows. |
| `Paging.NextCursor` | internal/kismockread/runner.go:394-421 | Terminal exactly when the page says so, continuing exactly when it names both cursor fields and its header allows it, otherwise broken. |
| `Paging.SucceedsIffComplete` | internal/kismockread/order_history.go:54-103 | For any broker a read succeeds if and only if a complete chain within the bound exists, and then returns its pages as consecutive blocks and nothing else: never a partial list. |
| `Paging.ShippedReadsSucceedIffComplete` | internal/kismockread/spec.go:36-78 | The four reads that are made succeed if and only if a complete chain within their own bound of 10 or 100 pages exists, and return exactly its pages. |
| `Paging.PagedListIsRead` | internal/kismockread/runner.go:196-272 | A broker that splits any list over pages within the bound, each naming another cursor and the last saying so, is read back whole. |
| `Paging.IdsOfPages` | internal/kismockread/order_history.go:232-288 | What is read has exactly the order ids of the pages. |
| `Paging.ErrorTold` | internal/kismockread/order_history.go:54-103 | An error is that of the failed request at which the chain stopped, and otherwise response_invalid. |
| `Paging.OutcomeIsExact` | internal/kismockread/order_history.go:54-103 | There is at most one complete chain, and a read that errs had none. |
| `Paging.CompleteIsLongest` | internal/kismockread/runner.go:394-421 | No chain goes past the end of a complete one. |
| `Paging.CompleteNeverRevisits` | internal/kismockread/order_history.go:94-101 | Over a broker whose answers depend on the cursor alone a complete chain never comes back to a cursor. |
| `Paging.CycleIsNeverComplete` | internal/kismockread/order_history.go:94-101 | A chain that comes back to a cursor, however long its period, is never read as a complete history. |
| `Paging.AppendUnseen` | internal/kismockread/order_history.go:266-274 | The inner loop with its set of seen ids keeps exactly the first rows. |
| `Paging.FirstsAreDistinct` | internal/kismockread/order_history.go:266-274 | The ids kept are distinct and none that was listed is missing. |
| `Paging.FirstsKeepFirsts` | internal/kismockread/order_history.go:266-274 | A row is kept if and only if no earlier row carries its id, and rows keep their order. |
| `Paging.DistinctKeepsAll` | internal/kismockread/order_history.go:266-274 | A list without repeated ids is kept whole. |
| `Ticks.AdjustTickSize` | internal/kismockedge/validation.go:199-215 | A sell rounds to the least accepted price at or above, a buy to the greatest at or below, across tiers; zero becomes one; other sides and negative prices are refused. |
| `Ticks.TickMatches` | internal/kismockedge/validation.go:219-222 | Both sides accept exactly the positive whole ticks of the price's own tier. |
| `Ticks.AdjustTwice` | internal/kismockedge/validation.go:199-215 | Adjusting is idempotent on either side and always lands on an accepted price. |
| `Ticks.RoundsUp` | internal/canary/canary.go:539-546 | Rounding up in the tier of the price gives the least accepted price at or above it, also where it reaches the next tier. |
| `Ticks.RoundsDown` | internal/kismockedge/validation.go:199-215 | Rounding down never leaves the tier and gives the greatest accepted price at or below. |
| `Ticks.ValidateKISMock` | internal/kismockedge/validation.go:68-82 | The verdict is invalid_command for malformed fields, tick_mismatch exactly for well-formed prices off a tick, and acceptance otherwise. |
| `CanaryPrice.RoundUpToTick` | internal/canary/canary.go:539-546 | The least price at or above the given one that the edge accepts. |
| `CanaryPrice.RoundLikeSell` | internal/canary/canary.go:539-546 | The canary's rounding equals the sell side of the edge's own adjustment. |
| `CanaryPrice.FloorLikeRounding` | internal/canary/canary.go:551-564 | The band floor equals rounding 0.7 of the base up to a won and that up to a tick. |
| `CanaryPrice.BandFloor` | internal/canary/canary.go:551-564 | The least accepted price at or above 0.7 of the base rounded up to a won, and less than one tick above 0.7 of the base. |
| `CanaryPrice.ScaledMultiple` | internal/canary/canary.go:551-564 | The integer computation in tenths rounds as the ceiling of seven tenths would. |
| `CanaryPrice.DerivePrice` | internal/canary/canary.go:525-533 | The lower limit if it reads as a positive number, else 0.7 of the base price, rounded up to a tick; no price otherwise. |
| `CanaryPrice.LowerLimitComesFirst` | internal/canary/canary.go:525-533 | A readable lower limit decides the price alone; only without one the base price does, and then the price is the least accepted one at or above seven tenths of it. |
| `CanaryPrice.ReadPositive` | internal/canary/canary.go:566-574 | Accepts exactly positive numerals, of any length. |
| `CanaryPrice.DerivedPriceVerdict` | internal/kismockedge/validation.go:68-82 | The printed derived price is never a tick mismatch at the edge and is accepted if and only if it has at most 128 digits. |
| `CanaryPrice.DerivedPriceIsAccepted` | internal/kismockedge/validation.go:244-255 | Band fields of at most 127 characters, hence the sixteen digits the inquiry passes on, always give an accepted price. |
| `CanaryPrice.NinesGrowADigit` | internal/kismockedge/validation.go:244-255 | A lower limit of n nines gives a price of n + 1 digits, so the bound of 127 is exact. |
| `Decimals.PositiveInteger` | internal/kismockedge/validation.go:244-255 | Accepts exactly positive numerals of at most 128 digits and reads their value. |
| `Decimals.PositiveDecimal` | internal/kismockedge/validation.go:260-280 | The scan accepts exactly positive decimals of at most 128 characters without a bare dot and reads them as exact fractions. |
| `Decimals.SameIffCanonical` | internal/kismockedge/resolver.go:528-532 | Two positive decimals compare equal if and only if they agree after dropping leading zeros and trailing fractional zeros. |
| `Decimals.SameDecimalTransitive` | internal/kismockedge/resolver.go:528-532 | Comparing equal is transitive and symmetric. |
| `Numerals.ReadPrinted` | internal/canary/canary.go:525-564 | A printed number reads back as itself. |
| `Numerals.PrintedLength` | internal/canary/canary.go:525-564 | A printed number has at most k digits if and only if it is below the k-th power of ten. |
| `Caps.ValidateOrderCaps` | internal/kismockedge/validation.go:114-125 | By scope, exactly the verdict below; unknown scopes are invalid. |
| `Caps.ShareCaps` | internal/kismockedge/validation.go:127-141 | Exceeded exactly above 100 shares or above 1,000,000 won of quantity times price. |
| `Caps.USShareCaps` | internal/kismockedge/validation.go:143-157 | Exceeded exactly above 100 shares or when the real product of quantity and price exceeds 1,000 dollars. |
| `Caps.AlpacaCaps` | internal/kismockedge/validation.go:159-170 | Exceeded exactly when the real product of quantity and price exceeds 10 dollars. |
| `Caps.CapsInNumbers` | internal/kismockedge/validation.go:114-170 | In numbers: 100 shares and 1,000,000 won, 100 shares and 1,000 dollars, 10 dollars pass, and anything above is refused. |
| `Caps.DecimalDenotes` | internal/kismockedge/validation.go:260-280 | A decimal denotes its whole part and its fraction over the power of ten of its length. |
| `Caps.ProductAtMost` | internal/kismockedge/validation.go:143-170 | Comparing a product of fractions by cross multiplication compares the real numbers. |
| `Caps.SameIsEqual` | internal/kismockedge/resolver.go:528-532 | Decimals compare equal if and only if they denote the same real number. |
| `Caps.VerdictDependsOnValue` | internal/kismockedge/validation.go:114-170 | Rewriting quantity or price without changing its value never changes a cap verdict. |
| `Masker.SecretMasker.MaskNeedles` | internal/kismockedge/rejection.go:86-91 | No configured needle that markers cannot take part in is left, whichever needles are replaced after it. |
| `Masker.SecretMasker.MaskText` | internal/kismockedge/rejection.go:71-79 | The result is the text with needles, account shapes and credential shapes replaced, cut to its longest prefix within the bound; no safe needle, no run of eight digits and none of twenty-four token characters is left in it. |
| `Masker.SecretMasker.MaskCode` | internal/kismockedge/rejection.go:117-134 | Codes lose exactly the needles and are cut; no safe needle is left. |
| `Masker.SecretMasker.HarmlessTextIsKept` | internal/kismockedge/rejection.go:71-79 | A text without secrets and secret-shaped runs passes unchanged. |
| `Masker.SecretMasker.MaskedIsClean` | internal/kismockedge/rejection.go:86-91 | After each needle no safe needle replaced so far is left. |
| `Masker.Survivor` | internal/kismockedge/rejection.go:71-91 | Every occurrence of a safe needle after a replacement was copied from one before it at which nothing matched. |
| `Masker.StaysAbsent` | internal/kismockedge/rejection.go:71-91 | Replacing anything never creates a safe needle. |
| `Masker.Removes` | internal/kismockedge/rejection.go:71-91 | Replacing everything that starts with a safe needle removes it. |
| `Masker.MaskingIsExact` | internal/kismockedge/rejection.go:86-91 | With any number of needles that have no brackets, that are part of the marker or that no marker can take part in, masking removes every one of them from every text if and only if none is part of the marker. |
| `Masker.OneNeedleIsExact` | internal/kismockedge/rejection.go:86-91 | One needle with at most one opening bracket is removed from every text if and only if no overlap of it with a marker agrees. |
| `Masker.BracketlessEntangled` | internal/kismockedge/rejection.go:86-91 | A needle without brackets can share characters with a marker if and only if it is part of the marker's word. |
| `Masker.SafeNeedlesGo` | internal/kismockedge/rejection.go:86-91 | Needles of any kind, brackets or not, are removed from every text when no overlap of theirs with a marker agrees. |
| `Masker.MarkerEndReturns` | internal/kismockedge/rejection.go:86-91 | Every needle that starts with an end of the marker can come back: a text in which it is left. |
| `Masker.BracketReturns` | internal/kismockedge/rejection.go:86-91 | Every needle whose first opening bracket could be a marker's has a text in which it is left. |
| `Masker.BracketNeedleReturns` | internal/kismockedge/rejection.go:86-91 | A needle with a bracket can be completed by its own marker: a concrete text in which it is left. |
| `Masker.AccountCatches` | internal/kismockedge/rejection.go:36-38 | Wherever eight digits start, the account pattern matches. |
| `Masker.CredentialCatches` | internal/kismockedge/rejection.go:40-42 | Wherever twenty-four token characters start, the credential pattern matches. |
| `Masker.ShapesLeaveOneMarker` | internal/kismockedge/rejection.go:36-42 | An account number leaves one marker, dashed or not, and so does a run of token characters of any length from twenty-four. |
| `Masker.NewSecretMasker` | internal/kismockedge/rejection.go:51-66 | The needles are exactly the trimmed candidates of at least six bytes, longest first: keys, token and every spelling of the account. |
| `Masker.SecretsAre` | internal/kismockedge/rejection.go:51-66 | The secrets are both keys, the token, the account number as configured and its spellings, whichever way it was configured, and nothing else. |
| `Masker.SplitAccountNo` | internal/kismockedge/broker.go:400-412 | An accepted account number splits into eight digits and a two-digit product. |
| `Masker.MaskForReceipt` | internal/kismockedge/rejection.go:51-79 | No configured key, token or spelling of the account, as configured or trimmed, reaches a receipt, if it is long enough and its needle is safe. |
| `Resp.FrameIsRead` | internal/gatewayd/redis.go:262-315 | Any value up to the limit, CR LF included, is read back as the same bytes with the stream left exactly behind it. |
| `Resp.FramesAreRead` | internal/gatewayd/redis.go:238-254 | Any sequence of values is read back one by one, whatever follows. |
| `Resp.FramesAreUnambiguous` | internal/gatewayd/redis.go:238-254 | Two commands of as many values never look alike on the wire. |
| `Resp.CutFrameIsBad` | internal/gatewayd/redis.go:286-305 | Every proper prefix of a framed value is an error, never a shorter value. |
| `Resp.LongFrameIsBad` | internal/gatewayd/redis.go:298-300 | A value above the limit is refused by the reader. |
| `Resp.RepliesOnTheWire` | internal/gatewayd/redis.go:262-315 | Every form of reply: nil for a bulk length of minus one and for an underscore, lines for plus and colon, an error for anything else. |
| `Resp.ReplyIsSelfDelimiting` | internal/gatewayd/redis.go:262-315 | A reply of any kind depends on the bytes it used alone, and no proper prefix of these reads as a reply. |
| `Resp.WriteArray` | internal/gatewayd/redis.go:238-254 | Frames exactly one to eight values within the limit, and fails otherwise. |
| `Resp.CommandAnnouncesCount` | internal/gatewayd/redis.go:238-254 | A command announces how many values follow, and these are its frames. |
| `Resp.Reader.ReadReply` | internal/gatewayd/redis.go:262-315 | Reads exactly what the specification of the stream says and stands exactly behind it. |
| `Resp.Reader.ReadLine` | internal/gatewayd/redis.go:317-323 | Reads up to the first line feed, which must end in CR LF within the limit. |
| `CanaryRun.Run.Execute` | internal/canary/canary.go:279-383 | Whatever the edge answers: requests are lawful, all under the own command id; outcome, stage, error code, rejection, band and check are what the answers make of them; the outcome is ok if and only if the placement itself was accepted and its cancel answered CANCELLED. |
| `CanaryRun.Run.PlaceOrder` | internal/canary/canary.go:340-383 | One placement; then a cancel after acceptance, nothing after NOT_CREATED, a check after anything else; the record by the answers. |
| `CanaryRun.AfterPlace` | internal/canary/canary.go:340-445 | The record of a run that placed ends ok if and only if the placement was accepted and its own cancel succeeded. |
| `CanaryRun.AfterCheck` | internal/canary/canary.go:390-445 | A cleanup never relabels a failed placement ok: one that succeeds moves the stage alone. |
| `CanaryRun.Run.CheckOwnOrder` | internal/canary/canary.go:390-445 | One check; a cancel only of an order it proved; the record and the check's own evidence, cancel state included, exactly by the answers. |
| `CanaryRun.Run.CancelOwn` | internal/canary/canary.go:452-491 | One cancel of the own command; outcome, stage and error fields exactly by its answer. |
| `CanaryRun.Run.GetPrice` | internal/canary/canary.go:504-520 | A price exactly from a usable band answer for the asked symbol; the band that could be read is recorded either way, and a timeout is told apart. |
| `CanaryRun.NeverRepeats` | internal/canary/canary.go:248-249 | In a lawful run no request is repeated: at most one placement, one check and one cancel. |
| `CanaryRun.Standing` | internal/canary/canary.go:279-491 | Each kind of request has one place in a lawful run; a cancel follows only an accepted placement or a check that proved the order. |
| `CanaryRun.Run.PlacedLawfully` | internal/canary/canary.go:340-445 | The requests of a run that placed are lawful, and it is a round trip if and only if the placement was accepted and the cancel succeeded. |
| `CanaryRun.CanaryOrderIsValid` | internal/kismockedge/validation.go:68-141 | The canary's order passes the edge's structural check for any band with fields of at most 127 characters, and its caps up to a price of a million won. |

## Left out

- HTTP, TLS, redirects, header checks and JSON decoding: parsed values are inputs, and what the
  broker or the edge answers is arbitrary.
- SQLite itself, migrations and schema_version: each statement is atomic and does what its text
  says; timestamps are numbers, so rows with unparsable times are not modelled.
- The kis_live witness table and its echo: write-once and independent of the commands.
- Metrics, CLI, environment, listeners, the textfile writer, deploy scripts, the kislive table.
- SelectScope and time-zone data: the session is an input of the canary run.
- Fractions of a second in token payloads: an expiry is a whole number of nanoseconds.
- Randomness: lock values are distinct, and command ids are what the caller passes.
- Structural validation inside the protocol: whether a command is rejected before its reservation
  is an arbitrary input there; the kis_mock rule itself is in `Ticks`.
- The wire text of a rejection other than its masking, and the replacement of members that are not
  strings. Texts are sequences of characters; a needle that is a part of a UTF-8 sequence does not
  occur.
- Reads under one batch of `Resolver` see one reader answer for each scope and day; the protocol
  instead lets every read answer anything.
- Edge.Edge.Process: faults are chosen by the environment, so the contract does not say that a
  statement succeeds, only what was answered when it did or did not.
- Edge.Edge.ResolveOne: an error is one answer there; the evidence fields and the closed codes of an
  answer are in `Resolver.ResolveOne`.
- TokenLock.HoldersLiveIffLimitsFit: limits count from the instant a call starts; a pause of the
  process itself between two calls, and the handshake of rediss://, have no limit in the code and
  fall under the premise; the time from the second look to the issue counts against the look's.
- Requests and rows of paged reads: the text of a request and the parsing of a row are not
  modelled; the request number and the cursor decide the answer.
- CanaryRun.Run.Execute: stage durations and the counts of the order check are not modelled.
- Resp.Reader.ReadReply: a failed read leaves the stream wherever it stopped, since the caller
  closes it.
- Masker.MaskingIsExact: several needles that overlap the ends of the marker without being part of it,
  and single ones with two opening brackets, have one-sided conditions: removed when no overlap with
  a marker agrees (`SafeNeedlesGo`), able to come back by themselves when they start with an end of
  the marker or their first opening bracket could be a marker's (`MarkerEndReturns`, `BracketReturns`).
- Resolver.Resolve: errors of the two listing statements, which end a batch before it starts, and of
  the reads of a single check are in `Edge` alone; there the groups are taken in any order.
