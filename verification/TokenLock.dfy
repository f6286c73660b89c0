/**
 * gatewayd's token issuing protocol: any number of Ensure calls on one lock key and one cache
 * key in Redis, with the clock, the expiry of both keys, the time limit of every call and
 * crashes as part of the state. The system is a deterministic function of the next event.
 */
module TokenLock {
  import opened Contracts

  type Pid = nat

  const SECOND: Time := 1_000_000_000
  const LOCK_TTL: Time := 30 * SECOND
  const REDIS_TIMEOUT: Time := 3 * SECOND
  const OAUTH_TIMEOUT: Time := 10 * SECOND
  const MAXIMUM_TOKEN_SECONDS: int := 7 * 24 * 60 * 60

  // ----- providers -----

  datatype Provider = KISMock | KISLive | Toss

  function ExpiryBuffer(p: Provider): Time {
    if p == Toss then 120 * SECOND else 60 * SECOND
  }

  function InitialLockWait(p: Provider): Time {
    if p == Toss then 0 else SECOND / 5
  }

  function PollInterval(p: Provider): Time {
    if p == Toss then SECOND / 20 else SECOND / 10
  }

  function LockWaitTimeout(p: Provider): Time {
    if p == Toss then 5 * SECOND else 3 * SECOND
  }

  function CacheTTL(p: Provider, expiresIn: int): Time {
    expiresIn * SECOND + if p == Toss then 0 else 60 * SECOND
  }

  /** How long each call on the issuing path may take before it fails. A lock reply is read under
      the deadline set once connected; a later Redis call also dials. */
  datatype Limits = Limits(lockReply: Time, read: Time, issue: Time, write: Time)

  const REDIS_LIMITS := Limits(REDIS_TIMEOUT, 2 * REDIS_TIMEOUT, OAUTH_TIMEOUT, 2 * REDIS_TIMEOUT)

  ghost predicate LimitsOk(l: Limits) {
    0 <= l.lockReply && 0 <= l.read && 0 <= l.issue && 0 <= l.write
  }

  /** The longest time from the lock taking effect to the cache write taking effect. */
  function Holding(l: Limits): Time {
    l.lockReply + l.read + l.issue + l.write
  }

  // ----- state -----

  datatype Lock = Lock(value: nat, expiry: Time)

  datatype Entry = Entry(expiresAt: Time, ttlEnd: Time)

  datatype Outcome = Fresh | Issued | Unavailable | WaitTimeout

  /** `since` is when the lock took effect, `due` the current call's time limit, `asked` the clock
      reading handed to a freshness check before its read, `until` the end of a wait and `began`
      when the lock was found taken. */
  datatype Pc =
    | Checking(asked: Time)
    | Locking
    | LockReply(value: nat, since: Time, due: Time)
    | Rechecking(value: nat, since: Time, due: Time, asked: Time)
      /** No fresh token was seen; the issue is the next call. */
    | Starting(value: nat, since: Time, due: Time)
    | Issuing(value: nat, since: Time, due: Time)
    | Publishing(value: nat, since: Time, due: Time, expiresAt: Time, expiresIn: int)
    | Releasing(value: nat, outcome: Outcome)
    | Waiting(attempts: nat, until: Time, began: Time)
    | Polling(attempts: nat, asked: Time, began: Time)
    | Done(outcome: Outcome)

  datatype Record = IssueStarted(at: Time) | TokenSet(at: Time, expiresAt: Time)

  datatype World = World(
    provider: Provider, limits: Limits, now: Time, nextValue: nat,
    lock: Option<Lock>, cache: Option<Entry>, callers: map<Pid, Pc>, log: seq<Record>)

  /** The lock key as Redis sees it now. */
  function LiveLock(w: World): Option<Lock> {
    if w.lock.Some? && w.now < w.lock.value.expiry then w.lock else None
  }

  /** hasFreshToken: the key must be present, and the reading taken before the GET must precede
      the expiry by the provider's buffer. */
  predicate SeesFresh(w: World, asked: Time) {
    && w.cache.Some? && w.now < w.cache.value.ttlEnd
    && asked < w.cache.value.expiresAt - ExpiryBuffer(w.provider)
  }

  /** ceil(timeout / interval) polls after the first look. */
  function PollAttempts(p: Provider): nat {
    (LockWaitTimeout(p) + PollInterval(p) - 1) / PollInterval(p)
  }

  /** A call may fail without effect, or take effect and still report an error. */
  datatype Fault = Fine | Refused | Lost

  datatype Event =
    | Begin(pid: Pid)
    | Turn(pid: Pid, fault: Fault, expiresIn: int)
    | Crash(pid: Pid)
    | Tick(elapsed: nat)

  function Due(pc: Pc): Option<Time> {
    match pc
    case LockReply(_, _, due) => Some(due)
    case Rechecking(_, _, due, _) => Some(due)
    case Starting(_, _, due) => Some(due)
    case Issuing(_, _, due) => Some(due)
    case Publishing(_, _, due, _, _) => Some(due)
    case _ => None
  }

  /** Time passes only while every limited call can still be under way. */
  predicate MayPass(w: World, elapsed: nat) {
    forall p | p in w.callers && Due(w.callers[p]).Some? :: w.now + elapsed <= Due(w.callers[p]).value
  }

  predicate ValidIssued(p: Provider, expiresIn: int) {
    ExpiryBuffer(p) < expiresIn * SECOND && expiresIn <= MAXIMUM_TOKEN_SECONDS
  }

  /** What one step leaves of the shared keys, and where it takes its caller. */
  datatype Step = Step(pc: Pc, nextValue: nat, lock: Option<Lock>, cache: Option<Entry>, record: Option<Record>)

  /** A step that touches no key. */
  function Moves(w: World, pc: Pc): Step {
    Step(pc, w.nextValue, w.lock, w.cache, None)
  }

  function Exec(w: World, pc: Pc, fault: Fault, expiresIn: int): Step {
    match pc
    case Checking(asked) =>
      Moves(w, if fault != Fine then Done(Unavailable) else if SeesFresh(w, asked) then Done(Fresh) else Locking)
    case Locking =>
      // SET NX with a random value nobody used before. An error leaves a lock nobody releases.
      if fault == Refused then Moves(w, Done(Unavailable))
      else if LiveLock(w).Some? then
        Moves(w, if fault == Lost then Done(Unavailable)
              else Waiting(PollAttempts(w.provider) + 1, w.now + InitialLockWait(w.provider), w.now))
      else
        Step(if fault == Lost then Done(Unavailable) else LockReply(w.nextValue, w.now, w.now + w.limits.lockReply),
             w.nextValue + 1, Some(Lock(w.nextValue, w.now + LOCK_TTL)), w.cache, None)
    case LockReply(value, since, _) =>
      Moves(w, if fault != Fine then Done(Unavailable) else Rechecking(value, since, w.now + w.limits.read, w.now))
    case Rechecking(value, since, due, asked) =>
      Moves(w, if fault != Fine then Releasing(value, Unavailable)
            else if SeesFresh(w, asked) then Releasing(value, Fresh)
            else Starting(value, since, due))
    case Starting(value, since, _) =>
      Moves(w, Issuing(value, since, w.now + w.limits.issue)).(record := Some(IssueStarted(w.now)))
    case Issuing(value, since, _) =>
      Moves(w, if fault != Fine || !ValidIssued(w.provider, expiresIn) then Releasing(value, Unavailable)
            else Publishing(value, since, w.now + w.limits.write, w.now + expiresIn * SECOND, expiresIn))
    case Publishing(value, _, _, expiresAt, lifetime) =>
      if fault == Refused then Moves(w, Releasing(value, Unavailable))
      else
        Step(Releasing(value, if fault == Lost then Unavailable else Issued), w.nextValue, w.lock,
             Some(Entry(expiresAt, w.now + CacheTTL(w.provider, lifetime))), Some(TokenSet(w.now, expiresAt)))
    case Releasing(value, outcome) =>
      // Compare-and-delete: only the caller's own value is removed.
      var mine := LiveLock(w).Some? && LiveLock(w).value.value == value;
      Moves(w, Done(outcome)).(lock := if fault != Refused && mine then None else w.lock)
    case Waiting(attempts, until, began) =>
      Moves(w, if fault != Fine then Done(Unavailable) else if w.now < until then pc else Polling(attempts, w.now,
          began))
    case Polling(attempts, asked, began) =>
      Moves(w, if fault != Fine then Done(Unavailable)
            else if SeesFresh(w, asked) then Done(Fresh)
            else if attempts <= 1 then Done(WaitTimeout)
            else Waiting(attempts - 1, w.now + PollInterval(w.provider), began))
    case Done(_) => Moves(w, pc)
  }

  function TurnOf(w: World, pid: Pid, fault: Fault, expiresIn: int): World
    requires pid in w.callers
  {
    var s := Exec(w, w.callers[pid], fault, expiresIn);
    w.(nextValue := s.nextValue, lock := s.lock, cache := s.cache, callers := w.callers[pid := s.pc],
       log := if s.record.Some? then w.log + [s.record.value] else w.log)
  }

  function Next(w: World, e: Event): World {
    match e
    case Begin(pid) => if pid in w.callers then w else w.(callers := w.callers[pid := Checking(w.now)])
    case Crash(pid) => w.(callers := w.callers - {pid})
    case Tick(elapsed) => if MayPass(w, elapsed) then w.(now := w.now + elapsed) else w
    case Turn(pid, fault, expiresIn) => if pid in w.callers then TurnOf(w, pid, fault, expiresIn) else w
  }

  function Run(w: World, events: seq<Event>): World {
    if events == [] then w else Next(Run(w, events[..|events| - 1]), events[|events| - 1])
  }

  /** Any keys may be there from before; nobody calls yet. */
  ghost predicate Init(w: World) {
    w.callers == map[] && w.log == [] && LimitsOk(w.limits)
    && (w.lock.Some? ==> w.lock.value.value < w.nextValue)
  }

  lemma {:induction false} RunConcat(w: World, a: seq<Event>, b: seq<Event>)
    ensures Run(w, a + b) == Run(Run(w, a), b)
  {
    hide Next;
    if b == [] {
      assert a + b == a;
    } else {
      RunConcat(w, a, b[..|b| - 1]);
      assert (a + b)[..|a + b| - 1] == a + b[..|b| - 1];
    }
  }

  // ----- the invariant -----

  /** The lock value, the instant it was taken and the latest end of the current call, for a
      caller between its lock taking effect and its cache write. */
  function Holder(pc: Pc): Option<(nat, Time, Time)> {
    match pc
    case LockReply(value, since, due) => Some((value, since, due))
    case Rechecking(value, since, due, _) => Some((value, since, due))
    case Starting(value, since, due) => Some((value, since, due))
    case Issuing(value, since, due) => Some((value, since, due))
    case Publishing(value, since, due, _, _) => Some((value, since, due))
    case _ => None
  }

  /** How much of the holding time the stages up to this one may have used. */
  function Budget(l: Limits, pc: Pc): Time {
    match pc
    case LockReply(_, _, _) => l.lockReply
    case Rechecking(_, _, _, _) => l.lockReply + l.read
    case Starting(_, _, _) => l.lockReply + l.read
    case Issuing(_, _, _) => l.lockReply + l.read + l.issue
    case _ => Holding(l)
  }

  ghost predicate HolderOk(w: World, pc: Pc) {
    Holder(pc).Some? ==>
      var (value, since, due) := Holder(pc).value;
      && w.lock == Some(Lock(value, since + LOCK_TTL)) && value < w.nextValue
      && w.now <= due <= since + Budget(w.limits, pc)
  }

  predicate PastRecheck(pc: Pc) {
    pc.Starting? || pc.Issuing? || pc.Publishing?
  }

  /** A token set earlier no longer counts as fresh. */
  predicate Stale(w: World, r: Record) {
    r.TokenSet? ==> w.now >= r.expiresAt - ExpiryBuffer(w.provider)
  }

  /** Either stale, or the cache still holds a token that outlives it. */
  predicate Covered(w: World, r: Record) {
    Stale(w, r) || (r.TokenSet? && w.cache.Some? && w.cache.value.expiresAt >= r.expiresAt
                    && w.cache.value.ttlEnd >= w.cache.value.expiresAt - ExpiryBuffer(w.provider))
  }

  predicate Spaced(p: Provider, earlier: Record, later: Record) {
    earlier.TokenSet? && later.IssueStarted? ==> later.at >= earlier.expiresAt - ExpiryBuffer(p)
  }

  /** The lock value a caller drew and may still release. */
  function ValueOf(pc: Pc): Option<nat> {
    if pc.Releasing? then Some(pc.value)
    else if Holder(pc).Some? then Some(Holder(pc).value.0) else None
  }

  /** Who holds the lock, and for how long yet. Lock values are never drawn twice. */
  ghost predicate LockInv(w: World) {
    && LimitsOk(w.limits) && Holding(w.limits) < LOCK_TTL
    && (w.lock.Some? ==> w.lock.value.value < w.nextValue)
    && (forall p | p in w.callers :: HolderOk(w, w.callers[p]))
    && (forall p | p in w.callers && ValueOf(w.callers[p]).Some? :: ValueOf(w.callers[p]).value < w.nextValue)
    && (forall p, q | p in w.callers && q in w.callers && p != q && ValueOf(w.callers[p]).Some? ::
          ValueOf(w.callers[p]) != ValueOf(w.callers[q]))
  }

  /** What the log of issues and writes has been like. */
  ghost predicate LogInv(w: World) {
    && (forall p | p in w.callers && w.callers[p].Publishing? ::
          w.callers[p].expiresAt <= w.now + w.callers[p].expiresIn * SECOND)
    && (forall i | 0 <= i < |w.log| :: Covered(w, w.log[i]))
    && (forall p, i | p in w.callers && PastRecheck(w.callers[p]) && 0 <= i < |w.log| :: Stale(w, w.log[i]))
    && (forall i, j | 0 <= i < j < |w.log| :: Spaced(w.provider, w.log[i], w.log[j]))
    && (forall p | p in w.callers && Asked(w.callers[p]).Some? :: Asked(w.callers[p]).value <= w.now)
  }

  function Asked(pc: Pc): Option<Time> {
    if pc.Rechecking? then Some(pc.asked) else None
  }

  ghost predicate Inv(w: World) {
    LockInv(w) && LogInv(w)
  }

  /** While a caller holds, its lock is live, so nobody else can take it. */
  lemma HeldLockIsLive(w: World, p: Pid)
    requires LockInv(w) && p in w.callers && Holder(w.callers[p]).Some?
    ensures LiveLock(w).Some? && LiveLock(w) == w.lock
    ensures LiveLock(w).value.value == Holder(w.callers[p]).value.0
  {
    assert HolderOk(w, w.callers[p]);
  }

  /** At most one caller is between taking the lock and publishing. */
  lemma OneHolder(w: World, p: Pid, q: Pid)
    requires LockInv(w) && p in w.callers && q in w.callers
    requires Holder(w.callers[p]).Some? && Holder(w.callers[q]).Some?
    ensures p == q
  {
    HeldLockIsLive(w, p);
    HeldLockIsLive(w, q);
    assert ValueOf(w.callers[p]) == ValueOf(w.callers[q]);
  }

  /** Values are drawn fresh, limits add up, and a live lock is removed only by the caller that
      drew its value. */
  lemma StepLocks(w: World, pc: Pc, fault: Fault, expiresIn: int)
    requires LimitsOk(w.limits) && HolderOk(w, pc) && (w.lock.Some? ==> w.lock.value.value < w.nextValue)
    ensures var s := Exec(w, pc, fault, expiresIn);
            && (s.lock.Some? ==> s.lock.value.value < s.nextValue) && w.nextValue <= s.nextValue
            && HolderOk(w.(lock := s.lock, nextValue := s.nextValue), s.pc)
            && (ValueOf(s.pc).Some? ==>
                  ValueOf(s.pc) == ValueOf(pc) || w.nextValue <= ValueOf(s.pc).value < s.nextValue)
            && (s.lock != w.lock && LiveLock(w).Some? ==> ValueOf(pc) == Some(LiveLock(w).value.value))
  {
  }

  lemma LockTurnKeeps(w: World, pid: Pid, fault: Fault, expiresIn: int)
    requires LockInv(w) && pid in w.callers
    ensures LockInv(TurnOf(w, pid, fault, expiresIn))
  {
    hide Exec;
    var v := TurnOf(w, pid, fault, expiresIn);
    assert HolderOk(w, w.callers[pid]);
    StepLocks(w, w.callers[pid], fault, expiresIn);
    forall q | q in v.callers ensures HolderOk(v, v.callers[q]) {
      if q != pid {
        assert HolderOk(w, w.callers[q]);
        if Holder(w.callers[q]).Some? {
          HeldLockIsLive(w, q);
          assert ValueOf(w.callers[q]) != ValueOf(w.callers[pid]);
        }
      }
    }
  }

  /** What a step does to the log and the cache. */
  lemma StepLogs(w: World, pc: Pc, fault: Fault, expiresIn: int)
    requires pc.Publishing? ==> pc.expiresAt <= w.now + pc.expiresIn * SECOND
    requires pc.Rechecking? ==> pc.asked <= w.now
    ensures var s := Exec(w, pc, fault, expiresIn);
            && (s.pc.Publishing? ==> s.pc.expiresAt <= w.now + s.pc.expiresIn * SECOND)
            && (s.pc.Rechecking? ==> s.pc.asked <= w.now)
            && (PastRecheck(s.pc) && !PastRecheck(pc) ==>
                  && s.record == None && s.cache == w.cache
                  && (w.cache.None? || w.now >= w.cache.value.ttlEnd
                      || w.now >= w.cache.value.expiresAt - ExpiryBuffer(w.provider)))
            && (PastRecheck(s.pc) && PastRecheck(pc) ==>
                  s.cache == w.cache && (s.record == None || s.record == Some(IssueStarted(w.now))))
            && (!PastRecheck(s.pc) ==>
                  || (s.record == None && s.cache == w.cache)
                  || (pc.Publishing? && s.cache.Some? && s.record == Some(TokenSet(w.now, s.cache.value.expiresAt))
                      && s.cache.value.ttlEnd >= s.cache.value.expiresAt - ExpiryBuffer(w.provider)))
  {
  }

  lemma LogTurnKeeps(w: World, pid: Pid, fault: Fault, expiresIn: int)
    requires Inv(w) && pid in w.callers
    ensures LogInv(TurnOf(w, pid, fault, expiresIn))
  {
    hide Exec, LockInv;
    var pc := w.callers[pid];
    var v := TurnOf(w, pid, fault, expiresIn);
    StepLogs(w, pc, fault, expiresIn);
    if pc.Publishing? {
      forall q | q in w.callers && q != pid ensures !PastRecheck(w.callers[q]) {
        if PastRecheck(w.callers[q]) {
          OneHolder(w, pid, q);
        }
      }
    }
    forall i | 0 <= i < |w.log| ensures Covered(v, w.log[i]) && (PastRecheck(v.callers[pid]) ==> Stale(v, w.log[i])) {
      assert Covered(w, w.log[i]);
      if PastRecheck(pc) {
        assert Stale(w, w.log[i]);
      }
    }
  }

  lemma TickKeeps(w: World, elapsed: nat)
    requires Inv(w)
    ensures Inv(Next(w, Tick(elapsed)))
  {
    var v := Next(w, Tick(elapsed));
    forall p | p in v.callers ensures HolderOk(v, v.callers[p]) {
      assert HolderOk(w, w.callers[p]);
    }
    forall i | 0 <= i < |w.log| ensures Covered(v, w.log[i]) {
      assert Covered(w, w.log[i]);
    }
    forall p, i | p in v.callers && PastRecheck(v.callers[p]) && 0 <= i < |v.log| ensures Stale(v, v.log[i]) {
      assert Stale(w, w.log[i]);
    }
  }

  lemma NextKeeps(w: World, e: Event)
    requires Inv(w)
    ensures Inv(Next(w, e))
  {
    hide TurnOf, Spaced;
    match e {
      case Turn(pid, fault, expiresIn) =>
        if pid in w.callers {
          LockTurnKeeps(w, pid, fault, expiresIn);
          LogTurnKeeps(w, pid, fault, expiresIn);
        }
      case Begin(pid) =>
      case Crash(pid) =>
        var v := Next(w, e);
        forall p | p in v.callers ensures HolderOk(v, v.callers[p]) {
          assert HolderOk(w, w.callers[p]);
        }
      case Tick(elapsed) => TickKeeps(w, elapsed);
    }
  }

  lemma {:induction false} RunKeeps(w: World, events: seq<Event>)
    requires Inv(w)
    ensures Inv(Run(w, events))
  {
    hide Inv, Next;
    if events != [] {
      RunKeeps(w, events[..|events| - 1]);
      NextKeeps(Run(w, events[..|events| - 1]), events[|events| - 1]);
    }
  }

  lemma InitHolds(w: World)
    requires Init(w) && Holding(w.limits) < LOCK_TTL
    ensures Inv(w)
  {
  }

  // ----- what the protocol guarantees -----

  /** Token issues are spaced: over any number of concurrent callers, faults and crashes, no issue
      starts in the time from a successful cache write until its token's expiry less the buffer. */
  lemma IssuesAreSpaced(w: World, events: seq<Event>)
    requires Init(w) && Holding(w.limits) < LOCK_TTL
    ensures var v := Run(w, events);
            forall i, j | 0 <= i < j < |v.log| && v.log[i].TokenSet? && v.log[j].IssueStarted? ::
              v.log[j].at >= v.log[i].expiresAt - ExpiryBuffer(w.provider)
  {
    InitHolds(w);
    RunKeeps(w, events);
    ProviderIsFixed(w, events);
    var v := Run(w, events);
    assert forall i, j | 0 <= i < j < |v.log| :: Spaced(v.provider, v.log[i], v.log[j]);
  }

  lemma {:induction false} ProviderIsFixed(w: World, events: seq<Event>)
    ensures Run(w, events).provider == w.provider && Run(w, events).limits == w.limits
  {
    hide Exec;
    if events != [] {
      ProviderIsFixed(w, events[..|events| - 1]);
    }
  }

  /** Every issue and every cache write happens while the caller's own lock is live and nobody
      else is anywhere between taking a lock and publishing. */
  lemma IssuesAndWritesHoldTheLock(w: World, e: Event)
    requires Inv(w) && Next(w, e).log != w.log
    ensures e.Turn? && e.pid in w.callers && Holder(w.callers[e.pid]).Some?
    ensures LiveLock(w).Some? && LiveLock(w).value.value == Holder(w.callers[e.pid]).value.0
    ensures forall q | q in w.callers && q != e.pid :: Holder(w.callers[q]).None?
  {
    var s := Exec(w, w.callers[e.pid], e.fault, e.expiresIn);
    assert s.record.Some?;
    HeldLockIsLive(w, e.pid);
    forall q | q in w.callers && q != e.pid ensures Holder(w.callers[q]).None? {
      if Holder(w.callers[q]).Some? {
        OneHolder(w, e.pid, q);
      }
    }
  }

  /** No event removes or replaces a live lock but its owner's own release, however long ago the
      releasing caller's time to live ran out. */
  lemma LiveLockFallsOnlyToItsOwner(w: World, e: Event)
    requires Inv(w) && LiveLock(w).Some? && Next(w, e).lock != w.lock
    ensures e.Turn? && e.pid in w.callers && w.callers[e.pid].Releasing?
    ensures w.callers[e.pid].value == LiveLock(w).value.value
    ensures forall q | q in w.callers && q != e.pid :: Holder(w.callers[q]).None?
  {
    assert HolderOk(w, w.callers[e.pid]);
    forall q | q in w.callers && q != e.pid ensures Holder(w.callers[q]).None? {
      if Holder(w.callers[q]).Some? {
        HeldLockIsLive(w, q);
      }
    }
  }

  /** For redis:// the limits leave five seconds to spare. */
  lemma RedisLimitsSuffice()
    ensures LimitsOk(REDIS_LIMITS) && Holding(REDIS_LIMITS) + 5 * SECOND == LOCK_TTL
  {
  }

  /** Every caller on its way from the lock to the cache write owns the live lock. */
  ghost predicate HoldersLive(w: World) {
    forall p | p in w.callers && Holder(w.callers[p]).Some? ::
      LiveLock(w).Some? && LiveLock(w).value.value == Holder(w.callers[p]).value.0
  }

  /** A world with one caller, which took the lock when the world started. */
  function Alone(w: World, elapsed: Time, pc: Pc, log: seq<Record>): World {
    w.(now := w.now + elapsed, nextValue := w.nextValue + 1,
       lock := Some(Lock(w.nextValue, w.now + LOCK_TTL)), callers := map[0 := pc], log := log)
  }

  lemma AlonePasses(w: World, elapsed: Time, more: nat, pc: Pc, log: seq<Record>)
    requires Due(pc).Some? && w.now + elapsed + more <= Due(pc).value
    ensures Next(Alone(w, elapsed, pc, log), Tick(more)) == Alone(w, elapsed + more, pc, log)
  {
  }

  lemma AloneTurns(w: World, elapsed: Time, pc: Pc, log: seq<Record>, expiresIn: int)
    ensures var s := Exec(Alone(w, elapsed, pc, log), pc, Fine, expiresIn);
            s.lock == Some(Lock(w.nextValue, w.now + LOCK_TTL)) && s.nextValue == w.nextValue + 1 && s.cache
                == w.cache ==>
              Next(Alone(w, elapsed, pc, log), Turn(0, Fine, expiresIn))
              == Alone(w, elapsed, s.pc, if s.record.Some? then log + [s.record.value] else log)
  {
    var s := Exec(Alone(w, elapsed, pc, log), pc, Fine, expiresIn);
    assert map[0 := pc][0 := s.pc] == map[0 := s.pc];
  }

  lemma Then(w: World, events: seq<Event>, v: World, e: Event)
    requires Run(w, events) == v
    ensures Run(w, events + [e]) == Next(v, e)
  {
    hide Next;
    assert (events + [e])[..|events|] == events;
  }

  function Start(): seq<Event> {
    [] + [Begin(0)] + [Turn(0, Fine, 0)] + [Turn(0, Fine, 0)]
  }

  /** The slowest path a single caller can take up to its cache write. */
  function SlowPath(l: Limits): seq<Event>
    requires 0 <= l.lockReply && 0 <= l.read && 0 <= l.issue && 0 <= l.write
  {
    Start() + [Tick(l.lockReply)] + [Turn(0, Fine, 0)] + [Tick(l.read)] + [Turn(0, Fine, 0)] + [Turn(0, Fine, 0)]
    + [Tick(l.issue)] + [Turn(0, Fine, 3600)] + [Tick(l.write)]
  }

  lemma StartTakesLock(w: World)
    requires Init(w) && w.lock == None && w.cache == None
    ensures Run(w, Start()) == Alone(w, 0, LockReply(w.nextValue, w.now, w.now + w.limits.lockReply), [])
  {
    assert Run(w, []) == w;
    hide Next, Run;
    Then(w, [], w, Begin(0));
    var w1 := Next(w, Begin(0));
    Then(w, [] + [Begin(0)], w1, Turn(0, Fine, 0));
    Then(w, [] + [Begin(0)] + [Turn(0, Fine, 0)], Next(w1, Turn(0, Fine, 0)), Turn(0, Fine, 0));
    Opening(w);
  }

  lemma SlowPathEndsPublishing(w: World)
    requires Init(w) && w.lock == None && w.cache == None
    ensures var l := w.limits; var value := w.nextValue; var end := w.now + Holding(l);
            var issued := w.now + l.lockReply + l.read + l.issue;
            Run(w, SlowPath(l))
            == Alone(w, Holding(l), Publishing(value, w.now, end, issued + 3600 * SECOND, 3600),
                     [IssueStarted(w.now + l.lockReply + l.read)])
  {
    hide Next, Run, Alone, Start;
    var l, value, t := w.limits, w.nextValue, w.now;
    var a, b, c := l.lockReply, l.lockReply + l.read, l.lockReply + l.read + l.issue;
    var log, go := [IssueStarted(t + b)], Turn(0, Fine, 0);
    var pc3, pc5, pc7 := LockReply(value, t, t + a), Rechecking(value, t, t + b, t + a), Issuing(value, t, t + c);
    var pc6 := Starting(value, t, t + b);
    var pc9 := Publishing(value, t, t + c + l.write, t + c + 3600 * SECOND, 3600);
    StartTakesLock(w);
    SlowTurns(w);
    AlonePasses(w, 0, l.lockReply, pc3, []);
    AlonePasses(w, a, l.read, pc5, []);
    AlonePasses(w, b, l.issue, pc7, log);
    AlonePasses(w, c, l.write, pc9, log);
    var p4 := Start() + [Tick(l.lockReply)];
    Then(w, Start(), Alone(w, 0, pc3, []), Tick(l.lockReply));
    Then(w, p4, Alone(w, a, pc3, []), go);
    var p6 := p4 + [go] + [Tick(l.read)];
    Then(w, p4 + [go], Alone(w, a, pc5, []), Tick(l.read));
    Then(w, p6, Alone(w, b, pc5, []), go);
    Then(w, p6 + [go], Alone(w, b, pc6, []), go);
    var p8 := p6 + [go] + [go] + [Tick(l.issue)];
    Then(w, p6 + [go] + [go], Alone(w, b, pc7, log), Tick(l.issue));
    Then(w, p8, Alone(w, c, pc7, log), Turn(0, Fine, 3600));
    Then(w, p8 + [Turn(0, Fine, 3600)], Alone(w, c, pc9, log), Tick(l.write));
  }

  lemma Opening(w: World)
    requires Init(w) && w.lock == None && w.cache == None
    ensures Next(Next(Next(w, Begin(0)), Turn(0, Fine, 0)), Turn(0, Fine, 0))
            == Alone(w, 0, LockReply(w.nextValue, w.now, w.now + w.limits.lockReply), [])
  {
    var w1 := Next(w, Begin(0));
    assert w1 == w.(callers := map[0 := Checking(w.now)]);
    var w2 := Next(w1, Turn(0, Fine, 0));
    assert w2 == w.(callers := map[0 := Locking]);
  }

  lemma SlowTurns(w: World)
    requires Init(w) && w.cache == None
    ensures var l, value, t := w.limits, w.nextValue, w.now;
            var a, b, c := l.lockReply, l.lockReply + l.read, l.lockReply + l.read + l.issue;
            var log := [IssueStarted(t + b)];
            && Next(Alone(w, a, LockReply(value, t, t + a), []), Turn(0, Fine, 0))
               == Alone(w, a, Rechecking(value, t, t + b, t + a), [])
            && Next(Alone(w, b, Rechecking(value, t, t + b, t + a), []), Turn(0, Fine, 0))
               == Alone(w, b, Starting(value, t, t + b), [])
            && Next(Alone(w, b, Starting(value, t, t + b), []), Turn(0, Fine, 0))
               == Alone(w, b, Issuing(value, t, t + c), log)
            && Next(Alone(w, c, Issuing(value, t, t + c), log), Turn(0, Fine, 3600))
               == Alone(w, c, Publishing(value, t, t + c + l.write, t + c + 3600 * SECOND, 3600), log)
  {
    hide TurnOf, Next;
    var l, value, t := w.limits, w.nextValue, w.now;
    var a, b, c := l.lockReply, l.lockReply + l.read, l.lockReply + l.read + l.issue;
    AloneTurns(w, a, LockReply(value, t, t + a), [], 0);
    AloneTurns(w, b, Rechecking(value, t, t + b, t + a), [], 0);
    AloneTurns(w, b, Starting(value, t, t + b), [], 0);
    AloneTurns(w, c, Issuing(value, t, t + c), [IssueStarted(t + b)], 3600);
    assert [] + [IssueStarted(t + b)] == [IssueStarted(t + b)];
  }

  /** The holder premise is exact: callers own a live lock all the way to the cache write, in
      every run, if and only if the limits of their calls add up to less than the lock's time to
      live. Where a limit is missing, as for the TLS handshake of rediss://, it can fail. */
  lemma HoldersLiveIffLimitsFit(w: World)
    requires Init(w) && w.lock == None && w.cache == None
    ensures (forall events :: HoldersLive(Run(w, events))) <==> Holding(w.limits) < LOCK_TTL
  {
    if Holding(w.limits) < LOCK_TTL {
      InitHolds(w);
      forall events ensures HoldersLive(Run(w, events)) {
        RunKeeps(w, events);
        var v := Run(w, events);
        forall p | p in v.callers && Holder(v.callers[p]).Some?
          ensures LiveLock(v).Some? && LiveLock(v).value.value == Holder(v.callers[p]).value.0
        {
          HeldLockIsLive(v, p);
        }
      }
    } else {
      SlowPathEndsPublishing(w);
      var v := Run(w, SlowPath(w.limits));
      assert 0 in v.callers && Holder(v.callers[0]).Some? && LiveLock(v).None?;
      assert !HoldersLive(v);
    }
  }

  // ----- what an answer means -----

  predicate About(e: Event, pid: Pid) {
    match e
    case Begin(p) => p == pid
    case Turn(p, _, _) => p == pid
    case Crash(p) => p == pid
    case Tick(_) => false
  }

  predicate Quiet(events: seq<Event>, pid: Pid) {
    forall k | 0 <= k < |events| :: !About(events[k], pid)
  }

  lemma OthersLeaveCaller(w: World, e: Event, pid: Pid)
    requires !About(e, pid) && pid in w.callers
    ensures pid in Next(w, e).callers && Next(w, e).callers[pid] == w.callers[pid]
    ensures Next(w, e).provider == w.provider && Next(w, e).limits == w.limits
  {
    hide Exec;
  }

  lemma {:induction false} QuietLeavesCaller(w: World, events: seq<Event>, pid: Pid)
    requires Quiet(events, pid) && pid in w.callers
    ensures pid in Run(w, events).callers && Run(w, events).callers[pid] == w.callers[pid]
    ensures Run(w, events).provider == w.provider && Run(w, events).limits == w.limits
  {
    hide Next, About;
    if events != [] {
      QuietLeavesCaller(w, events[..|events| - 1], pid);
      OthersLeaveCaller(Run(w, events[..|events| - 1]), events[|events| - 1], pid);
    }
  }

  /** The cache key is present and its token, by a clock reading taken before, is still good for longer
      than the provider's safety margin: a minute, or two for Toss. */
  predicate HoldsFresh(w: World, asked: Time) {
    w.cache.Some? && w.now < w.cache.value.ttlEnd
    && asked + (if w.provider == Toss then 120_000_000_000 else 60_000_000_000) < w.cache.value.expiresAt
  }

  /** The clock reading of a caller about to look at the cache: at first, under the lock, or in a poll. */
  function Looks(pc: Pc): Option<Time> {
    match pc
    case Checking(asked) => Some(asked)
    case Rechecking(_, _, _, asked) => Some(asked)
    case Polling(_, asked, _) => Some(asked)
    case _ => None
  }

  /** The caller has ended with this outcome, or will once it has released its lock. */
  predicate EndsWith(pc: Pc, outcome: Outcome) {
    pc == Done(outcome) || (pc.Releasing? && pc.outcome == outcome)
  }

  /** A look without an error ends FRESH if and only if the cache holds a fresh token. Without one the
      caller goes for the lock, issues, or waits on until its attempts run out; nothing but a look ever
      ends FRESH. */
  lemma LookDecides(w: World, pid: Pid, fault: Fault, expiresIn: int)
    requires pid in w.callers
    ensures var pc, next := w.callers[pid], Next(w, Turn(pid, fault, expiresIn)).callers[pid];
            && (Looks(pc).Some? ==> (EndsWith(next, Fresh) <==> fault == Fine && HoldsFresh(w, Looks(pc).value)))
            && (Looks(pc).Some? && fault == Fine && !HoldsFresh(w, Looks(pc).value) ==>
                  match pc
                  case Checking(_) => next == Locking
                  case Rechecking(value, since, due, _) => next == Starting(value, since, due)
                  case Polling(attempts, _, _) => if attempts <= 1 then next == Done(WaitTimeout) else next.Waiting?
                  case _ => true)
            && (Looks(pc).None? ==> (EndsWith(next, Fresh) <==> EndsWith(pc, Fresh)))
  {
  }

  /** What a provider answers: a token good for longer than the margin and at most a week. */
  predicate Usable(p: Provider, expiresIn: int) {
    (if p == Toss then 120 else 60) < expiresIn <= 604_800
  }

  /** The event is the caller's step that earns the outcome: a look at a fresh token; the confirmed
      write of a token it was issued; the last look of a wait at none; an error of any call on the way,
      or an answer of the provider that cannot be used. */
  predicate Earns(w: World, e: Event, pid: Pid, outcome: Outcome) {
    e.Turn? && e.pid == pid && pid in w.callers &&
    var pc := w.callers[pid];
    match outcome
    case Fresh => e.fault == Fine && Looks(pc).Some? && HoldsFresh(w, Looks(pc).value)
    case Issued => e.fault == Fine && pc.Publishing?
    case WaitTimeout => e.fault == Fine && pc.Polling? && pc.attempts <= 1 && !HoldsFresh(w, pc.asked)
    case Unavailable =>
      (e.fault != Fine && !pc.Starting? && !pc.Releasing? && !pc.Done?)
      || (e.fault == Fine && pc.Issuing? && !Usable(w.provider, e.expiresIn))
  }

  ghost predicate Earned(w: World, events: seq<Event>, pid: Pid, outcome: Outcome) {
    exists k :: 0 <= k < |events| && Earns(Run(w, events[..k]), events[k], pid, outcome)
  }

  lemma EarnedMore(w: World, front: seq<Event>, e: Event, pid: Pid, outcome: Outcome)
    ensures Earned(w, front + [e], pid, outcome)
       <==> Earned(w, front, pid, outcome) || Earns(Run(w, front), e, pid, outcome)
  {
    hide Run, Earns;
    var events := front + [e];
    assert events[..|front|] == front && events[|front|] == e;
    forall k | 0 <= k < |front| ensures events[..k] == front[..k] && events[k] == front[k] {
    }
    if Earned(w, events, pid, outcome) {
      var k :| 0 <= k < |events| && Earns(Run(w, events[..k]), events[k], pid, outcome);
      assert k < |front| ==> Earns(Run(w, front[..k]), front[k], pid, outcome);
    }
    if Earned(w, front, pid, outcome) {
      var k :| 0 <= k < |front| && Earns(Run(w, front[..k]), front[k], pid, outcome);
      assert Earns(Run(w, events[..k]), events[k], pid, outcome);
    }
  }

  /** A caller that started and did not crash ends with an outcome if and only if a step of its own
      earned it. So an answer FRESH always rests on a token that was fresh when the caller looked. */
  lemma {:induction false} OutcomeIffEarned(w: World, events: seq<Event>, pid: Pid, outcome: Outcome)
    requires pid in w.callers && w.callers[pid].Checking? && Crash(pid) !in events
    ensures pid in Run(w, events).callers
    ensures EndsWith(Run(w, events).callers[pid], outcome) <==> Earned(w, events, pid, outcome)
  {
    if events != [] {
      var front, last := events[..|events| - 1], events[|events| - 1];
      assert last in events && front + [last] == events;
      OutcomeIffEarned(w, front, pid, outcome);
      EarnedMore(w, front, last, pid, outcome);
      hide Run, Exec, Earns, Earned;
      EarningStep(Run(w, front), last, pid, outcome);
    }
  }

  lemma EarningStep(w: World, e: Event, pid: Pid, outcome: Outcome)
    requires pid in w.callers && e != Crash(pid)
    ensures pid in Next(w, e).callers
    ensures EndsWith(Next(w, e).callers[pid], outcome)
       <==> EndsWith(w.callers[pid], outcome) || Earns(w, e, pid, outcome)
  {
    if e.Turn? && e.pid == pid {
      assert Next(w, e).callers[pid] == Exec(w, w.callers[pid], e.fault, e.expiresIn).pc;
    } else if !About(e, pid) {
      OthersLeaveCaller(w, e, pid);
    }
  }

  /** The answer to an issue decides the cache: a usable token is written with its own expiry, counted
      from the answer, under a key that outlives it by a minute (for Toss, by nothing), and reported as
      issued if and only if the write was confirmed; any other answer changes nothing. */
  lemma IssueIsPublished(w: World, pid: Pid, expiresIn: int, between: seq<Event>, fault: Fault, x: int)
    requires pid in w.callers && w.callers[pid].Issuing? && Quiet(between, pid)
    ensures var value := w.callers[pid].value; var w1 := Next(w, Turn(pid, Fine, expiresIn));
            && w1.cache == w.cache && w1.log == w.log && pid in w1.callers
            && (!Usable(w.provider, expiresIn) ==> w1.callers[pid] == Releasing(value, Unavailable))
            && (Usable(w.provider, expiresIn) ==>
                  var u := Run(w1, between); var v := Next(u, Turn(pid, fault, x));
                  var good := w.now + expiresIn * 1_000_000_000;
                  var ttl := (expiresIn + if w.provider == Toss then 0 else 60) * 1_000_000_000;
                  && v.cache == (if fault == Refused then u.cache else Some(Entry(good, u.now + ttl)))
                  && v.log == (if fault == Refused then u.log else u.log + [TokenSet(u.now, good)])
                  && pid in v.callers
                  && v.callers[pid] == Releasing(value, if fault == Fine then Issued else Unavailable))
  {
    var w1 := Next(w, Turn(pid, Fine, expiresIn));
    if Usable(w.provider, expiresIn) {
      QuietLeavesCaller(w1, between, pid);
    }
  }

  /** A lock is taken for thirty seconds exactly when none is live; a release that is not refused frees
      the caller's own live lock, and leaves any other alone. */
  lemma LockIsTakenAndFreed(w: World, pid: Pid, fault: Fault, expiresIn: int)
    requires pid in w.callers
    ensures var pc := w.callers[pid]; var v := Next(w, Turn(pid, fault, expiresIn));
            var live := w.lock.Some? && w.now < w.lock.value.expiry;
            && (pc == Locking ==>
                  && v.lock == (if live || fault == Refused then w.lock
                                else Some(Lock(w.nextValue, w.now + 30_000_000_000)))
                  && (fault != Fine <==> v.callers[pid] == Done(Unavailable))
                  && (fault == Fine ==> (live <==> v.callers[pid].Waiting?) && (!live <==> v.callers[pid].LockReply?))
                  && (fault == Fine && !live ==> v.callers[pid].value == w.nextValue))
            && (pc.Releasing? ==>
                  && v.lock == (if fault != Refused && live && w.lock.value.value == pc.value then None else w.lock)
                  && v.callers[pid] == Done(pc.outcome))
  {
  }

  // ----- waiting for another issuer -----

  /** A waiting caller has waited the initial wait and an interval for every look it had. */
  ghost predicate WaitOk(w: World, pc: Pc) {
    var looks := PollAttempts(w.provider) + 1;
    match pc
    case Waiting(attempts, until, began) =>
      1 <= attempts <= looks
      && until >= began + InitialLockWait(w.provider) + (looks - attempts) * PollInterval(w.provider)
    case Polling(attempts, _, began) =>
      1 <= attempts <= looks
      && w.now >= began + InitialLockWait(w.provider) + (looks - attempts) * PollInterval(w.provider)
    case _ => true
  }

  ghost predicate WaitInv(w: World) {
    forall p | p in w.callers :: WaitOk(w, w.callers[p])
  }

  lemma StepWaits(w: World, pc: Pc, fault: Fault, expiresIn: int)
    requires WaitOk(w, pc)
    ensures WaitOk(w, Exec(w, pc, fault, expiresIn).pc)
  {
  }

  lemma {:induction false} RunKeepsWaits(w: World, events: seq<Event>)
    requires WaitInv(w)
    ensures WaitInv(Run(w, events))
  {
    hide Exec;
    if events != [] {
      var (front, e) := (events[..|events| - 1], events[|events| - 1]);
      RunKeepsWaits(w, front);
      var v := Run(w, front);
      if e.Turn? && e.pid in v.callers {
        StepWaits(v, v.callers[e.pid], e.fault, e.expiresIn);
      }
      forall p | p in Next(v, e).callers ensures WaitOk(Next(v, e), Next(v, e).callers[p]) {
        assert p in v.callers ==> WaitOk(v, v.callers[p]);
      }
    }
  }

  /** A caller gives up waiting only after looking once more than the attempts allow, and no
      earlier than the initial wait and the whole timeout after it found the lock taken. */
  lemma TimeoutIsNeverEarly(w: World, events: seq<Event>, pid: Pid, fault: Fault, expiresIn: int)
    requires Init(w)
    requires var v := Run(w, events);
             pid in v.callers && v.callers[pid].Polling?
             && Exec(v, v.callers[pid], fault, expiresIn).pc == Done(WaitTimeout)
    ensures var v := Run(w, events);
            v.now >= v.callers[pid].began + InitialLockWait(w.provider) + LockWaitTimeout(w.provider)
  {
    RunKeepsWaits(w, events);
    ProviderIsFixed(w, events);
    var v := Run(w, events);
    assert WaitOk(v, v.callers[pid]);
    PollsCoverTimeout(w.provider);
  }

  /** The polls cover the timeout without a whole interval to spare. */
  lemma PollsCoverTimeout(p: Provider)
    ensures PollAttempts(p) > 0
    ensures (PollAttempts(p) - 1) * PollInterval(p) < LockWaitTimeout(p) <= PollAttempts(p) * PollInterval(p)
  {
  }
}
