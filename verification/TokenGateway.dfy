/**
 * EnsureService.Ensure as gatewayd runs it: call by call on the shared Redis keys, while any
 * number of other callers act between two of its calls. Each call is recorded as a turn of the
 * protocol, so what the protocol guarantees holds of the method.
 */
module TokenGateway {
  import opened Contracts
  import opened TokenLock

  class Gateway {
    const provider: Provider
    const limits: Limits
    var now: Time
    var nextValue: nat
    var lock: Option<Lock>
    var cache: Option<Entry>
    var callers: map<Pid, Pc>
    var log: seq<Record>
    /** The world as of the last recorded turn, and how it came about. */
    ghost var recorded: World
    ghost var start: World
    ghost var history: seq<Event>

    constructor (which: Provider, times: Limits, at: Time, draws: nat, locked: Option<Lock>, cached: Option<Entry>)
      requires LimitsOk(times) && (locked.Some? ==> locked.value.value < draws)
      ensures Valid() && callers == map[] && log == [] && history == []
      ensures Current() == World(which, times, at, draws, locked, cached, map[], [])
    {
      provider, limits, now, nextValue, lock, cache, callers, log := which, times, at, draws, locked, cached, map[], [];
      recorded := World(which, times, at, draws, locked, cached, map[], []);
      start, history := World(which, times, at, draws, locked, cached, map[], []), [];
    }

    function Current(): World
      reads this
    {
      World(provider, limits, now, nextValue, lock, cache, callers, log)
    }

    ghost predicate Traced()
      reads this
    {
      Init(start) && recorded == Run(start, history)
    }

    /** The gateway's state is the state of a run of the protocol. */
    ghost predicate Valid()
      reads this
    {
      Traced() && Current() == recorded
    }

    /** What any caller may rely on, whatever ran beside it: issues are spaced, and whoever issues
        or writes owns the lock. */
    lemma Promises(e: Event)
      requires Valid() && Holding(limits) < LOCK_TTL
      ensures forall i, j | 0 <= i < j < |log| && log[i].TokenSet? && log[j].IssueStarted? ::
                log[j].at >= log[i].expiresAt - ExpiryBuffer(provider)
      ensures Next(Current(), e).log != log ==>
                e.Turn? && e.pid in callers && Holder(callers[e.pid]).Some?
                && LiveLock(Current()).Some? && LiveLock(Current()).value.value == Holder(callers[e.pid]).value.0
    {
      ProviderIsFixed(start, history);
      IssuesAreSpaced(start, history);
      InitHolds(start);
      RunKeeps(start, history);
      if Next(Current(), e).log != log {
        IssuesAndWritesHoldTheLock(Current(), e);
      }
    }

    /** Record what a caller just did as one event of the protocol. */
    method Note(e: Event, pid: Pid, pc: Pc)
      requires Traced() && Current().(callers := callers[pid := pc]) == Next(recorded, e)
      modifies this`callers, this`recorded, this`history
      ensures Valid() && recorded == Next(old(recorded), e) && callers == old(callers)[pid := pc]
      ensures history == old(history) + [e]
    {
      callers := callers[pid := pc];
      ghost var was := history;
      history := history + [e];
      assert history[..|history| - 1] == was;
      recorded := Next(recorded, e);
    }

    /** The history goes on, without a crash of this caller. */
    predicate Extended(before: seq<Event>, after: seq<Event>, pid: Pid) {
      before <= after && forall k | |before| <= k < |after| :: after[k] != Crash(pid)
    }

    /** Anything anyone else does, in any order: other calls, crashes and the passing of time. */
    method Interfere(pid: Pid)
      requires Valid() && pid in callers
      modifies this
      ensures Valid() && pid in callers && callers[pid] == old(callers[pid])
      ensures start == old(start) && Extended(old(history), history, pid)
    {
      hide Next, Init;
      var events: seq<Event> := *;
      for i := 0 to |events|
        invariant Valid() && pid in callers && callers[pid] == old(callers[pid])
        invariant start == old(start) && Extended(old(history), history, pid)
      {
        if !About(events[i], pid) {
          var w := Next(Current(), events[i]);
          OthersLeaveCaller(Current(), events[i], pid);
          ghost var was := history;
          history := history + [events[i]];
          assert history[..|history| - 1] == was;
          now, nextValue, lock, cache, callers, log := w.now, w.nextValue, w.lock, w.cache, w.callers, w.log;
          recorded := w;
        }
      }
    }

    /** SET key value NX EX: atomic, but a caller told of an error may have taken the lock. */
    method SetNX(fault: Fault) returns (locked: bool, value: nat, err: bool)
      modifies this`lock, this`nextValue
      ensures err == (fault != Fine)
      ensures var taken := LiveLock(old(Current())).Some? || fault == Refused;
              && (taken ==> lock == old(lock) && nextValue == old(nextValue))
              && (!taken ==> lock == Some(Lock(old(nextValue), now + LOCK_TTL)) && nextValue == old(nextValue) + 1)
              && (!err ==> locked == !taken && (locked ==> value == old(nextValue)))
    {
      locked, value, err := false, 0, fault != Fine;
      if fault != Refused && LiveLock(Current()).None? {
        locked, value := true, nextValue;
        lock, nextValue := Some(Lock(nextValue, now + LOCK_TTL)), nextValue + 1;
      }
    }

    /** SET key payload EX. */
    method SetToken(expiresAt: Time, expiresIn: int, fault: Fault) returns (err: bool)
      modifies this`cache, this`log
      ensures err == (fault != Fine)
      ensures fault == Refused ==> cache == old(cache) && log == old(log)
      ensures fault != Refused ==> cache == Some(Entry(expiresAt, now + CacheTTL(provider, expiresIn)))
                                   && log == old(log) + [TokenSet(now, expiresAt)]
    {
      err := fault != Fine;
      if fault != Refused {
        cache := Some(Entry(expiresAt, now + CacheTTL(provider, expiresIn)));
        log := log + [TokenSet(now, expiresAt)];
      }
    }

    /** Delete the lock only while it still carries the caller's own value. */
    method CompareAndDelete(value: nat, fault: Fault)
      modifies this`lock
      ensures lock == if fault != Refused && LiveLock(old(Current())).Some?
          && LiveLock(old(Current())).value.value == value
                      then None else old(lock)
    {
      if fault != Refused && LiveLock(Current()).Some? && LiveLock(Current()).value.value == value {
        lock := None;
      }
    }

    method ReleaseLock(pid: Pid, value: nat, outcome: Outcome)
      requires Valid() && pid in callers && callers[pid] == Releasing(value, outcome)
      modifies this
      ensures Valid() && pid in callers && callers[pid] == Done(outcome)
      ensures start == old(start) && Extended(old(history), history, pid)
    {
      Interfere(pid);
      var fault: Fault := *;
      CompareAndDelete(value, fault);
      Note(Turn(pid, fault, 0), pid, Done(outcome));
    }

    /** One wait, which may be cut short, and one look at the cache. */
    method PollOnce(pid: Pid, attempts: nat) returns (answer: Option<Outcome>)
      requires Valid() && pid in callers && callers[pid].Waiting? && callers[pid].attempts == attempts
      modifies this
      ensures Valid() && pid in callers && start == old(start) && Extended(old(history), history, pid)
      ensures if answer.Some? then callers[pid] == Done(answer.value)
              else attempts > 1 && callers[pid].Waiting? && callers[pid].attempts == attempts - 1
      ensures answer == Some(WaitTimeout) ==> attempts <= 1
    {
      Interfere(pid);
      var pc := callers[pid];
      var cancelled: bool := *;
      if cancelled || now < pc.until {
        answer := Some(Unavailable);
        Note(Turn(pid, Refused, 0), pid, Done(Unavailable));
        return;
      }
      Note(Turn(pid, Fine, 0), pid, Polling(attempts, now, pc.began));
      answer := LookAgain(pid, attempts);
    }

    method LookAgain(pid: Pid, attempts: nat) returns (answer: Option<Outcome>)
      requires Valid() && pid in callers && callers[pid].Polling? && callers[pid].attempts == attempts
      modifies this
      ensures Valid() && pid in callers && start == old(start) && Extended(old(history), history, pid)
      ensures if answer.Some? then callers[pid] == Done(answer.value)
              else attempts > 1 && callers[pid].Waiting? && callers[pid].attempts == attempts - 1
      ensures answer == Some(WaitTimeout) ==> attempts <= 1
    {
      Interfere(pid);
      var pc := callers[pid];
      var failed: bool := *;
      if failed {
        answer := Some(Unavailable);
        Note(Turn(pid, Refused, 0), pid, Done(Unavailable));
      } else if SeesFresh(Current(), pc.asked) {
        answer := Some(Fresh);
        Note(Turn(pid, Fine, 0), pid, Done(Fresh));
      } else if attempts <= 1 {
        answer := Some(WaitTimeout);
        Note(Turn(pid, Fine, 0), pid, Done(WaitTimeout));
      } else {
        answer := None;
        Note(Turn(pid, Fine, 0), pid, Waiting(attempts - 1, now + PollInterval(provider), pc.began));
      }
    }

    /** waitForFreshToken: a first look and then one for each attempt. */
    method WaitForFreshToken(pid: Pid) returns (outcome: Outcome)
      requires Valid() && pid in callers && callers[pid].Waiting?
      requires callers[pid].attempts == PollAttempts(provider) + 1
      modifies this
      ensures Valid() && pid in callers && callers[pid] == Done(outcome)
      ensures start == old(start) && Extended(old(history), history, pid)
    {
      var attempts := PollAttempts(provider) + 1;
      var answer := PollOnce(pid, attempts);
      while answer.None?
        invariant Valid() && pid in callers && start == old(start) && Extended(old(history), history, pid)
        invariant if answer.Some? then callers[pid] == Done(answer.value)
                  else attempts > 1 && callers[pid].Waiting? && callers[pid].attempts == attempts - 1
        decreases attempts, answer.None?
      {
        attempts := attempts - 1;
        answer := PollOnce(pid, attempts);
      }
      outcome := answer.value;
    }

    /** What a turn of a caller between lock and release comes to. */
    lemma Turned(pid: Pid, fault: Fault, expiresIn: int)
      requires pid in callers
      ensures var w := Current(); var pc := callers[pid]; var v := Next(w, Turn(pid, fault, expiresIn));
              var plain := w.(callers := callers[pid := Exec(w, pc, fault, expiresIn).pc]);
              && (pc.LockReply? && fault == Fine ==>
                    v == w.(callers := callers[pid := Rechecking(pc.value, pc.since, now + limits.read, now)]))
              && (pc.Rechecking? && (fault != Fine || SeesFresh(w, pc.asked)) ==>
                    v == w.(callers := callers[pid := Releasing(pc.value, if fault != Fine then Unavailable
                        else Fresh)]))
              && (pc.Rechecking? && fault == Fine && !SeesFresh(w, pc.asked) ==>
                    v == w.(callers := callers[pid := Starting(pc.value, pc.since, pc.due)]))
              && (pc.Starting? ==>
                    v == w.(callers := callers[pid := Issuing(pc.value, pc.since, now + limits.issue)],
                            log := log + [IssueStarted(now)]))
              && (pc.Issuing? && (fault != Fine || !ValidIssued(provider, expiresIn)) ==>
                    v == w.(callers := callers[pid := Releasing(pc.value, Unavailable)]))
              && (pc.Issuing? && fault == Fine && ValidIssued(provider, expiresIn) ==>
                    v == w.(callers := callers[pid := Publishing(pc.value, pc.since, now + limits.write,
                                                                  now + expiresIn * SECOND, expiresIn)]))
              && (pc.Publishing? ==>
                    v == if fault == Refused then w.(callers := callers[pid := Releasing(pc.value, Unavailable)])
                         else w.(callers := callers[pid := Releasing(pc.value, if fault == Lost
                             then Unavailable else Issued)],
                                 cache := Some(Entry(pc.expiresAt, now + CacheTTL(provider, pc.expiresIn))),
                                 log := log + [TokenSet(now, pc.expiresAt)]))
    {
    }

    /** The reply to SET NX and the second look at the cache, after which an issue or a release is due. */
    method Recheck(pid: Pid, value: nat) returns (issue: bool, outcome: Outcome)
      requires Valid() && pid in callers && callers[pid].LockReply? && callers[pid].value == value
      modifies this
      ensures Valid() && pid in callers
      ensures if issue then callers[pid].Starting? && callers[pid].value == value
              else callers[pid] == Releasing(value, outcome)
      ensures start == old(start) && Extended(old(history), history, pid)
    {
      hide Exec;
      Interfere(pid);
      var since, due := callers[pid].since, now + limits.read;
      var asked := now;
      Turned(pid, Fine, 0);
      Note(Turn(pid, Fine, 0), pid, Rechecking(value, since, due, asked));
      Interfere(pid);
      var failed: bool := *;
      issue, outcome := false, Unavailable;
      if failed {
        Turned(pid, Refused, 0);
        Note(Turn(pid, Refused, 0), pid, Releasing(value, Unavailable));
      } else if SeesFresh(Current(), asked) {
        outcome := Fresh;
        Turned(pid, Fine, 0);
        Note(Turn(pid, Fine, 0), pid, Releasing(value, Fresh));
      } else {
        issue := true;
        Turned(pid, Fine, 0);
        Note(Turn(pid, Fine, 0), pid, Starting(value, since, due));
      }
    }

    /** The call to the provider, while anyone may have acted since the cache was looked at. */
    method StartIssue(pid: Pid, value: nat)
      requires Valid() && pid in callers && callers[pid].Starting? && callers[pid].value == value
      modifies this
      ensures Valid() && pid in callers && callers[pid].Issuing? && callers[pid].value == value
      ensures start == old(start) && Extended(old(history), history, pid)
    {
      hide Exec;
      Interfere(pid);
      Turned(pid, Fine, 0);
      log := log + [IssueStarted(now)];
      Note(Turn(pid, Fine, 0), pid, Issuing(value, callers[pid].since, now + limits.issue));
    }

    /** The issue, its answer and the write of the new token. */
    method IssueAndPublish(pid: Pid, value: nat) returns (outcome: Outcome)
      requires Valid() && pid in callers && callers[pid].Starting? && callers[pid].value == value
      modifies this
      ensures Valid() && pid in callers && callers[pid] == Releasing(value, outcome)
      ensures start == old(start) && Extended(old(history), history, pid)
    {
      hide Exec;
      StartIssue(pid, value);
      Interfere(pid);
      var since := callers[pid].since;
      var expiresIn: int := *;
      var failed: bool := *;
      if failed || !ValidIssued(provider, expiresIn) {
        outcome := Unavailable;
        Turned(pid, if failed then Refused else Fine, expiresIn);
        Note(Turn(pid, if failed then Refused else Fine, expiresIn), pid, Releasing(value, Unavailable));
        return;
      }
      var expiresAt := now + expiresIn * SECOND;
      Turned(pid, Fine, expiresIn);
      Note(Turn(pid, Fine, expiresIn), pid, Publishing(value, since, now + limits.write, expiresAt, expiresIn));
      outcome := Publish(pid, value, expiresAt, expiresIn);
    }

    method Publish(pid: Pid, value: nat, expiresAt: Time, expiresIn: int) returns (outcome: Outcome)
      requires Valid() && pid in callers && callers[pid].Publishing? && callers[pid].value == value
      requires callers[pid].expiresAt == expiresAt && callers[pid].expiresIn == expiresIn
      modifies this
      ensures Valid() && pid in callers && callers[pid] == Releasing(value, outcome)
      ensures start == old(start) && Extended(old(history), history, pid)
    {
      hide Exec;
      Interfere(pid);
      var fault: Fault := *;
      Turned(pid, fault, 0);
      var err := SetToken(expiresAt, expiresIn, fault);
      outcome := if err then Unavailable else Issued;
      Note(Turn(pid, fault, 0), pid, Releasing(value, outcome));
    }

    /** The first look at the cache. */
    method Look(pid: Pid) returns (outcome: Option<Outcome>)
      requires Valid() && pid in callers && callers[pid].Checking?
      modifies this
      ensures Valid() && pid in callers && callers[pid] == if outcome.Some? then Done(outcome.value) else Locking
      ensures start == old(start) && Extended(old(history), history, pid)
    {
      Interfere(pid);
      var failed: bool := *;
      if failed {
        outcome := Some(Unavailable);
        Note(Turn(pid, Refused, 0), pid, Done(Unavailable));
      } else if SeesFresh(Current(), callers[pid].asked) {
        outcome := Some(Fresh);
        Note(Turn(pid, Fine, 0), pid, Done(Fresh));
      } else {
        outcome := None;
        Note(Turn(pid, Fine, 0), pid, Locking);
      }
    }

    /** What a turn of a caller that asks for the lock comes to. */
    lemma LockTurned(pid: Pid, fault: Fault)
      requires pid in callers && callers[pid] == Locking
      ensures var w := Current(); var v := Next(w, Turn(pid, fault, 0)); var taken := LiveLock(w).Some?;
              var pc := if fault != Fine then Done(Unavailable)
                        else if taken then Waiting(PollAttempts(provider) + 1, now + InitialLockWait(provider), now)
                        else LockReply(nextValue, now, now + limits.lockReply);
              v == if fault == Refused || taken then w.(callers := callers[pid := pc])
                   else w.(callers := callers[pid := pc], nextValue := nextValue + 1,
                           lock := Some(Lock(nextValue, now + LOCK_TTL)))
    {
    }

    /** SET NX: a lock owned, a lock found taken, or an error, after which nobody may own it. */
    method TakeLock(pid: Pid) returns (locked: bool, value: nat, err: bool)
      requires Valid() && pid in callers && callers[pid] == Locking
      modifies this
      ensures Valid() && pid in callers
      ensures if err then callers[pid] == Done(Unavailable)
              else if locked then callers[pid].LockReply? && callers[pid].value == value
              else callers[pid].Waiting? && callers[pid].attempts == PollAttempts(provider) + 1
      ensures start == old(start) && Extended(old(history), history, pid)
    {
      hide Exec, Init, Run;
      Interfere(pid);
      var fault: Fault := *;
      LockTurned(pid, fault);
      locked, value, err := SetNX(fault);
      if err {
        Note(Turn(pid, fault, 0), pid, Done(Unavailable));
      } else if !locked {
        Note(Turn(pid, Fine, 0), pid, Waiting(PollAttempts(provider) + 1, now + InitialLockWait(provider), now));
      } else {
        Note(Turn(pid, Fine, 0), pid, LockReply(value, now, now + limits.lockReply));
        err := LoseReply(pid, value);
        locked := !err;
      }
    }

    /** The lock was taken, but its reply may never come. */
    method LoseReply(pid: Pid, value: nat) returns (lost: bool)
      requires Valid() && pid in callers && callers[pid].LockReply? && callers[pid].value == value
      modifies this
      ensures Valid() && pid in callers && start == old(start) && Extended(old(history), history, pid)
      ensures if lost then callers[pid] == Done(Unavailable)
              else callers[pid].LockReply? && callers[pid].value == value
    {
      lost := *;
      if lost {
        Interfere(pid);
        Note(Turn(pid, Refused, 0), pid, Done(Unavailable));
      }
    }

    /** The lock or a wait for whoever holds it, the cache again, one issue. */
    method IssueOrWait(pid: Pid) returns (outcome: Outcome)
      requires Valid() && pid in callers && callers[pid] == Locking
      modifies this
      ensures Valid() && pid in callers && callers[pid] == Done(outcome)
      ensures start == old(start) && Extended(old(history), history, pid)
    {
      var locked, value, err := TakeLock(pid);
      if err {
        return Unavailable;
      }
      if !locked {
        outcome := WaitForFreshToken(pid);
        return;
      }
      var issue;
      issue, outcome := Recheck(pid, value);
      if issue {
        outcome := IssueAndPublish(pid, value);
      }
      ReleaseLock(pid, value, outcome);
    }

    /** Ensure: the shared cache first, then the lock. */
    method Ensure(pid: Pid) returns (outcome: Outcome)
      requires Valid() && pid !in callers
      modifies this
      ensures Valid() && pid in callers && callers[pid] == Done(outcome)
      ensures start == old(start) && old(history) + [Begin(pid)] <= history
      ensures var begun := old(history) + [Begin(pid)];
              forall o :: outcome == o <==> Earned(Run(start, begun), history[|begun|..], pid, o)
    {
      Note(Begin(pid), pid, Checking(now));
      ghost var begun := history;
      var answered := Look(pid);
      if answered.Some? {
        outcome := answered.value;
      } else {
        outcome := IssueOrWait(pid);
      }
      OutcomeWasEarned(pid, begun);
    }

    /** What a caller ended with since it began is what a step of its own earned. */
    lemma OutcomeWasEarned(pid: Pid, begun: seq<Event>)
      requires Valid() && pid in callers && callers[pid].Done? && Extended(begun, history, pid)
      requires var w := Run(start, begun); pid in w.callers && w.callers[pid].Checking?
      ensures forall o :: callers[pid].outcome == o <==> Earned(Run(start, begun), history[|begun|..], pid, o)
    {
      hide Run, Earned;
      var rest := history[|begun|..];
      assert begun + rest == history;
      RunConcat(start, begun, rest);
      forall o ensures callers[pid].outcome == o <==> Earned(Run(start, begun), rest, pid, o) {
        OutcomeIffEarned(Run(start, begun), rest, pid, o);
      }
    }
  }
}
