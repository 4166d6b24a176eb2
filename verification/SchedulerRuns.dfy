/** Runs of the scheduler: what holds after any sequence of calls, wake-ups,
    timeouts, interrupts, exits and joins. */
module SchedulerRuns {
  import opened Epoll
  import opened Scheduler
  import opened SchedulerInvariant
  import opened StThreads
  import opened Wrappers

  /** One step: a call of the running thread, the rest of a call whose caller
      has been resumed, or a round of the idle thread. */
  datatype Op =
    | OpCreate(joinable: bool) | OpCondNew | OpMutexNew
    | OpPoll(pds: seq<Pollfd>, timeout: Option<nat>, grow: bool, refuse: set<nat>)
    | OpUsleep(usecs: Option<nat>)
    | OpCondWait(c: nat, timeout: Option<nat>) | OpSignal(c: nat, broadcast: bool)
    | OpLock(m: nat) | OpUnlock(m: nat) | OpTryLock(m: nat)
    | OpInterrupt(u: nat) | OpJoin(u: nat) | OpExit
    | OpResume
    | OpIdle(fired: seq<Fired>, now: nat, ts: seq<nat>)

  function Initial(fds: nat): Vp
    requires fds > 0
  {
    Vp([Tcb(RUNNING, User, false, false, false, 0, None)], Some(0), [], [], [], {}, [], [],
       Ep(seq(fds, _ => NO_DATA), map[], 0), 0)
  }

  /** When a step can be taken, including that it stays within its data. */
  ghost predicate Enabled(s: Vp, op: Op) {
    match op
    case OpIdle(fired, now, ts) =>
      && s.current.None? && s.clock <= now && AllInRange(s.ep, s.ioq) && Reportable(s.ep, fired)
      && (forall i :: 0 <= i < |Dispatch(s.ep, s.ioq, fired).woken| ==> Dispatch(s.ep, s.ioq, fired).woken[i].thread < |s.th|)
      && Expired(Dispatched(s, fired), now, ts)
      && RunqInRange(ExpireAll(Dispatched(s, fired).(clock := now), ts))
    case OpResume => Running(s) && !s.th[s.current.value].at.User? && ResumeInRange(s, s.th[s.current.value].at)
    case _ => Running(s) && s.th[s.current.value].at.User? && CallInRange(s, op)
  }

  /** The calls get handles of existing mutexes and condition variables, and of
      threads that have not been cleaned up. */
  ghost predicate CallInRange(s: Vp, op: Op)
    requires Running(s)
  {
    match op
    case OpPoll(_, _, _, _) => |s.ep.fds| > 0
    case OpCondWait(c, _) => c < |s.conds|
    case OpSignal(c, _) => CondInRange(s, c)
    case OpLock(m) => m < |s.mutexes|
    case OpUnlock(m) => MutexInRange(s, m)
    case OpTryLock(m) => m < |s.mutexes|
    case OpInterrupt(u) => u < |s.th| && !s.th[u].at.Done?
    case OpJoin(u) => u < |s.th| && !s.th[u].at.Done? && (s.th[u].term.Some? ==> s.th[u].term.value < |s.conds|)
    case OpExit => s.th[s.current.value].term.Some? ==> CondInRange(s, s.th[s.current.value].term.value)
    case _ => true
  }

  ghost predicate ResumeInRange(s: Vp, at: Point)
    requires Running(s)
  {
    match at
    case InPoll => RequestThere(s, s.current.value)
    case InCond(c) => c < |s.conds|
    case InJoin(c, u) => c < |s.conds| && u < |s.th|
    case InLock(m) => m < |s.mutexes|
    case Done => false
    case _ => true
  }

  ghost function Resume(s: Vp): (Vp, Rv)
    requires Running(s) && ResumeInRange(s, s.th[s.current.value].at)
  {
    match s.th[s.current.value].at
    case User => (s, Value(0))
    case InPoll => PollAfter(s)
    case Polled(_) => PollAfter(s)
    case InSleep => Conclude(s, s.current.value, 0)
    case InCond(_) => CondAfter(s)
    case InJoin(_, _) => JoinAfter(s)
    case InLock(_) => LockAfter(s)
    case InExit => (ExitAfter(s), Blocked)
  }

  ghost function Apply(s: Vp, op: Op): (Vp, Rv)
    requires Enabled(s, op)
  {
    match op
    case OpCreate(joinable) => (Create(s, joinable), Value(|s.th|))
    case OpCondNew => (s.(conds := s.conds + [[]]), Value(|s.conds|))
    case OpMutexNew => (s.(mutexes := s.mutexes + [Mutex(None, [])]), Value(|s.mutexes|))
    case OpPoll(pds, timeout, grow, refuse) => Poll(s, pds, timeout, grow, refuse)
    case OpUsleep(usecs) => Usleep(s, usecs)
    case OpCondWait(c, timeout) => CondWait(s, c, timeout)
    case OpSignal(c, broadcast) => (Signal(s, c, broadcast), Value(0))
    case OpLock(m) => Lock(s, m)
    case OpUnlock(m) => Unlock(s, m)
    case OpTryLock(m) => TryLock(s, m)
    case OpInterrupt(u) => (Interrupt(s, u), Value(0))
    case OpJoin(u) => Join(s, u)
    case OpExit => (Exit(s), Blocked)
    case OpResume => Resume(s)
    case OpIdle(fired, now, ts) => (IdleRound(s, fired, now, ts), Blocked)
  }

  /** Any step from a state with the invariant leads to one with the invariant. */
  lemma {:induction false} StepKeeps(s: Vp, op: Op)
    requires Inv(s) && Enabled(s, op)
    ensures Inv(Apply(s, op).0)
  {
    match op
    case OpCreate(joinable) => CreateKeeps(s, joinable);
    case OpCondNew => CondNewKeeps(s);
    case OpMutexNew => CondNewKeeps(s);
    case OpPoll(pds, timeout, grow, refuse) => PollKeeps(s, pds, timeout, grow, refuse);
    case OpUsleep(usecs) => UsleepKeeps(s, usecs);
    case OpCondWait(c, timeout) =>
      if s.th[s.current.value].interrupt { ClearInterruptKeeps(s); } else { WaitOnKeeps(s, c, timeout, InCond(c)); }
    case OpSignal(c, broadcast) => SignalKeeps(s, c, broadcast);
    case OpLock(m) => LockKeeps(s, m);
    case OpUnlock(m) => UnlockKeeps(s, m);
    case OpTryLock(m) => TryLockKeeps(s, m);
    case OpInterrupt(u) => InterruptKeeps(s, u);
    case OpJoin(u) => JoinKeeps(s, u);
    case OpExit => ExitKeeps(s);
    case OpResume => ResumeKeeps(s);
    case OpIdle(fired, now, ts) => IdleRoundKeeps(s, fired, now, ts);
  }

  lemma {:induction false} ResumeKeeps(s: Vp)
    requires Inv(s) && Running(s) && ResumeInRange(s, s.th[s.current.value].at)
    ensures Inv(Resume(s).0)
  {
    match s.th[s.current.value].at
    case User =>
    case InPoll => PollAfterKeeps(s);
    case Polled(_) => PollAfterKeeps(s);
    case InSleep => FinishKeeps(s);
    case InCond(_) => WaitOverKeeps(s);
    case InJoin(_, _) => JoinAfterKeeps(s);
    case InLock(_) => LockAfterKeeps(s);
    case InExit => ExitAfterKeeps(s);
  }

  /** The other half: no step is ever out of bounds. A resumed thread can always
      finish its call, and the idle thread its round. */
  lemma {:induction false} StepsAreInRange(s: Vp)
    requires Inv(s)
    ensures s.current.Some? ==> Running(s) && (!s.th[s.current.value].at.User? ==> Enabled(s, OpResume))
    ensures forall c: nat,
            b: bool :: s.current.Some? && s.th[s.current.value].at.User? && c < |s.conds| ==> Enabled(s, OpSignal(c, b))
    ensures forall m: nat :: s.current.Some? && s.th[s.current.value].at.User? && m < |s.mutexes| ==> Enabled(s, OpUnlock(m))
    ensures s.current.Some? && s.th[s.current.value].at.User? ==> Enabled(s, OpExit)
  {
    if s.current.Some? {
      RunningMe(s);
      if s.th[s.current.value].at.InPoll? { RequestIsThere(s); }
      forall c | 0 <= c < |s.conds|
          ensures CondInRange(s, c) { assert forall i :: 0 <= i < |s.conds[c]| ==> s.conds[c][i] in s.conds[c]; }
      forall m | 0 <= m < |s.mutexes| ensures MutexInRange(s, m) {
        assert forall i :: 0 <= i < |s.mutexes[m].waitq| ==> s.mutexes[m].waitq[i] in s.mutexes[m].waitq;
      }
    }
  }

  lemma {:induction false} IdleIsInRange(s: Vp, fired: seq<Fired>, now: nat)
    requires Inv(s) && s.current.None? && s.clock <= now && Reportable(s.ep, fired)
    ensures AllInRange(s.ep, s.ioq)
    ensures forall i :: 0 <= i < |Dispatch(s.ep, s.ioq, fired).woken| ==> Dispatch(s.ep, s.ioq, fired).woken[i].thread < |s.th|
    ensures forall ts :: Expired(Dispatched(s, fired), now, ts) ==> Enabled(s, OpIdle(fired, now, ts))
  {
    DispatchedKeeps(s, fired);
    forall ts | Expired(Dispatched(s, fired), now, ts) ensures Enabled(s, OpIdle(fired, now, ts)) {
      IdleRoundKeeps(s, fired, now, ts);
    }
  }

  // ---------- Runs ----------

  ghost predicate Step(s: Vp, op: Op, s': Vp) {
    Enabled(s, op) && s' == Apply(s, op).0
  }

  ghost predicate IsRun(states: seq<Vp>, ops: seq<Op>) {
    && |states| == |ops| + 1
    && (exists fds :: fds > 0 && states[0] == Initial(fds))
    && forall i {:trigger Step(states[i], ops[i], states[i + 1])} :: 0 <= i < |ops|
        ==> Step(states[i], ops[i], states[i + 1])
  }

  lemma {:induction false} StepOf(states: seq<Vp>, ops: seq<Op>, k: nat)
    requires IsRun(states, ops) && k < |ops|
    ensures Step(states[k], ops[k], states[k + 1])
  {
    var taken := Step(states[k], ops[k], states[k + 1]);
    assert taken;
  }

  lemma {:induction false} InitialInv(fds: nat)
    requires fds > 0
    ensures Inv(Initial(fds))
  {
    var s := Initial(fds);
    assert Threads(s.ioq) == {};
    assert Placed(s, {}, 0);
    forall fd | 0 <= fd < |s.ep.fds| ensures AgreeAt(s.ep, fd) { }
  }

  /** The invariant holds throughout every run. */
  lemma {:induction false} RunKeeps(states: seq<Vp>, ops: seq<Op>, i: nat)
    requires IsRun(states, ops) && i < |states|
    ensures Inv(states[i])
  {
    if i == 0 {
      var fds :| fds > 0 && states[0] == Initial(fds);
      InitialInv(fds);
    } else {
      RunKeeps(states, ops, i - 1);
      StepOf(states, ops, i - 1);
      StepKeeps(states[i - 1], ops[i - 1]);
    }
  }
}
