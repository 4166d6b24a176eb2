/** First come, first served: over any run the threads queued on a condition
    variable or a mutex stand in the order in which they came. */
module SchedulerOrder {
  import opened Epoll
  import opened Scheduler
  import opened SchedulerInvariant
  import opened SchedulerRuns
  import opened SchedulerSafety
  import opened StThreads
  import opened Wrappers

  /** The last of the first `n` steps that thread `t` took, counted from one. */
  ghost function LastRan(states: seq<Vp>, n: nat, t: nat): nat
    requires n <= |states|
  {
    if n == 0 then 0 else if states[n - 1].current == Some(t) then n else LastRan(states, n - 1, t)
  }

  /** From the thread that ran longest ago, and so came first, to the one that ran last. */
  ghost predicate InOrder(states: seq<Vp>, n: nat, q: seq<nat>)
    requires n <= |states|
  {
    forall i, j :: 0 <= i < j < |q| ==> LastRan(states, n, q[i]) < LastRan(states, n, q[j])
  }

  /** All a step does to a queue: the thread that takes it may leave, and may join at the end. */
  ghost predicate QueueStep(current: Option<nat>, q: seq<nat>, q': seq<nat>) {
    match current
    case None => q' == q
    case Some(me) => q' == Remove(q, me) || q' == Remove(q, me) + [me]
  }

  lemma {:induction false} RemoveNone(q: seq<nat>, t: nat)
    requires t !in q
    ensures Remove(q, t) == q
  {
    if q != [] { RemoveNone(q[1..], t); }
  }

  // ---------- One step ----------

  lemma {:induction false} WakeAllConds(s: Vp, q: seq<nat>)
    requires forall i :: 0 <= i < |q| ==> q[i] < |s.th|
    ensures WakeAll(s, q).conds == s.conds
    decreases |q|
  {
    if q != [] { WakeAllConds(if s.th[q[0]].state == COND_WAIT then Wake(s, q[0]) else s, q[1..]); }
  }

  lemma {:induction false} SignalConds(s: Vp, c: nat, broadcast: bool)
    requires CondInRange(s, c)
    ensures Signal(s, c, broadcast).conds == s.conds
  {
    if broadcast { WakeAllConds(s, s.conds[c]); } else { FirstInFound(s.th, s.conds[c], COND_WAIT); }
  }

  lemma {:induction false} NotifyAllConds(s: Vp, qs: seq<Request>)
    requires forall i :: 0 <= i < |qs| ==> qs[i].thread < |s.th|
    ensures NotifyAll(s, qs).conds == s.conds
  {
    if qs != [] { NotifyAllConds(s, qs[..|qs| - 1]); }
  }

  lemma {:induction false} ExpireAllConds(s: Vp, ts: seq<nat>)
    requires forall i :: 0 <= i < |ts| ==> ts[i] < |s.th|
    ensures ExpireAll(s, ts).conds == s.conds
  {
    if ts != [] { ExpireAllConds(s, ts[..|ts| - 1]); }
  }

  lemma {:induction false} IdleConds(s: Vp, op: Op)
    requires op.OpIdle? && Enabled(s, op)
    ensures Apply(s, op).0.conds == s.conds
  {
    var d := Dispatch(s.ep, s.ioq, op.fired);
    NotifyAllConds(s.(ep := d.s, ioq := d.kept), d.woken);
    ExpireAllConds(Dispatched(s, op.fired).(clock := op.now), op.ts);
    hide Dispatch, NotifyAll, ExpireAll, Expired;
  }

  lemma {:induction false} ExitConds(s: Vp)
    requires Enabled(s, OpExit)
    ensures Exit(s).conds == s.conds
  {
    var me := s.current.value;
    if s.th[me].term.Some? {
      SignalConds(Block(s, me, ZOMBIE, InExit).(zombieq := s.zombieq + [me]), s.th[me].term.value, false);
    }
  }

  /** Where the running thread is queued. */
  lemma {:induction false} MyQueues(s: Vp)
    requires Inv(s) && s.current.Some?
    ensures Running(s)
    ensures forall c {:trigger s.conds[c]} :: 0 <= c < |s.conds| && CondOf(s.th[s.current.value].at) != Some(c)
              ==> s.current.value !in s.conds[c]
    ensures forall m {:trigger s.mutexes[m]} :: 0 <= m < |s.mutexes| && s.th[s.current.value].at != InLock(m)
              ==> s.current.value !in s.mutexes[m].waitq
  {
    RunningMe(s);
  }

  lemma {:induction false} CondStep(s: Vp, op: Op, c: nat)
    requires Inv(s) && Enabled(s, op) && c < |s.conds|
    ensures var s' := Apply(s, op).0; c < |s'.conds| && QueueStep(s.current, s.conds[c], s'.conds[c])
  {
    if op.OpIdle? {
      IdleConds(s, op);
    } else {
      MyQueues(s);
      hide Inv, PollsetAdd, Signal, Exit, Resume;
      if op.OpResume? { ResumeConds(s, c); } else { RemoveNone(s.conds[c], s.current.value); CallConds(s, op, c); }
    }
  }

  lemma {:induction false} CallConds(s: Vp, op: Op, c: nat)
    requires Inv(s) && Enabled(s, op) && c < |s.conds| && !op.OpIdle? && op != OpResume
    requires s.current.Some? && Remove(s.conds[c], s.current.value) == s.conds[c]
    ensures var s' := Apply(s, op).0; c < |s'.conds| && QueueStep(s.current, s.conds[c], s'.conds[c])
  {
    hide Inv, PollsetAdd, Signal, Exit, RunqInRange, Remove;
    match op
    case OpSignal(d, broadcast) => SignalConds(s, d, broadcast);
    case OpExit => ExitConds(s);
    case _ =>
  }

  lemma {:induction false} ResumeConds(s: Vp, c: nat)
    requires Inv(s) && Enabled(s, OpResume) && c < |s.conds|
    ensures var s' := Apply(s, OpResume).0; c < |s'.conds| && QueueStep(s.current, s.conds[c], s'.conds[c])
  {
    MyQueues(s);
    var me := s.current.value;
    if CondOf(s.th[me].at) != Some(c) { RemoveNone(s.conds[c], me); }
    hide Inv, DelAll, Remove, RunqInRange, JoinAfter;
    if s.th[me].at.InJoin? { JoinConds(s, c); }
  }

  lemma {:induction false} JoinConds(s: Vp, c: nat)
    requires Enabled(s, OpResume) && c < |s.conds| && s.th[s.current.value].at.InJoin?
    requires CondOf(s.th[s.current.value].at) == Some(c) || Remove(s.conds[c], s.current.value) == s.conds[c]
    ensures var s' := JoinAfter(s).0; c < |s'.conds| && QueueStep(s.current, s.conds[c], s'.conds[c])
  {
    hide Remove, RunqInRange;
  }

  lemma {:induction false} LockStep(s: Vp, op: Op, m: nat)
    requires Inv(s) && Enabled(s, op) && m < |s.mutexes|
    ensures var s' := Apply(s, op).0; m < |s'.mutexes| && QueueStep(s.current, s.mutexes[m].waitq, s'.mutexes[m].waitq)
  {
    if op.OpIdle? {
      IdleOwners(s, op.fired, op.now, op.ts);
    } else {
      MyQueues(s);
      var me := s.current.value;
      if s.th[me].at != InLock(m) { RemoveNone(s.mutexes[m].waitq, me); }
      hide Inv, PollsetAdd, Signal, Exit, Resume, Remove, RunqInRange;
      if op.OpResume? { ResumeLocks(s, m); } else { CallLocks(s, op, m); }
    }
  }

  lemma {:induction false} CallLocks(s: Vp, op: Op, m: nat)
    requires Inv(s) && Enabled(s, op) && m < |s.mutexes| && !op.OpIdle? && op != OpResume
    requires s.current.Some? && Remove(s.mutexes[m].waitq, s.current.value) == s.mutexes[m].waitq
    ensures var s' := Apply(s, op).0; m < |s'.mutexes| && QueueStep(s.current, s.mutexes[m].waitq, s'.mutexes[m].waitq)
  {
    hide Inv, Poll, Signal, Exit, Join, RunqInRange, Remove;
    match op
    case OpPoll(_, _, _, _) => PollLocks(s, op);
    case OpJoin(_) => JoinLocks(s, op);
    case OpSignal(c, broadcast) => SignalOwners(s, c, broadcast);
    case OpExit => ExitOwners(s);
    case _ =>
  }

  lemma {:induction false} PollLocks(s: Vp, op: Op)
    requires op.OpPoll? && Enabled(s, op)
    ensures Apply(s, op).0.mutexes == s.mutexes
  {
    hide PollsetAdd;
  }

  lemma {:induction false} JoinLocks(s: Vp, op: Op)
    requires op.OpJoin? && Enabled(s, op)
    ensures Apply(s, op).0.mutexes == s.mutexes
  {
  }

  lemma {:induction false} ResumeLocks(s: Vp, m: nat)
    requires Inv(s) && Enabled(s, OpResume) && m < |s.mutexes|
    requires s.th[s.current.value].at != InLock(m) ==> Remove(s.mutexes[m].waitq, s.current.value) == s.mutexes[m].waitq
    ensures var s' := Resume(s).0; m < |s'.mutexes| && QueueStep(s.current, s.mutexes[m].waitq, s'.mutexes[m].waitq)
  {
    hide Inv, DelAll, Remove, RunqInRange;
  }

  // ---------- Whole runs ----------

  lemma {:induction false} LastRanBound(states: seq<Vp>, n: nat, t: nat)
    requires n <= |states|
    ensures LastRan(states, n, t) <= n
  {
    if n > 0 { LastRanBound(states, n - 1, t); }
  }

  lemma {:induction false} RemoveInOrder(states: seq<Vp>, n: nat, q: seq<nat>, t: nat)
    requires n <= |states| && InOrder(states, n, q)
    ensures InOrder(states, n, Remove(q, t))
  {
    if q != [] {
      var rest := Remove(q[1..], t);
      assert forall i :: 0 <= i < |q[1..]| ==> q[1..][i] == q[i + 1];
      RemoveInOrder(states, n, q[1..], t);
      forall j | 0 <= j < |rest| ensures LastRan(states, n, q[0]) < LastRan(states, n, rest[j]) {
        assert rest[j] in q[1..];
      }
    }
  }

  lemma {:induction false} OrderStep(states: seq<Vp>, n: nat, q: seq<nat>, q': seq<nat>)
    requires 0 < n <= |states| && InOrder(states, n - 1, q) && QueueStep(states[n - 1].current, q, q')
    ensures InOrder(states, n, q')
  {
    if states[n - 1].current.Some? {
      var me := states[n - 1].current.value;
      var rest := Remove(q, me);
      RemoveInOrder(states, n - 1, q, me);
      forall t | t in rest ensures LastRan(states, n, t) == LastRan(states, n - 1, t) < n {
        LastRanBound(states, n - 1, t);
      }
      assert forall i :: 0 <= i < |rest| ==> rest[i] in rest;
      assert InOrder(states, n, rest);
    }
  }

  /** In any run those who wait on a condition variable are queued in the order in which they came, so
      that a signal goes to the one who has waited longest. */
  lemma {:induction false} WaitersInOrder(states: seq<Vp>, ops: seq<Op>, n: nat, c: nat)
    requires IsRun(states, ops) && n < |states| && c < |states[n].conds|
    ensures InOrder(states, n, states[n].conds[c])
  {
    if n > 0 {
      RunKeeps(states, ops, n - 1);
      StepOf(states, ops, n - 1);
      if c < |states[n - 1].conds| {
        WaitersInOrder(states, ops, n - 1, c);
        CondStep(states[n - 1], ops[n - 1], c);
        hide IsRun, Inv, InOrder, QueueStep;
        OrderStep(states, n, states[n - 1].conds[c], states[n].conds[c]);
      } else {
        NewQueues(states[n - 1], ops[n - 1]);
        hide IsRun, Inv;
      }
    }
  }

  /** So are those who wait for a mutex, so that an unlock hands it to the one who has waited longest. */
  lemma {:induction false} LockersInOrder(states: seq<Vp>, ops: seq<Op>, n: nat, m: nat)
    requires IsRun(states, ops) && n < |states| && m < |states[n].mutexes|
    ensures InOrder(states, n, states[n].mutexes[m].waitq)
  {
    if n > 0 {
      RunKeeps(states, ops, n - 1);
      StepOf(states, ops, n - 1);
      if m < |states[n - 1].mutexes| {
        LockersInOrder(states, ops, n - 1, m);
        LockStep(states[n - 1], ops[n - 1], m);
        hide IsRun, Inv, InOrder, QueueStep;
        OrderStep(states, n, states[n - 1].mutexes[m].waitq, states[n].mutexes[m].waitq);
      } else {
        NewQueues(states[n - 1], ops[n - 1]);
        hide IsRun, Inv;
      }
    }
  }

  /** New queues are empty. */
  lemma {:induction false} NewQueues(s: Vp, op: Op)
    requires Inv(s) && Enabled(s, op)
    ensures var s' := Apply(s, op).0;
            && (|s'.conds| <= |s.conds| || s'.conds == s.conds + [[]])
            && (|s'.mutexes| <= |s.mutexes| || s'.mutexes == s.mutexes + [Mutex(None, [])])
  {
    if op.OpIdle? {
      IdleConds(s, op);
      IdleOwners(s, op.fired, op.now, op.ts);
    } else {
      hide Inv, Signal, Exit, Resume, Poll, Usleep, CondWait, Lock, Join;
      match op
      case OpSignal(c, broadcast) => SignalConds(s, c, broadcast); SignalOwners(s, c, broadcast);
      case OpExit => ExitConds(s); ExitOwners(s);
      case OpResume => NoNewQueues(s);
      case OpUnlock(m) => UnlockQueues(s, m);
      case OpCreate(_) =>
      case OpCondNew =>
      case OpMutexNew =>
      case OpTryLock(_) =>
      case OpInterrupt(_) =>
      case _ => BlockQueues(s, op);
    }
  }

  lemma {:induction false} UnlockQueues(s: Vp, m: nat)
    requires Running(s) && MutexInRange(s, m)
    ensures |Unlock(s, m).0.conds| == |s.conds| && |Unlock(s, m).0.mutexes| == |s.mutexes|
  {
    FirstInFound(s.th, s.mutexes[m].waitq, LOCK_WAIT);
  }

  lemma {:induction false} BlockQueues(s: Vp, op: Op)
    requires Enabled(s, op) && (op.OpPoll? || op.OpUsleep? || op.OpCondWait? || op.OpLock? || op.OpJoin?)
    ensures |Apply(s, op).0.conds| == |s.conds| && |Apply(s, op).0.mutexes| == |s.mutexes|
  {
    hide PollsetAdd;
  }

  lemma {:induction false} NoNewQueues(s: Vp)
    requires Inv(s) && Enabled(s, OpResume)
    ensures |Resume(s).0.conds| == |s.conds| && |Resume(s).0.mutexes| == |s.mutexes|
  {
    hide Inv, Remove, DelAll;
  }
}
