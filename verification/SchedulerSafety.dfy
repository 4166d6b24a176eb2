/** What the invariant means for places, mutexes and condition variables, in
    single states and over whole runs. */
module SchedulerSafety {
  import opened Epoll
  import opened Scheduler
  import opened SchedulerInvariant
  import opened SchedulerRuns
  import opened SchedulerCalls
  import opened StThreads
  import opened Wrappers

  // ---------- Places ----------

  function One(b: bool): nat { if b then 1 else 0 }

  /** Every thread is in exactly one place, and on the sleep queue only while
      it waits for input, a condition variable or its time. */
  lemma {:induction false} ExactlyOnePlace(states: seq<Vp>, ops: seq<Op>, i: nat, t: nat)
    requires IsRun(states, ops) && i < |states| && t < |states[i].th|
    ensures var s := states[i]; var x := s.th[t];
            && One(s.current == Some(t)) + One(t in s.runq) + One(t in s.zombieq) + One(Waiting(x.state))
                + One(x.at.Done?) == 1
            && multiset(s.runq)[t] <= 1 && multiset(s.zombieq)[t] <= 1
            && (t in s.runq <==> x.state.RUNNABLE?)
            && (x.onSleepQ <==> t in s.sleepq)
            && (x.onSleepQ ==> x.state.IO_WAIT? || x.state.COND_WAIT? || x.state.SLEEPING?)
  {
    RunKeeps(states, ops, i);
    assert Placed(states[i], Threads(states[i].ioq), t);
    OnceOnly(states[i].runq, t);
    OnceOnly(states[i].zombieq, t);
  }

  lemma {:induction false} OnceOnly(q: seq<nat>, t: nat)
    requires Distinct(q)
    ensures multiset(q)[t] <= 1
  {
    if q != [] {
      assert q == [q[0]] + q[1..];
      OnceOnly(q[1..], t);
      if q[0] == t { assert t !in q[1..]; }
    }
  }

  /** When the idle thread dispatches, nothing is runnable, everyone on the io
      queue is waiting for it, and whoever is woken is put on the run queue once. */
  lemma {:induction false} DispatchFindsWaiters(s: Vp, fired: seq<Fired>)
    requires Inv(s) && s.current.None? && Reportable(s.ep, fired)
    ensures s.runq == []
    ensures forall k :: 0 <= k < |s.ioq| ==> s.ioq[k].thread < |s.th| && s.th[s.ioq[k].thread].state.IO_WAIT?
    ensures AllInRange(s.ep, s.ioq)
    ensures forall k :: 0 <= k < |Dispatch(s.ep, s.ioq, fired).woken| ==> Dispatch(s.ep, s.ioq, fired).woken[k].thread < |s.th|
    ensures Dispatched(s, fired).runq == ThreadSeq(Dispatch(s.ep, s.ioq, fired).woken)
            && Distinct(Dispatched(s, fired).runq)
  {
    forall k | 0 <= k < |s.ioq| ensures s.ioq[k].thread < |s.th| && s.th[s.ioq[k].thread].state.IO_WAIT? {
      assert s.ioq[k].thread in Threads(s.ioq);
      PollersWait(s, s.ioq[k].thread);
    }
    var d := Dispatch(s.ep, s.ioq, fired);
    DispatchedKeeps(s, fired);
    NotifyAllFrame(s.(ep := d.s, ioq := d.kept), d.woken);
    assert [] + ThreadSeq(d.woken) == ThreadSeq(d.woken);
  }

  /** After an idle round the run queue holds those who had input, then those
      whose time had come in order of their deadlines; its head is running.
      Only later deadlines are left. */
  lemma {:induction false} IdleRoundOrder(s: Vp, fired: seq<Fired>, now: nat, ts: seq<nat>)
    requires Inv(s) && Enabled(s, OpIdle(fired, now, ts))
    ensures var s', queue := IdleRound(s, fired, now, ts), ThreadSeq(Dispatch(s.ep, s.ioq, fired).woken) + ts;
            && (queue == [] ==> s'.current.None?)
            && (queue != [] ==> s'.current == Some(queue[0]) && s'.runq == queue[1..])
            && (forall t :: t in s'.sleepq ==> t < |s.th| && Dispatched(s, fired).th[t].due > now)
  {
    DispatchFindsWaiters(s, fired);
    DispatchedKeeps(s, fired);
    var u := Dispatched(s, fired).(clock := now);
    ExpireAllFrame(u, ts);
    SameThreadsCore(Dispatched(s, fired), u, Threads(Dispatch(s.ep, s.ioq, fired).kept));
    SleepersRemain(u, Threads(Dispatch(s.ep, s.ioq, fired).kept), ts);
  }

  lemma {:induction false} SleepersRemain(s: Vp, polling: set<nat>, ts: seq<nat>)
    requires Core(s, polling) && Distinct(ts) && forall i :: 0 <= i < |ts| ==> ts[i] in s.sleepq && ts[i] < |s.th|
    ensures forall t :: t in ExpireAll(s, ts).sleepq ==> t in s.sleepq && t !in ts
  {
    if ts != [] {
      var n := |ts| - 1;
      assert ts[..n] + [ts[n]] == ts;
      SleepersRemain(s, polling, ts[..n]);
      ExpireAllCore(s, polling, ts[..n]);
      ExpireAllFrame(s, ts[..n]);
      assert ts[n] !in ts[..n];
      ExpireCore(ExpireAll(s, ts[..n]), polling, ts[n]);
    }
  }

  // ---------- Mutexes ----------

  /** A lock call that succeeds, at once or after waiting, has made its caller the owner;
      one that is interrupted while it waits has not. */
  lemma {:induction false} LockSucceedsForOwner(s: Vp, op: Op, m: nat)
    requires Inv(s) && Enabled(s, op) && s.current.Some? && s.current.value < |s.th|
    requires op == OpLock(m) || op == OpTryLock(m) || (op == OpResume && s.th[s.current.value].at == InLock(m))
    ensures var (s', rv) := Apply(s, op);
            && m < |s'.mutexes|
            && (rv == Value(0) ==> s'.mutexes[m].owner == s.current)
            && (rv == Error(EINTR) && op == OpResume ==> s'.mutexes[m].owner != s.current)
  {
    RunningMe(s);
  }

  /** A free mutex can be had at once, except by a call of lock with an interrupt pending. */
  lemma {:induction false} FreeMutexIsTaken(s: Vp, op: Op, m: nat)
    requires Enabled(s, op) && (op == OpLock(m) || op == OpTryLock(m))
    requires m < |s.mutexes| && s.mutexes[m].owner.None?
    ensures Apply(s, op).1 == Value(0)
            <==> op == OpTryLock(m) || !s.th[s.current.value].interrupt
  {
  }

  /** Nobody is left waiting in line for a free mutex. */
  lemma {:induction false} FreeMutexHasNoWaiter(s: Vp, m: nat, t: nat)
    requires Inv(s) && m < |s.mutexes| && s.mutexes[m].owner == None && t in s.mutexes[m].waitq
    ensures t < |s.th| && !s.th[t].state.LOCK_WAIT?
  {
    assert Placed(s, Threads(s.ioq), t);
  }

  ghost predicate HandedTo(s: Vp, m: nat, owner: Option<nat>)
    requires MutexInRange(s, m)
  {
    var q := s.mutexes[m].waitq;
    if owner.None? then forall i :: 0 <= i < |q| ==> !s.th[q[i]].state.LOCK_WAIT?
    else exists i :: 0 <= i < |q| && q[i] == owner.value && s.th[q[i]].state.LOCK_WAIT?
                     && forall j :: 0 <= j < i ==> !s.th[q[j]].state.LOCK_WAIT?
  }

  /** An unlock by the owner hands over to the first thread still in LOCK_WAIT. */
  lemma {:induction false} UnlockHandsOver(s: Vp, m: nat)
    requires Inv(s) && Enabled(s, OpUnlock(m)) && s.mutexes[m].owner == s.current
    ensures var r := Unlock(s, m);
            && r.1 == Value(0) && HandedTo(s, m, r.0.mutexes[m].owner)
            && r.0.runq == s.runq + (if r.0.mutexes[m].owner.None? then [] else [r.0.mutexes[m].owner.value])
  {
    FirstInFound(s.th, s.mutexes[m].waitq, LOCK_WAIT);
  }

  /** What one step does to the owner of a mutex. */
  lemma {:induction false} OwnerKeepsUntilUnlock(s: Vp, op: Op, m: nat)
    requires Inv(s) && Enabled(s, op) && m < |s.mutexes|
    ensures m < |Apply(s, op).0.mutexes|
    ensures s.mutexes[m].owner.Some? && !(op == OpUnlock(m) && s.current == s.mutexes[m].owner) ==>
              Apply(s, op).0.mutexes[m].owner == s.mutexes[m].owner
  {
    hide Inv, PollsetAdd, Signal, Exit, IdleRound, Resume, Expired, Dispatched, ExpireAll, Dispatch, Reportable,
        RunqInRange, AllInRange, ResumeInRange;
    match op
    case OpSignal(c, broadcast) => SignalOwners(s, c, broadcast);
    case OpExit => ExitOwners(s);
    case OpIdle(fired, now, ts) => IdleOwners(s, fired, now, ts);
    case OpResume => ResumeOwners(s, m);
    case _ =>
  }

  lemma {:induction false} SignalOwners(s: Vp, c: nat, broadcast: bool)
    requires Inv(s) && c < |s.conds| && CondInRange(s, c)
    ensures Signal(s, c, broadcast).mutexes == s.mutexes
  {
    SignalCore(s, Threads(s.ioq), c, broadcast);
  }

  lemma {:induction false} IdleOwners(s: Vp, fired: seq<Fired>, now: nat, ts: seq<nat>)
    requires Inv(s) && Enabled(s, OpIdle(fired, now, ts))
    ensures IdleRound(s, fired, now, ts).mutexes == s.mutexes
  {
    var d := Dispatch(s.ep, s.ioq, fired);
    DispatchedKeeps(s, fired);
    NotifyAllFrame(s.(ep := d.s, ioq := d.kept), d.woken);
    ExpireAllFrame(Dispatched(s, fired).(clock := now), ts);
  }

  lemma {:induction false} ExitOwners(s: Vp)
    requires Inv(s) && Enabled(s, OpExit)
    ensures Exit(s).mutexes == s.mutexes
  {
    if s.th[s.current.value].term.Some? {
      var t := Block(s, s.current.value, ZOMBIE, InExit).(zombieq := s.zombieq + [s.current.value]);
      ZombieCore(s, t);
      SignalCore(t, Threads(s.ioq), s.th[s.current.value].term.value, false);
    }
  }

  lemma {:induction false} ResumeOwners(s: Vp, m: nat)
    requires Inv(s) && Enabled(s, OpResume) && m < |s.mutexes|
    ensures m < |Resume(s).0.mutexes| && Resume(s).0.mutexes[m].owner == s.mutexes[m].owner
  {
  }

  ghost predicate OwnedBy(s: Vp, m: nat, t: nat) {
    m < |s.mutexes| && s.mutexes[m].owner == Some(t)
  }

  lemma {:induction false} StepKeepsOwner(s: Vp, op: Op, s': Vp, m: nat, t: nat)
    requires Inv(s) && Step(s, op, s') && OwnedBy(s, m, t) && !(op == OpUnlock(m) && s.current == Some(t))
    ensures OwnedBy(s', m, t)
  {
    OwnerKeepsUntilUnlock(s, op, m);
  }

  /** A thread owns a mutex until it unlocks it: no other thread, timeout,
      interrupt, signal or exit takes it away. */
  lemma {:induction false} MutualExclusion(states: seq<Vp>, ops: seq<Op>, i: nat, j: nat, m: nat, t: nat)
    requires IsRun(states, ops) && i <= j < |states| && OwnedBy(states[i], m, t)
    requires forall k :: i <= k < j ==> !(ops[k] == OpUnlock(m) && states[k].current == Some(t))
    ensures OwnedBy(states[j], m, t)
    decreases j
  {
    if i < j {
      MutualExclusion(states, ops, i, j - 1, m, t);
      RunKeeps(states, ops, j - 1);
      StepOf(states, ops, j - 1);
      StepKeepsOwner(states[j - 1], ops[j - 1], states[j], m, t);
    }
  }

  // ---------- Threads ----------

  /** When a call blocks, given that no interrupt is pending. */
  ghost predicate MustWait(s: Vp, op: Op)
    requires Enabled(s, op) && s.current.Some?
  {
    match op
    case OpUsleep(_) => true
    case OpCondWait(_, _) => true
    case OpLock(m) => s.mutexes[m].owner.Some? && s.mutexes[m].owner != s.current
    case OpJoin(u) =>
      // it can be joined, nobody else does, and it has not exited
      s.th[u].term.Some? && s.current != Some(u) && s.conds[s.th[u].term.value] == [] && !s.th[u].state.ZOMBIE?
    case _ => false
  }

  /** A sleep and a wait on a condition variable block, a lock of a mutex that another thread owns, and a
      join of a thread that has not exited, in each case exactly if no interrupt is pending. */
  lemma {:induction false} BlocksIff(s: Vp, op: Op)
    requires Enabled(s, op) && s.current.Some? && (op.OpUsleep? || op.OpCondWait? || op.OpLock? || op.OpJoin?)
    ensures Apply(s, op).1 == Blocked <==> MustWait(s, op) && !s.th[s.current.value].interrupt
  {
  }

  /** A new thread is queued to run, and can be joined if that is asked for. */
  lemma {:induction false} CreateQueues(s: Vp, joinable: bool)
    requires Inv(s) && Enabled(s, OpCreate(joinable))
    ensures var (s', rv) := Apply(s, OpCreate(joinable)); var t := |s.th|;
            && rv == Value(t) && |s'.th| == t + 1 && s'.runq == s.runq + [t] && s'.th[t].at.User?
            && (s'.th[t].term.Some? <==> joinable)
            && (joinable ==> forall u {:trigger s'.th[u]} :: 0 <= u < t ==> s'.th[u].term != s'.th[t].term)
  {
    forall u | 0 <= u < |s.th| ensures s.th[u].term != Some(|s.conds|) { assert Placed(s, Threads(s.ioq), u); }
  }

  /** An interrupt marks its target, unless that has exited, and makes it runnable if it waits. */
  lemma {:induction false} InterruptWakes(s: Vp, u: nat)
    requires Inv(s) && Enabled(s, OpInterrupt(u)) && !s.th[u].state.ZOMBIE?
    ensures var s' := Interrupt(s, u);
            && s'.th[u].interrupt && !Waiting(s'.th[u].state) && (s.current == Some(u) || u in s'.runq)
            && s'.runq == s.runq + (if Waiting(s.th[u].state) then [u] else [])
            && u !in s'.sleepq
  {
    assert Placed(s, Threads(s.ioq), u);
    InterruptKeeps(s, u);
    assert Placed(Interrupt(s, u), Threads(s.ioq), u);
  }

  /** What the result of a call tells about the interrupt flag of its caller. */
  ghost predicate Reports(x: Tcb, y: Tcb, rv: Rv) {
    if rv == Error(EINTR) then x.interrupt && !y.interrupt else y.interrupt == x.interrupt
  }

  /** A call reports an interrupt only if one is pending, and that is the end of it; any other
      result leaves it pending. With one pending no call blocks, and those that could return EINTR. */
  lemma {:induction false} InterruptReportedOnce(s: Vp, op: Op)
    requires Inv(s) && Enabled(s, op) && !op.OpIdle? && !op.OpExit? && op != OpResume
    requires op != OpInterrupt(s.current.value)
    ensures s.current.Some? && s.current.value < |s.th| && s.current.value < |Apply(s, op).0.th|
    ensures var (s', rv) := Apply(s, op); var x := s.th[s.current.value];
            && Reports(x, s'.th[s.current.value], rv)
            && (x.interrupt ==> rv != Blocked)
            && (x.interrupt && (op.OpPoll? || op.OpUsleep? || op.OpCondWait? || op.OpLock?) ==> rv == Error(EINTR))
  {
    RunningMe(s);
    hide Inv, PollsetAdd, Placed, Signal;
    if op.OpPoll? || op.OpUsleep? || op.OpCondWait? || op.OpLock? || op.OpJoin? {
      BlockingReports(s, op);
    } else if op.OpSignal? {
      SignalMe(s, op.c, op.broadcast);
    } else if op.OpUnlock? {
      FirstInFound(s.th, s.mutexes[op.m].waitq, LOCK_WAIT);
    }
  }

  lemma {:induction false} BlockingReports(s: Vp, op: Op)
    requires Inv(s) && Enabled(s, op) && (op.OpPoll? || op.OpUsleep? || op.OpCondWait? || op.OpLock? || op.OpJoin?)
    ensures s.current.Some? && s.current.value < |s.th| && s.current.value < |Apply(s, op).0.th|
    ensures var (s', rv) := Apply(s, op); var x := s.th[s.current.value];
            && Reports(x, s'.th[s.current.value], rv)
            && (x.interrupt ==> rv != Blocked) && (x.interrupt && !op.OpJoin? ==> rv == Error(EINTR))
  {
    RunningMe(s);
    hide Inv, Placed, Poll, Join;
    if op.OpPoll? { PollReports(s, op); } else if op.OpJoin? { JoinReports(s, op); }
  }

  lemma {:induction false} JoinReports(s: Vp, op: Op)
    requires Inv(s) && op.OpJoin? && Enabled(s, op)
    ensures s.current.Some? && s.current.value < |s.th| && s.current.value < |Apply(s, op).0.th|
    ensures var (s', rv) := Apply(s, op); var x := s.th[s.current.value];
            Reports(x, s'.th[s.current.value], rv) && (x.interrupt ==> rv != Blocked)
  {
    RunningMe(s);
    hide Inv, Placed;
  }

  lemma {:induction false} PollReports(s: Vp, op: Op)
    requires Inv(s) && op.OpPoll? && Enabled(s, op)
    ensures s.current.Some? && s.current.value < |s.th| && s.current.value < |Apply(s, op).0.th|
    ensures var (s', rv) := Apply(s, op); var x := s.th[s.current.value];
            Reports(x, s'.th[s.current.value], rv) && (x.interrupt ==> rv == Error(EINTR))
  {
    RunningMe(s);
    hide Inv, PollsetAdd, Placed;
  }

  /** So does the rest of a call; only one that was given its mutex leaves an interrupt pending. */
  lemma {:induction false} ResumedReports(s: Vp)
    requires Inv(s) && Enabled(s, OpResume) && !s.th[s.current.value].at.InExit?
    ensures s.current.value < |Resume(s).0.th|
    ensures var (s', rv) := Resume(s); var x := s.th[s.current.value];
            && Reports(x, s'.th[s.current.value], rv)
            && (x.interrupt && !x.at.InLock? ==> rv == Error(EINTR))
  {
    RunningMe(s);
    hide Inv, DelAll, Placed, CountReady;
  }

  lemma {:induction false} SignalMe(s: Vp, c: nat, broadcast: bool)
    requires Inv(s) && s.current.Some? && CondInRange(s, c)
    ensures s.current.value < |s.th|
    ensures Signal(s, c, broadcast).th[s.current.value].interrupt == s.th[s.current.value].interrupt
  {
    RunningMe(s);
    SignalSees(s, c, broadcast, s.current.value);
  }

  /** A joinable thread that exits becomes a zombie, and who waits to join it runs or is runnable. */
  lemma {:induction false} ExitWakesJoiner(s: Vp, c: nat, w: nat)
    requires Inv(s) && Enabled(s, OpExit) && s.current.Some? && s.th[s.current.value].term == Some(c)
    requires w < |s.th| && s.conds[c] == [w] && s.th[w].state.COND_WAIT?
    ensures var s' := Exit(s);
            s.current.value in s'.zombieq && (s'.current == Some(w) || w in s'.runq)
  {
    RunningMe(s);
    var me := s.current.value;
    var t := Block(s, me, ZOMBIE, InExit).(zombieq := s.zombieq + [me]);
    assert t.conds[c] == [w] && t.th[w].state.COND_WAIT?;
    FirstInFound(t.th, t.conds[c], COND_WAIT);
    hide Inv, Placed;
    assert Signal(t, c, false) == Wake(t, w);
    LastRuns(s.runq, w);
  }

  lemma {:induction false} LastRuns(q: seq<nat>, w: nat)
    ensures (q + [w])[0] == w || w in (q + [w])[1..]
  {
    assert (q + [w])[|q|] == w;
    if |q| > 0 { assert (q + [w])[1..][|q| - 1] == w; }
  }

  /** A join that succeeds, at once or after waiting, has found its target a zombie and sent it off to clean up. */
  lemma {:induction false} JoinReaps(s: Vp, op: Op, u: nat)
    requires Inv(s) && Enabled(s, op) && s.current.Some? && s.current.value < |s.th|
    requires op == OpJoin(u)
             || (op == OpResume && s.th[s.current.value].at.InJoin? && s.th[s.current.value].at.target == u)
    requires Apply(s, op).1 == Value(0)
    ensures u < |s.th| && s.th[u].state.ZOMBIE? && u in s.zombieq
    ensures var s' := Apply(s, op).0; u < |s'.th| && u !in s'.zombieq && u in s'.runq && s'.th[u].at.InExit?
  {
    RunningMe(s);
    if op.OpJoin? { Reaped(s, u); } else { ReapedAfter(s, u); }
  }

  lemma {:induction false} Reaped(s: Vp, u: nat)
    requires Inv(s) && Enabled(s, OpJoin(u)) && Join(s, u).1 == Value(0)
    ensures s.th[u].state.ZOMBIE? && u in s.zombieq && s.th[u].at.InExit?
    ensures var s' := Join(s, u).0; u < |s'.th| && u !in s'.zombieq && u in s'.runq && s'.th[u].at.InExit?
  {
    assert Placed(s, Threads(s.ioq), u);
    hide Inv;
  }

  lemma {:induction false} ReapedAfter(s: Vp, u: nat)
    requires Inv(s) && Running(s) && s.th[s.current.value].at.InJoin? && s.th[s.current.value].at.target == u
    requires s.th[s.current.value].at.c < |s.conds| && u < |s.th| && JoinAfter(s).1 == Value(0)
    ensures s.th[u].state.ZOMBIE? && u in s.zombieq
    ensures var s' := JoinAfter(s).0; u < |s'.th| && u !in s'.zombieq && u in s'.runq && s'.th[u].at.InExit?
  {
    RunningMe(s);
    assert Placed(s, Threads(s.ioq), u);
    hide Inv;
  }
}
