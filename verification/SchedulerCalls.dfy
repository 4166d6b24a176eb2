/** What every step does to a thread that is in the middle of a call, and over
    whole runs what can have ended its waiting. */
module SchedulerCalls {
  import opened Epoll
  import opened Scheduler
  import opened SchedulerInvariant
  import opened SchedulerRuns
  import opened StThreads
  import opened Wrappers

  // ---------- One step ----------

  /** A thread that has called and not returned yet. */
  ghost predicate InCall(s: Vp, t: nat) {
    t < |s.th| && !s.th[t].at.User? && !s.th[t].at.Done?
  }

  /** The step signals or broadcasts `c`: by a call, or because a joinable
      thread with that termination condition variable exits. */
  ghost predicate Signals(s: Vp, op: Op, c: nat) {
    || (op.OpSignal? && op.c == c)
    || (op.OpExit? && s.current.Some? && s.current.value < |s.th| && s.th[s.current.value].term == Some(c))
  }

  /** The clock takes a thread off the sleep queue, its deadline past. */
  ghost predicate TimesOut(op: Op, t: nat, x: Tcb) {
    op.OpIdle? && t in op.ts && x.due <= op.now && x.onSleepQ
  }

  /** Dispatch takes the request of `t` off the io queue, with these events reported. */
  ghost predicate Tells(s: Vp, op: Op, t: nat, pds: seq<Pollfd>) {
    && op.OpIdle? && AllInRange(s.ep, s.ioq) && (forall i :: 0 <= i < |op.fired| ==> 0 <= op.fired[i].fd < |s.ep.fds|)
    && Request(t, pds) in Dispatch(s.ep, s.ioq, op.fired).woken
  }

  /** What makes a waiting thread runnable: an interrupt, the clock, the events
      it waits for, a signal of its condition variable, an unlock of its mutex. */
  ghost predicate Rouses(s: Vp, op: Op, x: Tcb, y: Tcb, t: nat) {
    || y.interrupt
    || (TimesOut(op, t, x) && (x.state.COND_WAIT? ==> y.timedOut))
    || y.at.Polled?
    || (CondOf(x.at).Some? && Signals(s, op, CondOf(x.at).value))
    || (op.OpUnlock? && x.at == InLock(op.m))
  }

  /** What a step of somebody else does to a thread in a call. */
  ghost predicate CallStep(s: Vp, op: Op, x: Tcb, y: Tcb, t: nat) {
    && y.due == x.due && (y.onSleepQ ==> x.onSleepQ)
    && (y.at == x.at || (x.at.InPoll? && y.at.Polled? && Tells(s, op, t, y.at.pds)))
    && (Waiting(y.state) ==> y.state == x.state && y.onSleepQ == x.onSleepQ && y.at == x.at && !Overdue(op, x))
    && (Waiting(x.state) && !Waiting(y.state) ==> Rouses(s, op, x, y, t))
    && (x.timedOut ==> y.timedOut) && (x.interrupt ==> y.interrupt)
    && (y.timedOut && !x.timedOut ==> TimesOut(op, t, x) && x.state.COND_WAIT?)
    && (y.interrupt && !x.interrupt ==> op == OpInterrupt(t))
  }

  /** The idle thread looks at the clock when the deadline of a sleeper has come. */
  ghost predicate Overdue(op: Op, x: Tcb) {
    op.OpIdle? && x.onSleepQ && x.due <= op.now
  }

  lemma {:induction false} CallPlaced(s: Vp, t: nat)
    requires Inv(s) && t < |s.th|
    ensures Placed(s, Threads(s.ioq), t) && (t in s.runq ==> s.th[t].state.RUNNABLE?)
  {
  }

  /** Scheduling makes a runnable thread running and touches nobody else. */
  lemma {:induction false} ScheduleSees(s: Vp, t: nat)
    requires RunqInRange(s) && t < |s.th| && (t in s.runq ==> s.th[t].state.RUNNABLE?)
    ensures var x, y := s.th[t], Schedule(s).th[t];
            y == x || (x.state.RUNNABLE? && y == x.(state := RUNNING))
  {
  }

  lemma {:induction false} WakeAllSees(s: Vp, q: seq<nat>, t: nat)
    requires t < |s.th| && forall i :: 0 <= i < |q| ==> q[i] < |s.th|
    ensures var x, y := s.th[t], WakeAll(s, q).th[t];
            y == x || (x.state.COND_WAIT? && y == x.(state := RUNNABLE, onSleepQ := false))
    decreases |q|
  {
    if q != [] {
      WakeAllSees(if s.th[q[0]].state == COND_WAIT then Wake(s, q[0]) else s, q[1..], t);
    }
  }

  lemma {:induction false} SignalSees(s: Vp, c: nat, broadcast: bool, t: nat)
    requires CondInRange(s, c) && t < |s.th|
    ensures var x, y := s.th[t], Signal(s, c, broadcast).th[t];
            y == x || (x.state.COND_WAIT? && y == x.(state := RUNNABLE, onSleepQ := false))
  {
    if broadcast { WakeAllSees(s, s.conds[c], t); } else { FirstInFound(s.th, s.conds[c], COND_WAIT); }
  }

  lemma {:induction false} ExpireAllSees(s: Vp, ts: seq<nat>, t: nat)
    requires t < |s.th| && Distinct(ts) && forall i :: 0 <= i < |ts| ==> ts[i] < |s.th|
    ensures var x, y := s.th[t], ExpireAll(s, ts).th[t];
            y == if t in ts
                then x.(state := RUNNABLE, onSleepQ := false, timedOut := x.timedOut || x.state.COND_WAIT?) else x
  {
    if ts != [] {
      var n := |ts| - 1;
      assert ts[..n] + [ts[n]] == ts;
      ExpireAllSees(s, ts[..n], t);
      assert ts[n] !in ts[..n];
    }
  }

  /** Only threads on the queue of the condition variable are woken. */
  lemma {:induction false} SignalReaches(s: Vp, c: nat, broadcast: bool, t: nat)
    requires CondInRange(s, c) && t < |s.th| && t !in s.conds[c]
    ensures Signal(s, c, broadcast).th[t] == s.th[t]
  {
    if broadcast { WakeAllOnly(s, s.conds[c], t); } else { FirstInFound(s.th, s.conds[c], COND_WAIT); }
  }

  lemma {:induction false} WakeAllOnly(s: Vp, q: seq<nat>, t: nat)
    requires t < |s.th| && t !in q && forall i :: 0 <= i < |q| ==> q[i] < |s.th|
    ensures WakeAll(s, q).th[t] == s.th[t]
    decreases |q|
  {
    if q != [] {
      WakeAllOnly(if s.th[q[0]].state == COND_WAIT then Wake(s, q[0]) else s, q[1..], t);
    }
  }

  lemma {:induction false} SignalStep(s: Vp, op: Op, u: Vp, polling: set<nat>, c: nat, broadcast: bool, t: nat)
    requires Core(u, polling) && CondInRange(u, c) && InCall(u, t) && !op.OpIdle? && Signals(s, op, c)
    ensures CallStep(s, op, u.th[t], Signal(u, c, broadcast).th[t], t)
  {
    assert Placed(u, polling, t);
    if CondOf(u.th[t].at) != Some(c) { SignalReaches(u, c, broadcast, t); } else { SignalSees(u, c, broadcast, t); }
  }

  /** The steps after which a thread is as it was, is running, or has been taken off the zombie queue. */
  lemma {:induction false} OwnStep(s: Vp, op: Op, s': Vp, t: nat)
    requires Inv(s) && InCall(s, t) && t < |s'.th| && !op.OpIdle?
    requires var x, y := s.th[t], s'.th[t];
             y == x || (t in s.runq && y == x.(state := RUNNING)) || (x.state.ZOMBIE? && y == x.(state := RUNNABLE))
    ensures CallStep(s, op, s.th[t], s'.th[t], t)
  {
    CallPlaced(s, t);
  }

  lemma {:induction false} ExitSees(s: Vp, t: nat)
    requires Inv(s) && Enabled(s, OpExit) && InCall(s, t)
    ensures t < |Exit(s).th| && CallStep(s, OpExit, s.th[t], Exit(s).th[t], t)
  {
    hide Inv, CallStep;
    var me := s.current.value;
    if s.th[me].term.None? {
      OwnStep(s, OpExit, Exit(s), t);
    } else {
      var u := Block(s, me, ZOMBIE, InExit).(zombieq := s.zombieq + [me]);
      ZombieCore(s, u);
      ExitSignals(s, u, s.th[me].term.value, t);
    }
  }

  lemma {:induction false} ExitSignals(s: Vp, u: Vp, c: nat, t: nat)
    requires Core(u, Threads(u.ioq)) && CondInRange(u, c) && InCall(u, t) && Signals(s, OpExit, c)
    ensures RunqInRange(Signal(u, c, false))
    ensures CallStep(s, OpExit, u.th[t], Schedule(Signal(u, c, false)).th[t], t)
  {
    SignalStep(s, OpExit, u, Threads(u.ioq), c, false, t);
    SignalCore(u, Threads(u.ioq), c, false);
    var v := Signal(u, c, false);
    assert Placed(v, Threads(u.ioq), t);
    assert forall i :: 0 <= i < |v.runq| ==> v.runq[i] in v.runq;
    ScheduleSees(v, t);
  }

  // ---------- The idle thread ----------

  lemma {:induction false} NotifyAllAt(s: Vp, qs: seq<Request>, i: nat)
    requires i < |qs| && forall k :: 0 <= k < |qs| ==> qs[k].thread < |s.th|
    requires forall k, j :: 0 <= k < j < |qs| ==> qs[k].thread != qs[j].thread
    ensures NotifyAll(s, qs).th[qs[i].thread]
            == s.th[qs[i].thread].(at := Polled(qs[i].pds), state := RUNNABLE, onSleepQ := false)
  {
    var n := |qs| - 1;
    var before := NotifyAll(s, qs[..n]);
    if i < n {
      NotifyAllAt(s, qs[..n], i);
      hide NotifyAll;
      assert qs[n].thread != qs[i].thread;
    } else {
      NotifyAllFrame(s, qs[..n]);
      hide NotifyAll;
      assert forall k :: 0 <= k < n ==> ThreadSeq(qs[..n])[k] == qs[k].thread;
      assert before.th[qs[n].thread] == s.th[qs[n].thread];
    }
  }

  /** What dispatch does to a thread in a call. */
  ghost predicate DispatchStep(s: Vp, op: Op, x: Tcb, y: Tcb, t: nat) {
    y == x || (x.state.IO_WAIT? && x.at.InPoll? && y.at.Polled? && Tells(s, op, t, y.at.pds)
               && y == x.(at := y.at, state := RUNNABLE, onSleepQ := false))
  }

  lemma {:induction false} DispatchSees(s: Vp, op: Op, t: nat)
    requires Inv(s) && op.OpIdle? && Enabled(s, op) && InCall(s, t)
    ensures var d, u := Dispatch(s.ep, s.ioq, op.fired), Dispatched(s, op.fired);
            DispatchStep(s, op, s.th[t], u.th[t], t) && u.current.None? && Core(u, Threads(d.kept))
  {
    hide Inv, Core, Placed, Dispatch, NotifyAll, Distinct, RunqInRange, ExpireAll, Expired;
    var d := Dispatch(s.ep, s.ioq, op.fired);
    DispatchedKeeps(s, op.fired);
    PartedThreads(s, op.fired);
    var u := s.(ep := d.s, ioq := d.kept);
    NotifyAllFrame(u, d.woken);
    if t in ThreadSeq(d.woken) {
      var i :| 0 <= i < |d.woken| && ThreadSeq(d.woken)[i] == t;
      NotifyAllAt(u, d.woken, i);
      assert d.woken[i] == Request(t, d.woken[i].pds);
      assert Tells(s, op, t, d.woken[i].pds);
      assert s.th[t].at.InPoll? by { WokenPolls(s, d.woken[i].thread, op.fired); }
    }
  }

  lemma {:induction false} WokenPolls(s: Vp, t: nat, fired: seq<Fired>)
    requires Inv(s) && s.current.None? && Reportable(s.ep, fired) && t in Threads(Dispatch(s.ep, s.ioq, fired).woken)
    ensures t < |s.th| && s.th[t].at.InPoll? && s.th[t].state.IO_WAIT?
  {
    PartedThreads(s, fired);
    PollersWait(s, t);
  }

  lemma {:induction false} IdleSees(s: Vp, op: Op, t: nat)
    requires Inv(s) && op.OpIdle? && Enabled(s, op) && InCall(s, t)
    ensures var s' := Apply(s, op).0; t < |s'.th| && CallStep(s, op, s.th[t], s'.th[t], t)
  {
    hide Inv;
    DispatchSees(s, op, t);
    var u := Dispatched(s, op.fired);
    var v := u.(clock := op.now);
    SameThreadsCore(u, v, Threads(Dispatch(s.ep, s.ioq, op.fired).kept));
    ClockSees(s, op, v, Threads(Dispatch(s.ep, s.ioq, op.fired).kept), t);
  }

  lemma {:induction false} ClockSees(s: Vp, op: Op, v: Vp, polling: set<nat>, t: nat)
    requires Core(v, polling) && v.current.None? && op.OpIdle? && Expired(v, op.now, op.ts)
    requires t < |s.th| && t < |v.th| && !v.th[t].at.User? && !v.th[t].at.Done?
             && DispatchStep(s, op, s.th[t], v.th[t], t)
    ensures RunqInRange(ExpireAll(v, op.ts))
    ensures CallStep(s, op, s.th[t], Schedule(ExpireAll(v, op.ts)).th[t], t)
  {
    hide Core, QueuesOk, Expired, ExpireAll, Tells, Distinct, CallStep, DispatchStep, Placed, RunqInRange;
    ExpiredAre(v, op, polling, t);
    ExpireAllSees(v, op.ts, t);
    ExpireAllCore(v, polling, op.ts);
    ExpireAllFrame(v, op.ts);
    var w := ExpireAll(v, op.ts);
    RunqPlaced(w, polling, t);
    ScheduleSees(w, t);
    ClockStep(s, op, s.th[t], v.th[t], w.th[t], Schedule(w).th[t], t);
  }

  lemma {:induction false} ExpiredAre(v: Vp, op: Op, polling: set<nat>, t: nat)
    requires Core(v, polling) && op.OpIdle? && Expired(v, op.now, op.ts) && t < |v.th|
    ensures Coupled(v.th[t]) && (t in op.ts <==> v.th[t].onSleepQ && v.th[t].due <= op.now)
    ensures Distinct(op.ts) && forall i :: 0 <= i < |op.ts| ==> op.ts[i] in v.sleepq && op.ts[i] < |v.th|
  {
    assert Placed(v, polling, t);
    assert forall i :: 0 <= i < |op.ts| ==> op.ts[i] in op.ts;
  }

  lemma {:induction false} RunqPlaced(w: Vp, polling: set<nat>, t: nat)
    requires Core(w, polling) && t < |w.th|
    ensures RunqInRange(w) && (t in w.runq ==> w.th[t].state.RUNNABLE?)
  {
    assert Placed(w, polling, t);
    assert forall i :: 0 <= i < |w.runq| ==> w.runq[i] in w.runq;
  }

  /** The record of a thread before the round, after dispatch, after the clock and at the end. */
  lemma {:induction false} ClockStep(s: Vp, op: Op, x: Tcb, v: Tcb, w: Tcb, y: Tcb, t: nat)
    requires DispatchStep(s, op, x, v, t) && Coupled(v) && op.OpIdle?
    requires t in op.ts <==> v.onSleepQ && v.due <= op.now
    requires w == if t in op.ts
                  then v.(state := RUNNABLE, onSleepQ := false, timedOut := v.timedOut || v.state.COND_WAIT?) else v
    requires y == w || (w.state.RUNNABLE? && y == w.(state := RUNNING))
    ensures CallStep(s, op, x, y, t)
  {
    hide Tells;
  }

  // ---------- The calls of others ----------

  lemma {:induction false} JoinSees(s: Vp, op: Op, t: nat)
    requires Inv(s) && op.OpJoin? && Enabled(s, op) && InCall(s, t)
    ensures var s' := Apply(s, op).0; t < |s'.th| && CallStep(s, op, s.th[t], s'.th[t], t)
  {
    hide Inv, CallStep;
    CallPlaced(s, t);
    OwnStep(s, op, Join(s, op.u).0, t);
  }

  lemma {:induction false} JoinAfterSees(s: Vp, t: nat)
    requires Inv(s) && Enabled(s, OpResume) && InCall(s, t) && s.current != Some(t)
             && s.th[s.current.value].at.InJoin?
    ensures var s' := JoinAfter(s).0; t < |s'.th| && CallStep(s, OpResume, s.th[t], s'.th[t], t)
  {
    hide Inv, CallStep;
    CallPlaced(s, t);
    OwnStep(s, OpResume, JoinAfter(s).0, t);
  }

  lemma {:induction false} UnlockSees(s: Vp, m: nat, t: nat)
    requires Inv(s) && Enabled(s, OpUnlock(m)) && InCall(s, t)
    ensures var s' := Unlock(s, m).0; t < |s'.th| && CallStep(s, OpUnlock(m), s.th[t], s'.th[t], t)
  {
    hide Inv, CallStep;
    CallPlaced(s, t);
    FirstInFound(s.th, s.mutexes[m].waitq, LOCK_WAIT);
    if s.mutexes[m].owner == s.current && FirstIn(s.th, s.mutexes[m].waitq, LOCK_WAIT) == Some(t) {
      HandedStep(s, m, s.th[t], Unlock(s, m).0.th[t], t);
    } else {
      OwnStep(s, OpUnlock(m), Unlock(s, m).0, t);
    }
  }

  lemma {:induction false} HandedStep(s: Vp, m: nat, x: Tcb, y: Tcb, t: nat)
    requires Coupled(x) && x.state.LOCK_WAIT? && x.at == InLock(m) && y == x.(state := RUNNABLE)
    ensures CallStep(s, OpUnlock(m), x, y, t)
  {
  }

  lemma {:induction false} ResumeSees(s: Vp, t: nat)
    requires Inv(s) && Enabled(s, OpResume) && InCall(s, t) && s.current != Some(t)
    ensures t < |Resume(s).0.th| && CallStep(s, OpResume, s.th[t], Resume(s).0.th[t], t)
  {
    hide Inv, CallStep;
    var at := s.th[s.current.value].at;
    if at.InJoin? { JoinAfterSees(s, t); }
    else if at.InPoll? || at.Polled? { PollAfterSees(s, t); }
    else if at.InLock? || at.InCond? { UnlinkSees(s, t); }
    else { OwnStep(s, OpResume, Resume(s).0, t); }
  }

  lemma {:induction false} PollAfterSees(s: Vp, t: nat)
    requires Inv(s) && Enabled(s, OpResume) && InCall(s, t) && s.current != Some(t)
    requires s.th[s.current.value].at.InPoll? || s.th[s.current.value].at.Polled?
    ensures var s' := PollAfter(s).0; t < |s'.th| && CallStep(s, OpResume, s.th[t], s'.th[t], t)
  {
    hide Inv, CallStep, DelAll;
    OwnStep(s, OpResume, PollAfter(s).0, t);
  }

  lemma {:induction false} UnlinkSees(s: Vp, t: nat)
    requires Inv(s) && Enabled(s, OpResume) && InCall(s, t) && s.current != Some(t)
    requires s.th[s.current.value].at.InLock? || s.th[s.current.value].at.InCond?
    ensures var s' := Resume(s).0; t < |s'.th| && CallStep(s, OpResume, s.th[t], s'.th[t], t)
  {
    hide Inv, CallStep, PollAfter, JoinAfter, ExitAfter;
    OwnStep(s, OpResume, Resume(s).0, t);
  }

  /** The calls that block their caller. */
  lemma {:induction false} BlockSees(s: Vp, op: Op, t: nat)
    requires Inv(s) && Enabled(s, op) && InCall(s, t)
    requires op.OpUsleep? || op.OpCondWait? || op.OpLock?
    ensures var s' := Apply(s, op).0; t < |s'.th| && CallStep(s, op, s.th[t], s'.th[t], t)
  {
    hide Inv, CallStep, Usleep, Lock, CondWait;
    if op.OpUsleep? { UsleepSees(s, op, t); }
    else if op.OpLock? { LockSees(s, op, t); }
    else { CondWaitSees(s, op, t); }
  }

  lemma {:induction false} UsleepSees(s: Vp, op: Op, t: nat)
    requires Inv(s) && op.OpUsleep? && Enabled(s, op) && InCall(s, t)
    ensures var s' := Usleep(s, op.usecs).0; t < |s'.th| && CallStep(s, op, s.th[t], s'.th[t], t)
  {
    hide Inv, CallStep;
    OwnStep(s, op, Usleep(s, op.usecs).0, t);
  }

  lemma {:induction false} LockSees(s: Vp, op: Op, t: nat)
    requires Inv(s) && op.OpLock? && Enabled(s, op) && InCall(s, t)
    ensures var s' := Lock(s, op.m).0; t < |s'.th| && CallStep(s, op, s.th[t], s'.th[t], t)
  {
    hide Inv, CallStep;
    OwnStep(s, op, Lock(s, op.m).0, t);
  }

  lemma {:induction false} CondWaitSees(s: Vp, op: Op, t: nat)
    requires Inv(s) && op.OpCondWait? && Enabled(s, op) && InCall(s, t)
    ensures var s' := CondWait(s, op.c, op.timeout).0; t < |s'.th| && CallStep(s, op, s.th[t], s'.th[t], t)
  {
    hide Inv, CallStep;
    OwnStep(s, op, CondWait(s, op.c, op.timeout).0, t);
  }

  lemma {:induction false} PollSees(s: Vp, op: Op, t: nat)
    requires Inv(s) && op.OpPoll? && Enabled(s, op) && InCall(s, t)
    ensures var s' := Apply(s, op).0; t < |s'.th| && CallStep(s, op, s.th[t], s'.th[t], t)
  {
    hide Inv, CallStep, PollsetAdd;
    OwnStep(s, op, Poll(s, op.pds, op.timeout, op.grow, op.refuse).0, t);
  }

  /** The calls that go on at once and leave every other thread as it is. */
  lemma {:induction false} QuickSees(s: Vp, op: Op, t: nat)
    requires Inv(s) && Enabled(s, op) && InCall(s, t)
    requires op.OpCreate? || op.OpCondNew? || op.OpMutexNew? || op.OpTryLock?
    ensures var s' := Apply(s, op).0; t < |s'.th| && CallStep(s, op, s.th[t], s'.th[t], t)
  {
    hide Inv, CallStep;
    OwnStep(s, op, Apply(s, op).0, t);
  }

  lemma {:induction false} WakersSee(s: Vp, op: Op, t: nat)
    requires Inv(s) && Enabled(s, op) && InCall(s, t)
    requires op.OpSignal? || op.OpInterrupt? || op.OpUnlock? || op.OpExit?
    ensures var s' := Apply(s, op).0; t < |s'.th| && CallStep(s, op, s.th[t], s'.th[t], t)
  {
    hide Inv;
    if op.OpSignal? { SignalCallSees(s, op, t); }
    else if op.OpUnlock? { UnlockSees(s, op.m, t); }
    else if op.OpExit? { ExitSees(s, t); }
    else { CallPlaced(s, t); }
  }

  lemma {:induction false} SignalCallSees(s: Vp, op: Op, t: nat)
    requires Inv(s) && op.OpSignal? && CondInRange(s, op.c) && InCall(s, t)
    ensures t < |Signal(s, op.c, op.broadcast).th|
            && CallStep(s, op, s.th[t], Signal(s, op.c, op.broadcast).th[t], t)
  {
    SignalStep(s, op, s, Threads(s.ioq), op.c, op.broadcast, t);
  }

  /** A thread in a call is only touched by what it waits for, by the clock once its
      deadline has come, and by an interrupt; and a deadline that has come ends the wait. */
  lemma {:induction false} StepSees(s: Vp, op: Op, t: nat)
    requires Inv(s) && Enabled(s, op) && InCall(s, t) && !(op == OpResume && s.current == Some(t))
    ensures var s' := Apply(s, op).0; t < |s'.th| && CallStep(s, op, s.th[t], s'.th[t], t)
  {
    hide Inv;
    if op.OpIdle? { IdleSees(s, op, t); }
    else if op.OpResume? { ResumeSees(s, t); }
    else if op.OpJoin? { JoinSees(s, op, t); }
    else if op.OpPoll? { PollSees(s, op, t); }
    else if op.OpUsleep? || op.OpCondWait? || op.OpLock? { BlockSees(s, op, t); }
    else if op.OpSignal? || op.OpInterrupt? || op.OpUnlock? || op.OpExit? { WakersSee(s, op, t); }
    else { QuickSees(s, op, t); }
  }

  // ---------- Whole calls ----------

  /** Thread `t` is not resumed in the steps from `i` to `j`. */
  ghost predicate Unresumed(states: seq<Vp>, ops: seq<Op>, i: nat, j: nat, t: nat)
    requires j <= |ops| && |states| == |ops| + 1
  {
    forall k :: i <= k < j ==> !(ops[k] == OpResume && states[k].current == Some(t))
  }

  /** From `i` to `j` thread `t` stays in one call. */
  ghost predicate StaysIn(states: seq<Vp>, i: nat, j: nat, t: nat) {
    i <= j < |states| && forall k :: i <= k <= j ==> InCall(states[k], t)
  }

  lemma {:induction false} StepOfCall(states: seq<Vp>, ops: seq<Op>, k: nat, t: nat)
    requires IsRun(states, ops) && k < |ops| && InCall(states[k], t)
    requires !(ops[k] == OpResume && states[k].current == Some(t))
    ensures InCall(states[k + 1], t)
    ensures CallStep(states[k], ops[k], states[k].th[t], states[k + 1].th[t], t)
  {
    RunKeeps(states, ops, k);
    StepOf(states, ops, k);
    StepSees(states[k], ops[k], t);
    hide Inv, IsRun, Tells, Apply, Enabled;
  }

  /** Only a resumption ends a call. */
  lemma {:induction false} StaysInCall(states: seq<Vp>, ops: seq<Op>, i: nat, j: nat, t: nat)
    requires IsRun(states, ops) && i <= j <= |ops| && Unresumed(states, ops, i, j, t) && InCall(states[i], t)
    ensures StaysIn(states, i, j, t)
    decreases j
  {
    if i < j {
      StaysInCall(states, ops, i, j - 1, t);
      hide IsRun, CallStep;
      StepOfCall(states, ops, j - 1, t);
    }
  }

  ghost predicate TimedOutAt(states: seq<Vp>, ops: seq<Op>, k: nat, t: nat) {
    k < |states| && k < |ops| && t < |states[k].th| && Waiting(states[k].th[t].state)
    && TimesOut(ops[k], t, states[k].th[t])
  }

  ghost predicate ToldAt(states: seq<Vp>, ops: seq<Op>, k: nat, t: nat, pds: seq<Pollfd>) {
    k < |states| && k < |ops| && Tells(states[k], ops[k], t, pds)
  }

  /** Step `k` is a signal of `c` that took `t` out of its wait on it. */
  ghost predicate WokenAt(states: seq<Vp>, ops: seq<Op>, k: nat, t: nat, c: nat) {
    && k + 1 < |states| && k < |ops| && Signals(states[k], ops[k], c)
    && t < |states[k].th| && CondOf(states[k].th[t].at) == Some(c) && Waiting(states[k].th[t].state)
    && t < |states[k + 1].th| && !Waiting(states[k + 1].th[t].state)
  }

  ghost predicate HandedAt(states: seq<Vp>, ops: seq<Op>, k: nat, t: nat, m: nat) {
    k < |states| && k < |ops| && ops[k] == OpUnlock(m) && t < |states[k].th| && states[k].th[t].at == InLock(m)
    && Waiting(states[k].th[t].state)
  }

  /** Why a thread that was waiting as `x` at step `i` no longer is at step `j`. */
  ghost predicate Ended(states: seq<Vp>, ops: seq<Op>, i: nat, j: nat, t: nat, x: Tcb, y: Tcb) {
    || y.interrupt
    || y.at.Polled?
    || (x.state.COND_WAIT? && y.timedOut)
    || (!x.state.COND_WAIT? && exists k :: i <= k < j && TimedOutAt(states, ops, k, t) && x.due <= ops[k].now)
    || (CondOf(x.at).Some? && exists k :: i <= k < j && WokenAt(states, ops, k, t, CondOf(x.at).value))
    || (x.at.InLock? && exists k :: i <= k < j && HandedAt(states, ops, k, t, x.at.m))
  }

  ghost predicate Told(states: seq<Vp>, ops: seq<Op>, i: nat, j: nat, t: nat, x: Tcb, y: Tcb) {
    y.at == x.at
    || (x.at.InPoll? && y.at.Polled? && exists k :: i <= k < j && ToldAt(states, ops, k, t, y.at.pds))
  }

  /** What has become at step `j` of a thread that waited as `x` at step `i`. */
  ghost predicate Since(states: seq<Vp>, ops: seq<Op>, i: nat, j: nat, t: nat, x: Tcb, y: Tcb) {
    && y.due == x.due && Told(states, ops, i, j, t, x, y)
    && (if Waiting(y.state) then y.state == x.state && y.onSleepQ == x.onSleepQ && y.at == x.at
        else Ended(states, ops, i, j, t, x, y))
    && (y.timedOut
        ==> x.onSleepQ && exists k :: i <= k < j && TimedOutAt(states, ops, k, t) && x.due <= ops[k].now)
    && (y.interrupt ==> exists k :: i <= k < j && k < |ops| && ops[k] == OpInterrupt(t))
  }

  /** Step `j` taken from `y` to `z`. */
  ghost predicate StepAt(states: seq<Vp>, ops: seq<Op>, j: nat, t: nat, y: Tcb, z: Tcb) {
    && j < |ops| && |states| == |ops| + 1 && t < |states[j].th| && t < |states[j + 1].th|
    && states[j].th[t] == y && states[j + 1].th[t] == z && CallStep(states[j], ops[j], y, z, t)
  }

  lemma {:induction false} ToldStep(states: seq<Vp>, ops: seq<Op>, i: nat, j: nat, t: nat, x: Tcb, y: Tcb, z: Tcb)
    requires i <= j && StepAt(states, ops, j, t, y, z) && Told(states, ops, i, j, t, x, y)
    ensures Told(states, ops, i, j + 1, t, x, z)
  {
    hide Rouses, Overdue, TimesOut, Tells;
    if z.at != y.at { assert ToldAt(states, ops, j, t, z.at.pds); }
  }

  lemma {:induction false} EndedStays(states: seq<Vp>, ops: seq<Op>, i: nat, j: nat, t: nat, x: Tcb, y: Tcb, z: Tcb)
    requires i <= j && StepAt(states, ops, j, t, y, z) && Ended(states, ops, i, j, t, x, y)
    ensures Ended(states, ops, i, j + 1, t, x, z)
  {
    hide Rouses, Overdue, TimesOut, Tells, TimedOutAt, WokenAt, HandedAt;
  }

  lemma {:induction false} Ending(states: seq<Vp>, ops: seq<Op>, i: nat, j: nat, t: nat, x: Tcb, y: Tcb, z: Tcb)
    requires i <= j && StepAt(states, ops, j, t, y, z) && Waiting(y.state) && !Waiting(z.state)
    requires y.at == x.at && y.state == x.state && y.due == x.due
    ensures Ended(states, ops, i, j + 1, t, x, z)
  {
    hide Tells, Signals;
    var s, op := states[j], ops[j];
    assert Rouses(s, op, y, z, t);
    if TimesOut(op, t, y) { assert TimedOutAt(states, ops, j, t); }
    if CondOf(y.at).Some? && Signals(s, op, CondOf(y.at).value) {
      assert WokenAt(states, ops, j, t, CondOf(y.at).value);
    }
    if op.OpUnlock? && y.at == InLock(op.m) { assert HandedAt(states, ops, j, t, op.m); }
  }

  lemma {:induction false} SinceStep(states: seq<Vp>, ops: seq<Op>, i: nat, j: nat, t: nat, x: Tcb, y: Tcb, z: Tcb)
    requires i <= j && StepAt(states, ops, j, t, y, z) && Since(states, ops, i, j, t, x, y)
    ensures Since(states, ops, i, j + 1, t, x, z)
  {
    ToldStep(states, ops, i, j, t, x, y, z);
    if Waiting(y.state) {
      if !Waiting(z.state) { Ending(states, ops, i, j, t, x, y, z); }
    } else {
      EndedStays(states, ops, i, j, t, x, y, z);
    }
    hide Rouses, Tells, Ended, Told, Signals;
    if TimesOut(ops[j], t, y) && Waiting(y.state) { assert TimedOutAt(states, ops, j, t); }
  }

  /** What can have happened to a thread since it began to wait in a call: it is as it was, or an
      interrupt, its deadline, a dispatch, a signal or an unlock of that same wait has made it runnable. */
  lemma {:induction false} CallHistory(states: seq<Vp>, ops: seq<Op>, i: nat, j: nat, t: nat)
    requires IsRun(states, ops) && i <= j <= |ops| && StaysIn(states, i, j, t) && Unresumed(states, ops, i, j, t)
    requires var x := states[i].th[t]; Waiting(x.state) && !x.timedOut && !x.interrupt
    ensures Since(states, ops, i, j, t, states[i].th[t], states[j].th[t])
    decreases j
  {
    if i < j {
      CallHistory(states, ops, i, j - 1, t);
      StepOfCall(states, ops, j - 1, t);
      hide IsRun, CallStep, Since;
      SinceStep(states, ops, i, j - 1, t, states[i].th[t], states[j - 1].th[t], states[j].th[t]);
    }
  }

  /** A runnable thread does not go back to waiting before it has run. */
  lemma {:induction false} StaysAwake(states: seq<Vp>, ops: seq<Op>, i: nat, j: nat, t: nat)
    requires IsRun(states, ops) && i <= j <= |ops| && Unresumed(states, ops, i, j, t) && InCall(states[i], t)
    requires !Waiting(states[i].th[t].state)
    ensures InCall(states[j], t) && !Waiting(states[j].th[t].state)
    decreases j
  {
    if i < j {
      hide IsRun, Tells, Rouses, Overdue, TimesOut;
      StaysAwake(states, ops, i, j - 1, t);
      StepOfCall(states, ops, j - 1, t);
    }
  }
}
