/** Every step of the scheduler keeps its invariant. */
module SchedulerInvariant {
  import opened Epoll
  import opened Scheduler
  import opened StThreads
  import opened Wrappers

  // ---------- One thread at a time ----------

  /** For every thread but `t` the two states agree on where it is. */
  ghost predicate OthersSame(s: Vp, polling: set<nat>, s': Vp, polling': set<nat>, t: nat) {
    && |s'.th| == |s.th| && |s'.conds| == |s.conds| && |s'.mutexes| == |s.mutexes|
    && (forall u {:trigger s'.th[u]} :: 0 <= u < |s.th| && u != t ==> s'.th[u] == s.th[u])
    && (forall u {:trigger u in s'.runq} :: u != t ==> (u in s'.runq <==> u in s.runq))
    && (forall u {:trigger u in s'.zombieq} :: u != t ==> (u in s'.zombieq <==> u in s.zombieq))
    && (forall u {:trigger u in s'.sleepq} :: u != t ==> (u in s'.sleepq <==> u in s.sleepq))
    && (forall u {:trigger u in polling'} :: u != t ==> (u in polling' <==> u in polling))
    && (forall u: nat :: u != t ==> (s'.current == Some(u) <==> s.current == Some(u)))
    && (forall c, u {:trigger u in s'.conds[c]} :: 0 <= c < |s.conds| && u != t ==> (u in s'.conds[c] <==> u in s.conds[c]))
    && (forall m, u {:trigger u in s'.mutexes[m].waitq} :: 0 <= m < |s.mutexes| && u != t ==> (u in s'.mutexes[m].waitq <==> u in s.mutexes[m].waitq))
    && (forall m {:trigger s'.mutexes[m]} :: 0 <= m < |s.mutexes| ==> s'.mutexes[m].owner == s.mutexes[m].owner)
  }

  lemma {:induction false} CoreFrame(s: Vp, polling: set<nat>, s': Vp, polling': set<nat>, t: nat)
    requires Core(s, polling) && t < |s.th| && OthersSame(s, polling, s', polling', t)
    requires QueuesOk(s') && (forall u :: u in polling' ==> u < |s'.th|) && Placed(s', polling', t)
    ensures Core(s', polling')
  {
    forall u | 0 <= u < |s'.th| ensures Placed(s', polling', u) {
      if u != t {
        assert Placed(s, polling, u);
        assert s'.th[u] == s.th[u];
      }
    }
  }

  /** A waiting thread becomes runnable, its record changed to `x` on the way. */
  lemma {:induction false} ResumeCore(s: Vp, polling: set<nat>, t: nat, x: Tcb, polling': set<nat>)
    requires Core(s, polling) && t < |s.th| && Waiting(s.th[t].state)
    requires x.onSleepQ == s.th[t].onSleepQ && x.term == s.th[t].term
    requires CondOf(x.at) == CondOf(s.th[t].at) && (x.at.InJoin? ==> x.at == s.th[t].at) && !x.at.Done?
    requires (x.at.InLock? || s.th[t].at.InLock?) ==> x.at == s.th[t].at && x.interrupt
    requires Coupled(x.(state := RUNNABLE, onSleepQ := false))
    requires polling' == (if x.at.InPoll? then polling + {t} else polling - {t})
    ensures Core(Wake(Set(s, t, x), t), polling')
  {
    var s' := Wake(Set(s, t, x), t);
    assert Placed(s, polling, t);
    assert t !in s.runq;
    assert Placed(s', polling', t);
    assert QueuesOk(s');
    CoreFrame(s, polling, s', polling', t);
  }

  lemma {:induction false} ScheduleCore(s: Vp, polling: set<nat>)
    requires Core(s, polling) && s.current == None
    ensures RunqInRange(s) && Core(Schedule(s), polling)
    ensures Schedule(s).current.None? ==> Schedule(s).runq == []
  {
    assert forall i :: 0 <= i < |s.runq| ==> s.runq[i] in s.runq;
    if s.runq != [] {
      var h := s.runq[0];
      var s' := Schedule(s);
      assert Placed(s, polling, h);
      assert forall u :: u in s.runq[1..] <==> u in s.runq && u != h;
      assert Placed(s', polling, h);
      CoreFrame(s, polling, s', polling, h);
    }
  }

  lemma {:induction false} RunningMe(s: Vp)
    requires Inv(s) && s.current.Some?
    ensures Running(s) && Placed(s, Threads(s.ioq), s.current.value)
    ensures s.th[s.current.value].state == RUNNING && !s.th[s.current.value].at.Done?
  {
    assert forall i :: 0 <= i < |s.runq| ==> s.runq[i] in s.runq;
    assert Placed(s, Threads(s.ioq), s.current.value);
  }

  /** Steps that leave queues, io queue and event system alone but for thread `t`. */
  lemma {:induction false} InvFrame(s: Vp, s': Vp, t: nat)
    requires Inv(s) && t < |s.th| && s'.ioq == s.ioq && s'.ep == s.ep
    requires OthersSame(s, Threads(s.ioq), s', Threads(s.ioq), t)
    requires QueuesOk(s') && Placed(s', Threads(s.ioq), t) && (s'.current.None? ==> s'.runq == [])
    ensures Inv(s')
  {
    CoreFrame(s, Threads(s.ioq), s', Threads(s.ioq), t);
  }

  lemma {:induction false} ClearInterruptKeeps(s: Vp)
    requires Inv(s) && s.current.Some? && s.th[s.current.value].at.User?
    ensures Inv(ClearInterrupt(s, s.current.value))
  {
    RunningMe(s);
    InvFrame(s, ClearInterrupt(s, s.current.value), s.current.value);
  }

  /** A blocked thread hands over to the next one. */
  lemma {:induction false} BlockedKeeps(s: Vp, s': Vp, t: nat)
    requires Inv(s) && t < |s.th| && s'.current == None && s'.ioq == s.ioq && s'.ep == s.ep
    requires OthersSame(s, Threads(s.ioq), s', Threads(s.ioq), t)
    requires QueuesOk(s') && Placed(s', Threads(s.ioq), t)
    ensures RunqInRange(s') && Inv(Schedule(s'))
  {
    CoreFrame(s, Threads(s.ioq), s', Threads(s.ioq), t);
    ScheduleCore(s', Threads(s.ioq));
  }

  // ---------- Sleeping ----------

  lemma {:induction false} UsleepKeeps(s: Vp, usecs: Option<nat>)
    requires Inv(s) && s.current.Some? && s.th[s.current.value].at.User?
    ensures Running(s) && Inv(Usleep(s, usecs).0)
  {
    RunningMe(s);
    var me := s.current.value;
    if s.th[me].interrupt {
      ClearInterruptKeeps(s);
    } else {
      var state := if usecs.Some? then SLEEPING else SUSPENDED;
      BlockedKeeps(s, Block(AddSleepQ(s, me, usecs), me, state, InSleep), me);
    }
  }

  lemma {:induction false} FinishKeeps(s: Vp)
    requires Inv(s) && s.current.Some?
    requires s.th[s.current.value].at.InSleep? || s.th[s.current.value].at.Polled?
    ensures Running(s) && forall n :: Inv(Conclude(s, s.current.value, n).0)
  {
    RunningMe(s);
    var me := s.current.value;
    forall n ensures Inv(Conclude(s, me, n).0) {
      InvFrame(s, Conclude(s, me, n).0, me);
    }
  }

  // ---------- Condition variables ----------

  lemma {:induction false} RemoveDistinct(q: seq<nat>, t: nat)
    requires Distinct(q)
    ensures Distinct(Remove(q, t)) && |Remove(q, t)| <= |q|
  {
    if q != [] {
      TailDistinct(q);
      RemoveDistinct(q[1..], t);
      assert Remove(q, t) == if q[0] == t then Remove(q[1..], t) else [q[0]] + Remove(q[1..], t);
      hide Remove, Distinct;
      FrontDistinct(q[0], Remove(q[1..], t));
    }
  }

  lemma {:induction false} TailDistinct(q: seq<nat>)
    requires q != [] && Distinct(q)
    ensures Distinct(q[1..]) && q[0] !in q[1..]
  {
    assert forall i :: 0 <= i < |q[1..]| ==> q[1..][i] == q[i + 1];
  }

  lemma {:induction false} FrontDistinct(x: nat, r: seq<nat>)
    requires Distinct(r) && x !in r
    ensures Distinct([x] + r)
  {
    assert forall i :: 0 <= i < |r| ==> r[i] in r;
  }

  lemma {:induction false} WaitOnKeeps(s: Vp, c: nat, timeout: Option<nat>, at: Point)
    requires Inv(s) && s.current.Some? && s.th[s.current.value].at.User? && !s.th[s.current.value].interrupt
    requires c < |s.conds| && CondOf(at) == Some(c) && (at.InJoin? ==> at.target < |s.th|)
    ensures Running(s) && Inv(WaitOn(s, s.current.value, c, timeout, at))
  {
    RunningMe(s);
    var me := s.current.value;
    var s' := Block(AddSleepQ(s.(conds := s.conds[c := s.conds[c] + [me]]), me, timeout), me, COND_WAIT, at);
    WaitOnPlaced(s, s', Threads(s.ioq), c, timeout, at, me);
    hide Inv, OthersSame, QueuesOk, Placed;
    BlockedKeeps(s, s', me);
  }

  lemma {:induction false} WaitOnPlaced(s: Vp, s': Vp, polling: set<nat>, c: nat, timeout: Option<nat>, at: Point,
      me: nat)
    requires Core(s, polling) && me < |s.th| && s.current == Some(me) && s.th[me].at.User?
             && s.th[me].state == RUNNING && !s.th[me].interrupt
    requires c < |s.conds| && CondOf(at) == Some(c) && (at.InJoin? ==> at.target < |s.th|)
    requires s' == Block(AddSleepQ(s.(conds := s.conds[c := s.conds[c] + [me]]), me, timeout), me, COND_WAIT, at)
    ensures OthersSame(s, polling, s', polling, me) && QueuesOk(s') && Placed(s', polling, me)
  {
    assert Placed(s, polling, me);
    assert me !in s.conds[c];
  }

  lemma {:induction false} WaitOverKeeps(s: Vp)
    requires Inv(s) && s.current.Some? && CondOf(s.th[s.current.value].at).Some?
    ensures Running(s) && CondOf(s.th[s.current.value].at).value < |s.conds|
    ensures Inv(WaitOver(s, s.current.value, CondOf(s.th[s.current.value].at).value).0)
  {
    RunningMe(s);
    var me := s.current.value;
    var c := CondOf(s.th[me].at).value;
    RemoveDistinct(s.conds[c], me);
    var s' := WaitOver(s, me, c).0;
    assert Placed(s', Threads(s.ioq), me);
    InvFrame(s, s', me);
  }

  /** Waking waiters of a condition variable. */
  lemma {:induction false} WakeCondCore(s: Vp, polling: set<nat>, t: nat)
    requires Core(s, polling) && t < |s.th| && s.th[t].state.COND_WAIT?
    ensures Core(Wake(s, t), polling)
  {
    assert Placed(s, polling, t);
    assert Set(s, t, s.th[t]) == s;
    assert t !in polling;
    assert polling - {t} == polling;
    ResumeCore(s, polling, t, s.th[t], polling);
  }

  lemma {:induction false} WakeAllCore(s: Vp, polling: set<nat>, q: seq<nat>)
    requires Core(s, polling) && forall i :: 0 <= i < |q| ==> q[i] < |s.th|
    ensures Core(WakeAll(s, q), polling)
    ensures var r := WakeAll(s, q); r.current == s.current && r.ioq == s.ioq && r.ep == s.ep && r.mutexes == s.mutexes
    decreases |q|
  {
    if q != [] {
      var s' := if s.th[q[0]].state == COND_WAIT then Wake(s, q[0]) else s;
      if s.th[q[0]].state == COND_WAIT { WakeCondCore(s, polling, q[0]); }
      WakeAllCore(s', polling, q[1..]);
    }
  }

  lemma {:induction false} SignalCore(s: Vp, polling: set<nat>, c: nat, broadcast: bool)
    requires Core(s, polling) && c < |s.conds|
    ensures CondInRange(s, c) && Core(Signal(s, c, broadcast), polling)
    ensures var r := Signal(s, c, broadcast); r.current == s.current && r.ioq == s.ioq && r.ep == s.ep && r.mutexes == s.mutexes
  {
    assert forall i :: 0 <= i < |s.conds[c]| ==> s.conds[c][i] in s.conds[c];
    if broadcast {
      WakeAllCore(s, polling, s.conds[c]);
    } else {
      FirstInFound(s.th, s.conds[c], COND_WAIT);
      if FirstIn(s.th, s.conds[c], COND_WAIT).Some? {
        WakeCondCore(s, polling, FirstIn(s.th, s.conds[c], COND_WAIT).value);
      }
    }
  }

  lemma {:induction false} SignalKeeps(s: Vp, c: nat, broadcast: bool)
    requires Inv(s) && s.current.Some? && c < |s.conds|
    ensures CondInRange(s, c) && Inv(Signal(s, c, broadcast))
  {
    SignalCore(s, Threads(s.ioq), c, broadcast);
  }

  // ---------- Mutexes ----------

  lemma {:induction false} LockKeeps(s: Vp, m: nat)
    requires Inv(s) && s.current.Some? && s.th[s.current.value].at.User? && m < |s.mutexes|
    ensures Running(s) && Inv(Lock(s, m).0)
  {
    RunningMe(s);
    var me, mutex := s.current.value, s.mutexes[m];
    if s.th[me].interrupt {
      ClearInterruptKeeps(s);
    } else if mutex.owner == None {
      TakeKeeps(s, m);
    } else if mutex.owner != Some(me) {
      var s' := Block(SetMutex(s, m, mutex.(waitq := mutex.waitq + [me])), me, LOCK_WAIT, InLock(m));
      LockPlaced(s, s', Threads(s.ioq), me, m);
      hide Inv, OthersSame, QueuesOk, Placed;
      BlockedKeeps(s, s', me);
    }
  }

  lemma {:induction false} LockPlaced(s: Vp, s': Vp, polling: set<nat>, me: nat, m: nat)
    requires Core(s, polling) && me < |s.th| && s.current == Some(me) && s.th[me].at.User?
             && s.th[me].state == RUNNING && !s.th[me].interrupt
    requires m < |s.mutexes| && s.mutexes[m].owner != None && s.mutexes[m].owner != Some(me)
    requires s' == Block(SetMutex(s, m, s.mutexes[m].(waitq := s.mutexes[m].waitq + [me])), me, LOCK_WAIT, InLock(m))
    ensures OthersSame(s, polling, s', polling, me) && QueuesOk(s') && Placed(s', polling, me)
  {
    assert Placed(s, polling, me);
    assert me !in s.mutexes[m].waitq;
  }

  /** A free mutex can be given to a running thread: whoever is still queued
      has been resumed by an interrupt. */
  lemma {:induction false} TakeKeeps(s: Vp, m: nat)
    requires Inv(s) && s.current.Some? && s.th[s.current.value].at.User? && m < |s.mutexes|
             && s.mutexes[m].owner == None
    ensures Inv(SetMutex(s, m, s.mutexes[m].(owner := s.current)))
  {
    forall t | 0 <= t < |s.th| && s.th[t].at == InLock(m) ensures LockOk(s.current, t, s.th[t]) {
      assert Placed(s, Threads(s.ioq), t);
    }
    OwnerKeeps(s, m, s.current);
  }

  lemma {:induction false} OwnerKeeps(s: Vp, m: nat, owner: Option<nat>)
    requires Inv(s) && m < |s.mutexes|
    requires forall t :: 0 <= t < |s.th| && s.th[t].at == InLock(m) ==> LockOk(owner, t, s.th[t])
    ensures Inv(SetMutex(s, m, s.mutexes[m].(owner := owner)))
  {
    var s' := SetMutex(s, m, s.mutexes[m].(owner := owner));
    assert forall k :: 0 <= k < |s.mutexes| ==> s'.mutexes[k].waitq == s.mutexes[k].waitq;
    forall t | 0 <= t < |s'.th| ensures Placed(s', Threads(s'.ioq), t) {
      assert Placed(s, Threads(s.ioq), t);
    }
  }

  lemma {:induction false} TryLockKeeps(s: Vp, m: nat)
    requires Inv(s) && s.current.Some? && s.th[s.current.value].at.User? && m < |s.mutexes|
    ensures Running(s) && Inv(TryLock(s, m).0)
  {
    RunningMe(s);
    if s.mutexes[m].owner == None { TakeKeeps(s, m); }
  }

  lemma {:induction false} LockAfterKeeps(s: Vp)
    requires Inv(s) && s.current.Some? && s.th[s.current.value].at.InLock?
    ensures Running(s) && s.th[s.current.value].at.m < |s.mutexes| && Inv(LockAfter(s).0)
  {
    RunningMe(s);
    var me, m := s.current.value, s.th[s.current.value].at.m;
    var s' := LockAfter(s).0;
    LockAfterPlaced(s, s', Threads(s.ioq), me, m);
    hide Inv, OthersSame, QueuesOk, Placed;
    InvFrame(s, s', me);
  }

  lemma {:induction false} LockAfterPlaced(s: Vp, s': Vp, polling: set<nat>, me: nat, m: nat)
    requires Core(s, polling) && Running(s) && s.current == Some(me) && me < |s.th| && s.th[me].at == InLock(m)
             && m < |s.mutexes|
    requires s' == LockAfter(s).0
    ensures OthersSame(s, polling, s', polling, me) && QueuesOk(s') && Placed(s', polling, me) && s'.current.Some?
  {
    assert Placed(s, polling, me);
    RemoveDistinct(s.mutexes[m].waitq, me);
  }

  lemma {:induction false} UnlockKeeps(s: Vp, m: nat)
    requires Inv(s) && s.current.Some? && s.th[s.current.value].at.User? && m < |s.mutexes|
    ensures Running(s) && MutexInRange(s, m) && Inv(Unlock(s, m).0)
  {
    RunningMe(s);
    var mutex, me := s.mutexes[m], s.current.value;
    assert forall i :: 0 <= i < |mutex.waitq| ==> mutex.waitq[i] in mutex.waitq;
    if mutex.owner == s.current {
      FirstInFound(s.th, mutex.waitq, LOCK_WAIT);
      var next := FirstIn(s.th, mutex.waitq, LOCK_WAIT);
      forall t | 0 <= t < |s.th| && s.th[t].at == InLock(m) && Some(t) != next ensures LockOk(next, t, s.th[t]) {
        assert Placed(s, Threads(s.ioq), t);
        assert t in mutex.waitq;
      }
      if next.None? {
        OwnerKeeps(s, m, None);
      } else {
        assert Placed(s, Threads(s.ioq), next.value);
        HandOverKeeps(s, m, next.value);
      }
    }
  }

  lemma {:induction false} HandOverKeeps(s: Vp, m: nat, t: nat)
    requires Inv(s) && m < |s.mutexes| && t < |s.th| && s.th[t].at == InLock(m) && s.th[t].state.LOCK_WAIT?
    requires forall u :: 0 <= u < |s.th| && s.th[u].at == InLock(m) && u != t ==> LockOk(Some(t), u, s.th[u])
    requires s.current.Some?
    ensures var u := SetMutex(s, m, s.mutexes[m].(owner := Some(t)));
            Inv(Set(u, t, u.th[t].(state := RUNNABLE)).(runq := u.runq + [t]))
  {
    var v := SetMutex(s, m, s.mutexes[m].(owner := Some(t)));
    var s' := Set(v, t, v.th[t].(state := RUNNABLE)).(runq := v.runq + [t]);
    assert forall k :: 0 <= k < |s.mutexes| ==> s'.mutexes[k].waitq == s.mutexes[k].waitq;
    assert Placed(s, Threads(s.ioq), t);
    assert t !in s.runq;
    forall u | 0 <= u < |s'.th| ensures Placed(s', Threads(s'.ioq), u) {
      assert Placed(s, Threads(s.ioq), u);
    }
  }

  // ---------- Threads ----------

  lemma {:induction false} CreateKeeps(s: Vp, joinable: bool)
    requires Inv(s) && s.current.Some?
    ensures Inv(Create(s, joinable))
  {
    var s' := Create(s, joinable);
    var n := |s.th|;
    assert n !in s.runq;
    forall t | 0 <= t < |s'.th| ensures Placed(s', Threads(s'.ioq), t) {
      if t < n { assert Placed(s, Threads(s.ioq), t); assert s'.th[t] == s.th[t]; }
    }
  }

  lemma {:induction false} CondNewKeeps(s: Vp)
    requires Inv(s)
    ensures Inv(s.(conds := s.conds + [[]])) && Inv(s.(mutexes := s.mutexes + [Mutex(None, [])]))
  {
    var s1, s2 := s.(conds := s.conds + [[]]), s.(mutexes := s.mutexes + [Mutex(None, [])]);
    forall t | 0 <= t < |s.th| ensures Placed(s1, Threads(s.ioq), t) { assert Placed(s, Threads(s.ioq), t); }
    forall t | 0 <= t < |s.th| ensures Placed(s2, Threads(s.ioq), t) { assert Placed(s, Threads(s.ioq), t); }
  }

  lemma {:induction false} InterruptKeeps(s: Vp, u: nat)
    requires Inv(s) && s.current.Some? && u < |s.th|
    ensures Inv(Interrupt(s, u))
  {
    assert Placed(s, Threads(s.ioq), u);
    var x := s.th[u].(interrupt := true);
    if Active(s.th[u].state) {
      InvFrame(s, Set(s, u, x), u);
    } else if s.th[u].state != ZOMBIE {
      assert Threads(s.ioq) == if x.at.InPoll? then Threads(s.ioq) + {u} else Threads(s.ioq) - {u};
      ResumeCore(s, Threads(s.ioq), u, x, Threads(s.ioq));
    }
  }

  lemma {:induction false} ExitKeeps(s: Vp)
    requires Inv(s) && s.current.Some? && s.th[s.current.value].at.User?
    ensures Running(s)
    ensures s.th[s.current.value].term.Some? ==> CondInRange(s, s.th[s.current.value].term.value)
    ensures Inv(Exit(s))
  {
    RunningMe(s);
    var me := s.current.value;
    match s.th[me].term
    case None =>
      BlockedKeeps(s, Block(s, me, RUNNING, Done), me);
    case Some(c) =>
      assert forall i :: 0 <= i < |s.conds[c]| ==> s.conds[c][i] in s.conds[c];
      var t := Block(s, me, ZOMBIE, InExit).(zombieq := s.zombieq + [me]);
      ZombieCore(s, t);
      SignalCore(t, Threads(s.ioq), c, false);
      ScheduleCore(Signal(t, c, false), Threads(s.ioq));
  }

  lemma {:induction false} ZombieCore(s: Vp, t: Vp)
    requires Inv(s) && s.current.Some? && s.th[s.current.value].at.User?
    requires t == Block(s, s.current.value, ZOMBIE, InExit).(zombieq := s.zombieq + [s.current.value])
    ensures Core(t, Threads(s.ioq))
  {
    RunningMe(s);
    var me := s.current.value;
    assert me !in s.zombieq;
    assert Placed(t, Threads(s.ioq), me);
    CoreFrame(s, Threads(s.ioq), t, Threads(s.ioq), me);
  }

  lemma {:induction false} ExitAfterKeeps(s: Vp)
    requires Inv(s) && s.current.Some? && s.th[s.current.value].at.InExit?
    ensures Running(s) && Inv(ExitAfter(s))
  {
    RunningMe(s);
    var me := s.current.value;
    BlockedKeeps(s, Block(Set(s, me, s.th[me].(term := None)), me, RUNNING, Done), me);
  }

  lemma {:induction false} ReapKeeps(s: Vp, u: nat)
    requires Inv(s) && s.current.Some? && u < |s.th| && s.th[u].state.ZOMBIE?
    ensures Inv(Reap(s, u))
  {
    assert Placed(s, Threads(s.ioq), u);
    RemoveDistinct(s.zombieq, u);
    InvFrame(s, Reap(s, u), u);
  }

  lemma {:induction false} JoinKeeps(s: Vp, u: nat)
    requires Inv(s) && s.current.Some? && s.th[s.current.value].at.User? && u < |s.th|
    ensures Running(s) && (s.th[u].term.Some? ==> s.th[u].term.value < |s.conds|) && Inv(Join(s, u).0)
  {
    RunningMe(s);
    assert Placed(s, Threads(s.ioq), u);
    var me := s.current.value;
    if s.th[u].term.Some? && me != u && s.conds[s.th[u].term.value] == [] {
      if s.th[u].state == ZOMBIE {
        ReapKeeps(s, u);
      } else if s.th[me].interrupt {
        ClearInterruptKeeps(s);
      } else {
        WaitOnKeeps(s, s.th[u].term.value, None, InJoin(s.th[u].term.value, u));
      }
    }
  }

  lemma {:induction false} JoinAfterKeeps(s: Vp)
    requires Inv(s) && s.current.Some? && s.th[s.current.value].at.InJoin?
    ensures Running(s) && s.th[s.current.value].at.c < |s.conds| && s.th[s.current.value].at.target < |s.th|
    ensures Inv(JoinAfter(s).0)
  {
    RunningMe(s);
    var me, c, u := s.current.value, s.th[s.current.value].at.c, s.th[s.current.value].at.target;
    WaitOverKeeps(s);
    var (t, rv) := WaitOver(s, me, c);
    if rv == Value(0) {
      if t.th[u].state == ZOMBIE { ReapKeeps(t, u); } else { WaitOnKeeps(t, c, None, InJoin(c, u)); }
    }
  }

  // ---------- Polling and the idle thread ----------

  /** The threads of some requests, in order. */
  function ThreadSeq(qs: seq<Request>): (r: seq<nat>)
    ensures |r| == |qs| && forall i :: 0 <= i < |qs| ==> r[i] == qs[i].thread
  {
    seq(|qs|, i requires 0 <= i < |qs| => qs[i].thread)
  }

  lemma {:induction false} PollKeeps(s: Vp, pds: seq<Pollfd>, timeout: Option<nat>, grow: bool, refuse: set<nat>)
    requires Inv(s) && s.current.Some? && s.th[s.current.value].at.User?
    ensures Running(s) && Inv(Poll(s, pds, timeout, grow, refuse).0)
  {
    RunningMe(s);
    var me := s.current.value;
    if s.th[me].interrupt {
      ClearInterruptKeeps(s);
    } else {
      PollsetAddKeeps(s.ep, s.ioq, me, pds, grow, refuse);
      var (ep, ok) := PollsetAdd(s.ep, pds, grow, refuse);
      if !ok {
        OtherEp(s, ep);
      } else {
        PollBlocks(s, Threads(s.ioq), ep, pds, timeout);
        ThreadsAppend(s.ioq, Request(me, pds));
        forall k, j | 0 <= k < j < |s.ioq + [Request(me, pds)]|
          ensures (s.ioq + [Request(me, pds)])[k].thread != (s.ioq + [Request(me, pds)])[j].thread {
          assert j == |s.ioq| ==> s.ioq[k].thread in Threads(s.ioq);
        }
      }
    }
  }

  lemma {:induction false} PollBlocks(s: Vp, polling: set<nat>, ep: Ep, pds: seq<Pollfd>, timeout: Option<nat>)
    requires Core(s, polling) && s.current.Some? && s.current.value < |s.th|
    requires s.th[s.current.value].at.User? && !s.th[s.current.value].interrupt
    ensures var t := AddSleepQ(s.(ep := ep, ioq := s.ioq + [Request(s.current.value, pds)]), s.current.value, timeout);
            var s' := Block(t, s.current.value, IO_WAIT, InPoll);
            && RunqInRange(s') && Core(Schedule(s'), polling + {s.current.value}) && s.current.value !in polling
            && (Schedule(s').current.None? ==> Schedule(s').runq == [])
  {
    var me := s.current.value;
    var t := AddSleepQ(s.(ep := ep, ioq := s.ioq + [Request(me, pds)]), me, timeout);
    var s' := Block(t, me, IO_WAIT, InPoll);
    assert Placed(s, polling, me);
    assert Placed(s', polling + {me}, me);
    CoreFrame(s, polling, s', polling + {me}, me);
    ScheduleCore(s', polling + {me});
  }

  lemma {:induction false} OtherEp(s: Vp, ep: Ep)
    requires Inv(s) && EpInv(ep, s.ioq)
    ensures Inv(s.(ep := ep))
  {
    var s' := s.(ep := ep);
    forall t | 0 <= t < |s'.th| ensures Placed(s', Threads(s'.ioq), t) { assert Placed(s, Threads(s.ioq), t); }
  }

  lemma {:induction false} ThreadsAppend(ioq: seq<Request>, q: Request)
    ensures Threads(ioq + [q]) == Threads(ioq) + {q.thread}
  {
    var more := ioq + [q];
    assert more[|ioq|] == q;
    forall t | t in Threads(ioq) + {q.thread} ensures t in Threads(more) {
      if t in Threads(ioq) { var i :| 0 <= i < |ioq| && ioq[i].thread == t; assert more[i] == ioq[i]; }
    }
  }

  lemma {:induction false} ThreadsWithout(ioq: seq<Request>, i: nat)
    requires i < |ioq| && forall k, j :: 0 <= k < j < |ioq| ==> ioq[k].thread != ioq[j].thread
    ensures Threads(ioq[..i] + ioq[i + 1..]) == Threads(ioq) - {ioq[i].thread}
  {
    var rest := ioq[..i] + ioq[i + 1..];
    assert forall j :: 0 <= j < |rest| ==> rest[j] == ioq[if j < i then j else j + 1];
    forall t | t in Threads(ioq) - {ioq[i].thread} ensures t in Threads(rest) {
      var j :| 0 <= j < |ioq| && ioq[j].thread == t;
      assert rest[if j < i then j else j - 1] == ioq[j];
    }
  }

  /** A resumed poller that timed out or was interrupted finds its request on the io queue. */
  lemma {:induction false} RequestIsThere(s: Vp)
    requires Inv(s) && s.current.Some? && s.th[s.current.value].at.InPoll?
    ensures RequestThere(s, s.current.value)
  {
    RunningMe(s);
    var i := RequestOf(s.ioq, s.current.value);
    assert InRange(s.ep, s.ioq[i].pds);
  }

  lemma {:induction false} PollAfterKeeps(s: Vp)
    requires Inv(s) && s.current.Some? && (s.th[s.current.value].at.InPoll? || s.th[s.current.value].at.Polled?)
    ensures Running(s) && (s.th[s.current.value].at.InPoll? ==> RequestThere(s, s.current.value))
    ensures Inv(PollAfter(s).0)
  {
    RunningMe(s);
    var me := s.current.value;
    if s.th[me].at.Polled? {
      FinishKeeps(s);
    } else {
      RequestIsThere(s);
      hide Core, EpInv, DelAll, Placed, QueuesOk, Conclude;
      var i := RequestOf(s.ioq, me);
      PollsetDelKeeps(s.ep, s.ioq, i);
      ThreadsWithout(s.ioq, i);
      var u := s.(ioq := s.ioq[..i] + s.ioq[i + 1..], ep := DelAll(s.ep, s.ioq[i].pds));
      PollEnds(s, Threads(s.ioq), u, Threads(u.ioq));
      assert forall j :: 0 <= j < |u.ioq| ==> u.ioq[j] == s.ioq[if j < i then j else j + 1];
    }
  }

  lemma {:induction false} PollEnds(s: Vp, polling: set<nat>, u: Vp, polling': set<nat>)
    requires Core(s, polling) && s.current.Some? && s.current.value < |s.th| && s.th[s.current.value].at.InPoll?
    requires u == s.(ioq := u.ioq, ep := u.ep) && polling' == polling - {s.current.value}
    ensures Core(Conclude(u, s.current.value, 0).0, polling')
  {
    var me := s.current.value;
    var s' := Conclude(u, me, 0).0;
    assert Placed(s, polling, me);
    assert Placed(s', polling', me);
    CoreFrame(s, polling, s', polling', me);
  }

  /** Dispatch is entered with an empty run queue, so whoever has a request on
      the io queue is waiting for it. */
  lemma {:induction false} PollersWait(s: Vp, t: nat)
    requires Inv(s) && s.current.None? && t in Threads(s.ioq)
    ensures s.runq == [] && t < |s.th| && s.th[t].state.IO_WAIT? && s.th[t].at.InPoll?
  {
    assert Placed(s, Threads(s.ioq), t);
  }

  lemma {:induction false} NotifyCore(s: Vp, polling: set<nat>, q: Request)
    requires Core(s, polling) && q.thread in polling && q.thread < |s.th| && s.th[q.thread].state.IO_WAIT?
    ensures Core(Notified(s, q), polling - {q.thread})
  {
    assert Placed(s, polling, q.thread);
    ResumeCore(s, polling, q.thread, s.th[q.thread].(at := Polled(q.pds)), polling - {q.thread});
  }

  /** What dispatch does to the threads outside its list, and to the queues. */
  lemma {:induction false} NotifyAllFrame(s: Vp, qs: seq<Request>)
    requires forall i :: 0 <= i < |qs| ==> qs[i].thread < |s.th|
    ensures var r := NotifyAll(s, qs);
            && r.runq == s.runq + ThreadSeq(qs)
            && r.current == s.current && r.ioq == s.ioq && r.ep == s.ep && r.clock == s.clock && r.mutexes == s.mutexes
            && (forall t :: 0 <= t < |s.th| && t !in ThreadSeq(qs) ==> r.th[t] == s.th[t])
  {
    if qs != [] {
      var n := |qs| - 1;
      NotifyAllFrame(s, qs[..n]);
      assert ThreadSeq(qs) == ThreadSeq(qs[..n]) + [qs[n].thread];
    }
  }

  lemma {:induction false} NotifyAllCore(s: Vp, polling: set<nat>, qs: seq<Request>)
    requires Core(s, polling)
    requires forall i, j :: 0 <= i < j < |qs| ==> qs[i].thread != qs[j].thread
    requires forall i :: 0 <= i < |qs| ==> qs[i].thread in polling && qs[i].thread < |s.th| && s.th[qs[i].thread].state.IO_WAIT?
    ensures Core(NotifyAll(s, qs), polling - Threads(qs))
  {
    if qs == [] {
      assert polling - Threads(qs) == polling;
    } else {
      var n := |qs| - 1;
      var q := qs[n];
      NotifyAllCore(s, polling, qs[..n]);
      NotifyAllFrame(s, qs[..n]);
      assert qs[..n] + [q] == qs;
      ThreadsAppend(qs[..n], q);
      assert q.thread !in ThreadSeq(qs[..n]);
      NotifyCore(NotifyAll(s, qs[..n]), polling - Threads(qs[..n]), q);
      assert polling - Threads(qs) == polling - Threads(qs[..n]) - {q.thread};
    }
  }

  lemma {:induction false} ExpireCore(s: Vp, polling: set<nat>, t: nat)
    requires Core(s, polling) && t in s.sleepq && t < |s.th|
    ensures Core(Expire(s, t), polling)
    ensures forall u :: u in Expire(s, t).sleepq <==> u in s.sleepq && u != t
  {
    assert Placed(s, polling, t);
    var x := if s.th[t].state == COND_WAIT then s.th[t].(timedOut := true) else s.th[t];
    assert Set(s, t, s.th[t]) == s;
    assert polling == if x.at.InPoll? then polling + {t} else polling - {t};
    ResumeCore(s, polling, t, x, polling);
  }

  lemma {:induction false} ExpireAllFrame(s: Vp, ts: seq<nat>)
    requires forall i :: 0 <= i < |ts| ==> ts[i] < |s.th|
    ensures var r := ExpireAll(s, ts);
            && r.runq == s.runq + ts
            && r.current == s.current && r.ioq == s.ioq && r.ep == s.ep && r.clock == s.clock && r.mutexes == s.mutexes
            && (forall t :: 0 <= t < |s.th| && t !in ts ==> r.th[t] == s.th[t])
            && (forall t :: t in s.sleepq && t !in ts ==> t in r.sleepq)
            && (forall t :: t in r.sleepq ==> t in s.sleepq)
  {
    if ts != [] {
      var n := |ts| - 1;
      assert ts[..n] + [ts[n]] == ts;
      ExpireAllFrame(s, ts[..n]);
    }
  }

  lemma {:induction false} ExpireAllCore(s: Vp, polling: set<nat>, ts: seq<nat>)
    requires Core(s, polling) && Distinct(ts)
    requires forall i :: 0 <= i < |ts| ==> ts[i] in s.sleepq && ts[i] < |s.th|
    ensures Core(ExpireAll(s, ts), polling)
  {
    if ts != [] {
      var n := |ts| - 1;
      ExpireAllCore(s, polling, ts[..n]);
      ExpireAllFrame(s, ts[..n]);
      assert ts[n] !in ts[..n];
      ExpireCore(ExpireAll(s, ts[..n]), polling, ts[n]);
    }
  }

  // ---------- What the pass over the io queue does to the threads ----------

  lemma {:induction false} SelectThreads(s: Ep, ioq: seq<Request>)
    requires AllInRange(s, ioq) && forall i, j :: 0 <= i < j < |ioq| ==> ioq[i].thread != ioq[j].thread
    ensures var kept, woken := Select(s, ioq, false), Select(s, ioq, true);
            && Threads(kept) + Threads(woken) == Threads(ioq) && Threads(kept) !! Threads(woken)
            && (forall i, j :: 0 <= i < j < |kept| ==> kept[i].thread != kept[j].thread)
            && (forall i, j :: 0 <= i < j < |woken| ==> woken[i].thread != woken[j].thread)
  {
    if ioq != [] {
      var n := |ioq| - 1;
      assert forall i :: 0 <= i < n ==> ioq[..n][i] == ioq[i];
      SelectThreads(s, ioq[..n]);
      assert InRange(s, ioq[n].pds);
      var b := Notify(s, ioq[n]);
      var q, chosen := Report(s, ioq[n]), Select(s, ioq[..n], b);
      assert ioq[..n] + [ioq[n]] == ioq;
      ThreadsAppend(ioq[..n], ioq[n]);
      ThreadsAppend(chosen, q);
      assert Select(s, ioq, !b) == Select(s, ioq[..n], !b) && Select(s, ioq, b) == chosen + [q];
      assert ioq[n].thread !in Threads(ioq[..n]);
      hide Select, Notify, Report, InRange, AllInRange;
      DistinctAppend(chosen, q);
    }
  }

  lemma {:induction false} DistinctAppend(ioq: seq<Request>, q: Request)
    requires q.thread !in Threads(ioq) && forall i, j :: 0 <= i < j < |ioq| ==> ioq[i].thread != ioq[j].thread
    ensures forall i, j :: 0 <= i < j < |ioq + [q]| ==> (ioq + [q])[i].thread != (ioq + [q])[j].thread
  {
    assert forall i :: 0 <= i < |ioq| ==> ioq[i].thread in Threads(ioq);
  }

  // ---------- One round of the idle thread ----------

  /** Dispatch hands every ready request to a thread waiting for it, once. */
  lemma {:induction false} DispatchedKeeps(s: Vp, fired: seq<Fired>)
    requires Inv(s) && s.current.None? && Reportable(s.ep, fired)
    ensures var d := Dispatch(s.ep, s.ioq, fired);
            && (forall i :: 0 <= i < |d.woken| ==> d.woken[i].thread < |s.th| && s.th[d.woken[i].thread].state.IO_WAIT?)
            && Distinct(ThreadSeq(d.woken))
            && Core(Dispatched(s, fired), Threads(d.kept))
            && EpInv(d.s, d.kept) && (forall i, j :: 0 <= i < j < |d.kept| ==> d.kept[i].thread != d.kept[j].thread)
  {
    var d := Dispatch(s.ep, s.ioq, fired);
    DispatchKeeps(s.ep, s.ioq, fired);
    PartedThreads(s, fired);
    forall i | 0 <= i < |d.woken|
      ensures d.woken[i].thread in Threads(s.ioq) && d.woken[i].thread < |s.th|
              && s.th[d.woken[i].thread].state.IO_WAIT? {
      assert d.woken[i].thread in Threads(d.woken);
      PollersWait(s, d.woken[i].thread);
    }
    var u := s.(ep := d.s, ioq := d.kept);
    SameThreadsCore(s, u, Threads(s.ioq));
    NotifyAllCore(u, Threads(s.ioq), d.woken);
    assert Threads(s.ioq) - Threads(d.woken) == Threads(d.kept);
  }

  lemma {:induction false} SameThreadsCore(s: Vp, u: Vp, polling: set<nat>)
    requires Core(s, polling) && u == s.(ep := u.ep, ioq := u.ioq, clock := u.clock)
    ensures Core(u, polling)
  {
    forall t | 0 <= t < |u.th| ensures Placed(u, polling, t) { assert Placed(s, polling, t); }
  }

  lemma {:induction false} PartedThreads(s: Vp, fired: seq<Fired>)
    requires Inv(s) && s.current.None? && Reportable(s.ep, fired)
    ensures var d := Dispatch(s.ep, s.ioq, fired);
            && Threads(d.kept) + Threads(d.woken) == Threads(s.ioq) && Threads(d.kept) !! Threads(d.woken)
            && (forall i, j :: 0 <= i < j < |d.kept| ==> d.kept[i].thread != d.kept[j].thread)
            && (forall i, j :: 0 <= i < j < |d.woken| ==> d.woken[i].thread != d.woken[j].thread)
  {
    if fired != [] {
      var m := Mark(s.ep, fired);
      assert AllInRange(m, s.ioq) by {
        forall i | 0 <= i < |s.ioq| ensures InRange(m, s.ioq[i].pds) { assert InRange(s.ep, s.ioq[i].pds); }
      }
      ScanSelects(m, s.ioq);
      SelectThreads(m, s.ioq);
    }
  }

  lemma {:induction false} IdleRoundKeeps(s: Vp, fired: seq<Fired>, now: nat, ts: seq<nat>)
    requires Inv(s) && s.current.None? && Reportable(s.ep, fired)
    requires forall i :: 0 <= i < |Dispatch(s.ep, s.ioq, fired).woken| ==> Dispatch(s.ep, s.ioq, fired).woken[i].thread < |s.th|
    requires Expired(Dispatched(s, fired), now, ts)
    ensures RunqInRange(ExpireAll(Dispatched(s, fired).(clock := now), ts))
    ensures Inv(IdleRound(s, fired, now, ts))
  {
    var d := Dispatch(s.ep, s.ioq, fired);
    DispatchedKeeps(s, fired);
    var r := Dispatched(s, fired);
    NotifyAllFrame(s.(ep := d.s, ioq := d.kept), d.woken);
    var u := r.(clock := now);
    SameThreadsCore(r, u, Threads(d.kept));
    assert forall i :: 0 <= i < |ts| ==> ts[i] in ts;
    ExpireAllCore(u, Threads(d.kept), ts);
    ExpireAllFrame(u, ts);
    ScheduleCore(ExpireAll(u, ts), Threads(d.kept));
  }
}
