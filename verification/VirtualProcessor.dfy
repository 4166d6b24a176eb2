/** The virtual processor of sched.c and sync.c. Its threads are objects, linked
    into the timeout heap and the run queue of a `TimeoutHeap.SleepQueue`; each
    call does one step of `Scheduler`. */
module VirtualProcessor {
  import opened Wrappers
  import opened Epoll
  import opened StThreads
  import opened Scheduler
  import opened SchedulerInvariant
  import opened SchedulerRuns
  import EventSystem
  import TimeoutHeap

  ghost function Record(t: Thread): Tcb
    reads t
  {
    Tcb(t.state, t.at, t.onSleepQ, t.interrupt, t.timedOut, t.due, t.term)
  }

  ghost function Records(ts: seq<Thread>): (r: seq<Tcb>)
    reads ts
    ensures |r| == |ts| && forall i :: 0 <= i < |ts| ==> r[i] == Record(ts[i])
  {
    if ts == [] then [] else Records(ts[..|ts| - 1]) + [Record(ts[|ts| - 1])]
  }

  ghost function Ids(ts: seq<Thread>): (r: seq<nat>)
    ensures |r| == |ts| && forall i :: 0 <= i < |ts| ==> r[i] == ts[i].id
  {
    if ts == [] then [] else Ids(ts[..|ts| - 1]) + [ts[|ts| - 1].id]
  }

  ghost function IdSet(ts: set<Thread>): set<nat> { set t | t in ts :: t.id }

  class Processor {
    const events: EventSystem.EpollData
    // the run queue, the timeout heap and the last clock reading
    const vp: TimeoutHeap.SleepQueue
    // every thread, by its id
    var threads: seq<Thread>
    var current: Option<nat>
    var zombieq: seq<nat>
    var ioq: seq<Request>
    var conds: seq<seq<nat>>
    var mutexes: seq<Mutex>

    /** The primordial thread is running. */
    constructor (fds: nat)
      requires fds > 0
      ensures Valid() && fresh(events) && fresh(vp) && fresh(vp.threads) && State() == Initial(fds)
    {
      events := new EventSystem.EpollData(fds);
      vp := new TimeoutHeap.SleepQueue();
      threads, current, zombieq, ioq, conds, mutexes := [], None, [], [], [], [];
      new;
      hide vp.Valid, vp.Flagged;
      var _ := NewThread(RUNNING, None);
      SetCurrent(Some(0));
    }

    ghost predicate Valid()
      reads this`threads, vp, vp.at, vp.threads
    {
      && vp.Valid() && vp.Flagged() && vp.threads == TimeoutHeap.Members(threads)
      && (forall i :: 0 <= i < |threads| ==> threads[i].id == i)
      && (forall t :: t in vp.runq ==> t in vp.threads)
    }

    /** The state as a value: threads by their ids, and the heap as the set of its threads. */
    ghost function State(): Vp
      reads this, events, vp, threads
    {
      Vp(Records(threads), current, Ids(vp.runq), zombieq, ioq, Asleep(), conds, mutexes,
         events.State(), vp.lastClock)
    }

    // ---------- One field at a time ----------

    method SetState(t: nat, state: State)
      requires Valid() && t < |State().th|
      modifies vp.threads`state
      ensures Valid() && State() == Set(old(State()), t, old(State()).th[t].(state := state))
    {
      hide Valid, Records, Record, Asleep;
      WriteState(t, state);
    }

    method WriteState(t: nat, state: State)
      requires Valid() && t < |threads|
      modifies vp.threads`state
      ensures Valid() && Records(threads) == old(Records(threads))[t := old(Records(threads)[t]).(state := state)]
    {
      DistinctThreads();
      hide vp.Valid, vp.Flagged;
      threads[t].state := state;
    }

    method SetPoint(t: nat, at: Point)
      requires Valid() && t < |State().th|
      modifies vp.threads`at
      ensures Valid() && State() == Set(old(State()), t, old(State()).th[t].(at := at))
    {
      hide Valid, Records, Record, Asleep;
      WritePoint(t, at);
    }

    method WritePoint(t: nat, at: Point)
      requires Valid() && t < |threads|
      modifies vp.threads`at
      ensures Valid() && Records(threads) == old(Records(threads))[t := old(Records(threads)[t]).(at := at)]
    {
      DistinctThreads();
      hide vp.Valid, vp.Flagged;
      threads[t].at := at;
    }

    method SetInterrupt(t: nat, interrupt: bool)
      requires Valid() && t < |State().th|
      modifies vp.threads`interrupt
      ensures Valid() && State() == Set(old(State()), t, old(State()).th[t].(interrupt := interrupt))
    {
      hide Valid, Records, Record, Asleep;
      WriteInterrupt(t, interrupt);
    }

    method WriteInterrupt(t: nat, interrupt: bool)
      requires Valid() && t < |threads|
      modifies vp.threads`interrupt
      ensures Valid() && Records(threads)
              == old(Records(threads))[t := old(Records(threads)[t]).(interrupt := interrupt)]
    {
      DistinctThreads();
      hide vp.Valid, vp.Flagged;
      threads[t].interrupt := interrupt;
    }

    method SetTimedOut(t: nat, timedOut: bool)
      requires Valid() && t < |State().th|
      modifies vp.threads`timedOut
      ensures Valid() && State() == Set(old(State()), t, old(State()).th[t].(timedOut := timedOut))
    {
      hide Valid, Records, Record, Asleep;
      WriteTimedOut(t, timedOut);
    }

    method WriteTimedOut(t: nat, timedOut: bool)
      requires Valid() && t < |threads|
      modifies vp.threads`timedOut
      ensures Valid() && Records(threads) == old(Records(threads))[t := old(Records(threads)[t]).(timedOut := timedOut)]
    {
      DistinctThreads();
      hide vp.Valid, vp.Flagged;
      threads[t].timedOut := timedOut;
    }

    method SetTerm(t: nat, term: Option<nat>)
      requires Valid() && t < |State().th|
      modifies vp.threads`term
      ensures Valid() && State() == Set(old(State()), t, old(State()).th[t].(term := term))
    {
      hide Valid, Records, Record, Asleep;
      WriteTerm(t, term);
    }

    method WriteTerm(t: nat, term: Option<nat>)
      requires Valid() && t < |threads|
      modifies vp.threads`term
      ensures Valid() && Records(threads) == old(Records(threads))[t := old(Records(threads)[t]).(term := term)]
    {
      DistinctThreads();
      hide vp.Valid, vp.Flagged;
      threads[t].term := term;
    }

    lemma {:induction false} RecordOf(t: nat)
      requires t < |State().th|
      ensures t < |threads|
              && State().th[t] == Tcb(threads[t].state, threads[t].at, threads[t].onSleepQ, threads[t].interrupt,
                                                    threads[t].timedOut, threads[t].due, threads[t].term)
    {
    }

    lemma {:induction false} DistinctThreads()
      requires Valid()
      ensures forall i, j :: 0 <= i < j < |threads| ==> threads[i] != threads[j]
      ensures forall i :: 0 <= i < |threads| ==> threads[i] in vp.threads
    {
      forall i, j | 0 <= i < j < |threads|
          ensures threads[i] != threads[j] { assert threads[i].id == i && threads[j].id == j; }
    }

    // ---------- Queues ----------

    method Enqueue(t: nat)
      requires Valid() && t < |State().th|
      modifies vp`runq
      ensures Valid() && State() == old(State()).(runq := old(State()).runq + [t])
    {
      DistinctThreads();
      vp.runq := vp.runq + [threads[t]];
      assert Ids(vp.runq) == old(Ids(vp.runq)) + [t];
    }

    /** Takes the first thread off the run queue. */
    method Dequeue() returns (t: nat)
      requires Valid() && vp.runq != []
      modifies vp`runq
      ensures Valid() && t == old(State()).runq[0] && State() == old(State()).(runq := old(State()).runq[1..])
    {
      t := vp.runq[0].id;
      vp.runq := vp.runq[1..];
      assert Ids(vp.runq) == old(Ids(vp.runq))[1..];
    }

    method AddSleepQ(t: nat, timeout: Option<nat>)
      requires Valid() && t < |State().th| && !State().th[t].onSleepQ
      modifies vp`root, vp`at, vp`size, vp.threads
      ensures Valid() && State() == Scheduler.AddSleepQ(old(State()), t, timeout)
    {
      hide State, Valid;
      if timeout.Some? {
        SleepFor(t, timeout.value);
      }
    }

    method SleepFor(t: nat, timeout: nat)
      requires Valid() && t < |State().th| && !State().th[t].onSleepQ
      modifies vp`root, vp`at, vp`size, vp.threads
      ensures Valid()
      ensures State() == Set(old(State()), t,
              old(State()).th[t].(due := old(State()).clock + timeout, onSleepQ := true)).(sleepq :=
                  old(State()).sleepq + {t})
    {
      hide Valid, Records, Record, IdSet, TimeoutHeap.Members;
      PutToSleep(t, timeout);
    }

    method PutToSleep(t: nat, timeout: nat)
      requires Valid() && t < |threads| && !Records(threads)[t].onSleepQ
      modifies vp`root, vp`at, vp`size, vp.threads
      ensures Valid() && Asleep() == old(Asleep()) + {t}
      ensures Records(threads)
              == old(Records(threads))[t := old(Records(threads)[t]).(due := vp.lastClock + timeout, onSleepQ := true)]
    {
      DistinctThreads();
      IdsMore(TimeoutHeap.Members(vp.at), threads[t]);
      assert threads[t].id == t;
      HeapAdd(t, timeout);
      hide Valid;
    }

    /** The threads in the heap. */
    ghost function Asleep(): set<nat>
      reads vp
    {
      IdSet(TimeoutHeap.Members(vp.at))
    }

    method HeapAdd(t: nat, timeout: nat)
      requires Valid() && t < |threads| && !threads[t].onSleepQ
      modifies vp`root, vp`at, vp`size, vp.threads
      ensures Valid() && TimeoutHeap.Members(vp.at) == old(TimeoutHeap.Members(vp.at)) + {threads[t]}
      ensures Record(threads[t]) == old(Record(threads[t])).(due := vp.lastClock + timeout, onSleepQ := true)
      ensures forall i :: 0 <= i < |threads| && i != t ==> Record(threads[i]) == old(Record(threads[i]))
    {
      DistinctThreads();
      hide vp.Valid, vp.Flagged, TimeoutHeap.Members;
      vp.AddSleepQ(threads[t], timeout);
    }

    /** Takes a thread off the heap, wherever in it. */
    method DelSleepQ(t: nat)
      requires Valid() && t < |State().th| && State().th[t].onSleepQ
      modifies vp`root, vp`at, vp`size, vp.threads
      ensures Valid()
      ensures State() == Set(old(State()), t, old(State()).th[t].(onSleepQ := false)).(sleepq :=
              old(State()).sleepq - {t})
    {
      hide Valid, Records, Record, IdSet, TimeoutHeap.Members;
      TakeOff(t);
    }

    method TakeOff(t: nat)
      requires Valid() && t < |threads| && Records(threads)[t].onSleepQ
      modifies vp`root, vp`at, vp`size, vp.threads
      ensures Valid() && Asleep() == old(Asleep()) - {t}
      ensures Records(threads) == old(Records(threads))[t := old(Records(threads)[t]).(onSleepQ := false)]
    {
      DistinctThreads();
      AsleepThreads();
      IdsLess(TimeoutHeap.Members(vp.at), threads[t]);
      assert threads[t].id == t;
      HeapDel(t);
      hide Valid;
    }

    method HeapDel(t: nat)
      requires Valid() && t < |threads| && threads[t].onSleepQ
      modifies vp`root, vp`at, vp`size, vp.threads
      ensures Valid() && TimeoutHeap.Members(vp.at) == old(TimeoutHeap.Members(vp.at)) - {threads[t]}
      ensures Record(threads[t]) == old(Record(threads[t])).(onSleepQ := false)
      ensures forall i :: 0 <= i < |threads| && i != t ==> Record(threads[i]) == old(Record(threads[i]))
    {
      DistinctThreads();
      hide vp.Valid, vp.Flagged, TimeoutHeap.Members;
      vp.DelSleepQ(threads[t]);
    }

    lemma {:induction false} AsleepThreads()
      requires Valid()
      ensures TimeoutHeap.Members(vp.at) <= vp.threads
    {
      vp.InThreads();
    }

    lemma {:induction false} IdsMore(ts: set<Thread>, t: Thread)
      ensures IdSet(ts + {t}) == IdSet(ts) + {t.id}
    {
    }

    lemma {:induction false} IdsLess(ts: set<Thread>, t: Thread)
      requires Valid() && t in threads && ts <= vp.threads
      ensures IdSet(ts - {t}) == IdSet(ts) - {t.id}
    {
      forall u | u in ts && u != t ensures u.id != t.id {
        if u.id == t.id { SameId(u, t); }
      }
    }

    lemma {:induction false} SameId(u: Thread, t: Thread)
      requires Valid() && u in vp.threads && t in threads && u.id == t.id
      ensures u == t
    {
      assert u in threads;
    }

    /** Off the sleep queue if need be, and to the end of the run queue. */
    method MakeRunnable(t: nat)
      requires Valid() && t < |State().th|
      modifies vp`root, vp`at, vp`size, vp`runq, vp.threads
      ensures Valid() && State() == Wake(old(State()), t)
    {
      RecordOf(t);
      hide State, Valid;
      ghost var s := State();
      if threads[t].onSleepQ {
        DelSleepQ(t);
      }
      SetState(t, RUNNABLE);
      Enqueue(t);
      SetTwice(s, t, s.th[t].(onSleepQ := false), s.th[t].(onSleepQ := false, state := RUNNABLE));
    }

    method NewThread(state: State, term: Option<nat>) returns (t: nat)
      requires Valid()
      modifies this`threads, vp`threads
      ensures Valid() && fresh(vp.threads - old(vp.threads)) && t == |old(threads)|
      ensures State() == old(State()).(th := old(State()).th + [Tcb(state, User, false, false, false, 0, term)])
    {
      hide vp.Valid, vp.Flagged, Asleep, Records;
      t := |threads|;
      ghost var s := State();
      var thread := new Thread(t, state, term);
      assert State() == s;
      hide State;
      Enlist(thread);
    }

    method Enlist(thread: Thread)
      requires Valid() && thread !in vp.threads && !thread.onSleepQ && thread.id == |threads|
      modifies this`threads, vp`threads
      ensures Valid() && vp.threads == old(vp.threads) + {thread} && threads == old(threads) + [thread]
      ensures State() == old(State()).(th := old(State()).th + [Record(thread)])
    {
      hide vp.Valid, vp.Flagged;
      threads := threads + [thread];
      vp.Enlist(thread);
      assert Records(threads) == old(Records(threads)) + [Record(thread)];
      hide Records, Record, Valid;
    }

    /** _st_vp_schedule */
    method Dispatcher()
      requires Valid() && RunqInRange(State())
      modifies this`current, vp`runq, vp.threads
      ensures Valid() && State() == Schedule(old(State()))
    {
      Runq();
      hide State, Valid;
      SetCurrent(None);
      if vp.runq != [] {
        var t := Dequeue();
        SetState(t, RUNNING);
        SetCurrent(Some(t));
      }
    }

    method SetCurrent(t: Option<nat>)
      requires Valid()
      modifies this`current
      ensures Valid() && State() == old(State()).(current := t)
    {
      current := t;
    }

    lemma {:induction false} Runq()
      ensures State().runq == [] <==> vp.runq == []
    {
    }

    /** The thread is switched out in the given state. */
    method SwitchContext(t: nat, state: State, at: Point)
      requires Valid() && t < |State().th| && RunqInRange(State())
      modifies this`current, vp`runq, vp.threads
      ensures Valid() && State() == Schedule(Block(old(State()), t, state, at))
    {
      hide State, Valid;
      ghost var s := State();
      SetState(t, state);
      SetPoint(t, at);
      SetCurrent(None);
      SetTwice(s, t, s.th[t].(state := state), s.th[t].(state := state, at := at));
      Dispatcher();
    }

    /** A pending interrupt is taken, once. */
    method TakeInterrupt(t: nat) returns (pending: bool)
      requires Valid() && t < |State().th|
      modifies vp.threads
      ensures Valid() && pending == old(State()).th[t].interrupt
      ensures State() == if pending then ClearInterrupt(old(State()), t) else old(State())
    {
      RecordOf(t);
      hide State, Valid;
      pending := threads[t].interrupt;
      if pending {
        SetInterrupt(t, false);
      }
    }

    method Return(t: nat)
      requires Valid() && t < |State().th|
      modifies vp.threads
      ensures Valid() && State() == Resumed(old(State()), t)
    {
      hide State, Valid;
      SetPoint(t, User);
    }

    /** A running thread is not asleep. */
    lemma {:induction false} RunningAwake()
      requires Inv(State()) && Running(State())
      ensures !State().th[State().current.value].onSleepQ
    {
      RunningMe(State());
    }

    // ---------- st_poll, st_usleep ----------

    method Poll(pds: seq<Pollfd>, timeout: Option<nat>, grow: bool, refuse: set<nat>) returns (rv: Rv)
      requires Valid() && Inv(State()) && Running(State()) && |State().ep.fds| > 0
      modifies this, vp, vp.threads, events
      ensures Valid() && vp.threads == old(vp.threads)
      ensures (State(), rv) == Scheduler.Poll(old(State()), pds, timeout, grow, refuse)
    {
      Current();
      hide Valid, State, Inv, PollsetAdd;
      RunningAwake();
      var me := current.value;
      var pending := TakeInterrupt(me);
      if pending {
        return Error(EINTR);
      }
      var ok := Register(me, pds, grow, refuse);
      if !ok {
        return Error(EPOLL);
      }
      AddSleepQ(me, timeout);
      SwitchContext(me, IO_WAIT, InPoll);
      rv := Blocked;
    }

    /** The request goes to the event system and on the io queue, if its descriptors are accepted. */
    method Register(me: nat, pds: seq<Pollfd>, grow: bool, refuse: set<nat>) returns (ok: bool)
      requires Valid() && |State().ep.fds| > 0
      modifies events, this`ioq
      ensures Valid() && ok == PollsetAdd(old(State()).ep, pds, grow, refuse).1
      ensures var s := old(State()).(ep := PollsetAdd(old(State()).ep, pds, grow, refuse).0);
              State() == if ok then s.(ioq := s.ioq + [Request(me, pds)]) else s
    {
      hide Valid, Records, Record, Asleep, Ids, PollsetAdd;
      ok := events.PollsetAdd(pds, grow, refuse);
      if ok {
        ioq := ioq + [Request(me, pds)];
      }
    }

    /** How many descriptors are ready. */
    method Count(pds: seq<Pollfd>) returns (n: nat)
      ensures n == CountReady(pds)
    {
      n := 0;
      for i := 0 to |pds|
        invariant n == CountReady(pds[..i])
      {
        assert pds[..i + 1][..i] == pds[..i];
        if pds[i].revents != {} {
          n := n + 1;
        }
      }
      assert pds[..|pds|] == pds;
    }

    method FinishPoll() returns (rv: Rv)
      requires Valid() && Running(State())
               && (State().th[current.value].at.InPoll? ==> RequestThere(State(), current.value))
      requires State().th[current.value].at.InPoll? || State().th[current.value].at.Polled?
      modifies this, vp.threads, events
      ensures Valid()
      ensures (State(), rv) == PollAfter(old(State()))
    {
      Current();
      RecordOf(current.value);
      hide Valid, State, RequestThere, DelAll, RequestOf, CountReady, Conclude, RunqInRange;
      ghost var s := State();
      var me := current.value;
      var n := 0;
      if threads[me].at.InPoll? {
        // timed out or interrupted
        Withdraw(me);
      } else {
        n := Count(threads[me].at.pds);
      }
      assert PollAfter(s) == Conclude(State(), me, n);
      rv := Finish(n);
    }

    /** Takes a request off the io queue again. */
    method Withdraw(me: nat)
      requires Valid() && RequestThere(State(), me)
      modifies events, this`ioq
      ensures Valid()
      ensures var s := old(State()); var i := RequestOf(s.ioq, me);
              State() == s.(ioq := s.ioq[..i] + s.ioq[i + 1..], ep := DelAll(s.ep, s.ioq[i].pds))
    {
      hide Valid, Records, Record, Asleep, Ids, DelAll;
      var i := RequestOf(ioq, me);
      var pds := ioq[i].pds;
      ioq := ioq[..i] + ioq[i + 1..];
      events.PollsetDel(pds);
    }

    method Finish(n: int) returns (rv: Rv)
      requires Valid() && Running(State())
      modifies vp.threads
      ensures Valid() && (State(), rv) == Conclude(old(State()), old(State()).current.value, n)
    {
      Current();
      hide Valid, State;
      var me := current.value;
      var pending := TakeInterrupt(me);
      Return(me);
      rv := if pending then Error(EINTR) else Value(n);
    }

    lemma {:induction false} Current()
      ensures State().current == current && State().clock == vp.lastClock
    {
    }

    method Usleep(usecs: Option<nat>) returns (rv: Rv)
      requires Valid() && Inv(State()) && Running(State())
      modifies this, vp, vp.threads
      ensures Valid() && vp.threads == old(vp.threads)
      ensures (State(), rv) == Scheduler.Usleep(old(State()), usecs)
    {
      Current();
      hide Valid, State, Inv;
      RunningAwake();
      var me := current.value;
      var pending := TakeInterrupt(me);
      if pending {
        return Error(EINTR);
      }
      var state := SUSPENDED;
      if usecs.Some? {
        state := SLEEPING;
        AddSleepQ(me, usecs);
      }
      SwitchContext(me, state, InSleep);
      rv := Blocked;
    }

    // ---------- Condition variables ----------

    method StartWait(me: nat, c: nat, timeout: Option<nat>, at: Point)
      requires Valid() && me < |State().th| && c < |conds| && RunqInRange(State()) && !State().th[me].onSleepQ
      modifies this`conds, this`current, vp`root, vp`at, vp`size, vp`runq, vp.threads
      ensures Valid() && State() == WaitOn(old(State()), me, c, timeout, at)
    {
      hide Valid, Records, Record, Asleep, Ids;
      conds := conds[c := conds[c] + [me]];
      hide State;
      AddSleepQ(me, timeout);
      SwitchContext(me, COND_WAIT, at);
    }

    method CondTimedwait(c: nat, timeout: Option<nat>) returns (rv: Rv)
      requires Valid() && Inv(State()) && Running(State()) && c < |conds|
      modifies this, vp, vp.threads
      ensures Valid() && vp.threads == old(vp.threads)
      ensures (State(), rv) == CondWait(old(State()), c, timeout)
    {
      Current();
      Tables();
      hide Valid, State, Inv;
      RunningAwake();
      var me := current.value;
      var pending := TakeInterrupt(me);
      if pending {
        return Error(EINTR);
      }
      StartWait(me, c, timeout, InCond(c));
      rv := Blocked;
    }

    lemma {:induction false} Tables()
      ensures State().conds == conds && State().mutexes == mutexes
    {
    }

    /** The rest of st_cond_timedwait: an interrupt wins over a timeout. */
    method FinishWait(c: nat) returns (rv: Rv)
      requires Valid() && Running(State()) && c < |conds|
      modifies this`conds, vp.threads
      ensures Valid() && (State(), rv) == WaitOver(old(State()), old(State()).current.value, c)
    {
      RecordOf(current.value);
      Current();
      hide Valid, State;
      var me := current.value;
      LeaveCond(me, c);
      ghost var s, x := State(), State().th[me];
      rv := Value(0);
      if threads[me].timedOut {
        SetTimedOut(me, false);
        rv := Error(ETIME);
      }
      SetSame(s, me);
      var pending := TakeInterrupt(me);
      if pending {
        rv := Error(EINTR);
      }
      SetTwice(s, me, x.(timedOut := false), x.(timedOut := false, interrupt := false));
      Return(me);
      SetTwice(s, me, x.(timedOut := false, interrupt := false), x.(at := User, timedOut := false, interrupt := false));
    }

    method LeaveCond(me: nat, c: nat)
      requires Valid() && c < |conds|
      modifies this`conds
      ensures Valid() && State() == old(State()).(conds := old(State()).conds[c := Remove(old(State()).conds[c], me)])
    {
      hide Valid, Records, Record, Asleep, Ids;
      conds := conds[c := Remove(conds[c], me)];
    }

    /** _st_cond_signal */
    method CondSignal(c: nat, broadcast: bool)
      requires Valid() && CondInRange(State(), c)
      modifies vp`root, vp`at, vp`size, vp`runq, vp.threads
      ensures Valid() && State() == Signal(old(State()), c, broadcast)
    {
      Tables();
      hide Valid, State, Wake;
      ghost var s := State();
      var q := conds[c];
      var i := 0;
      while i < |q|
        invariant Valid() && 0 <= i <= |q| && |State().th| == |s.th|
        invariant broadcast ==> WakeAll(State(), q[i..]) == WakeAll(s, q)
        invariant !broadcast ==> State() == s && FirstIn(s.th, q, COND_WAIT) == FirstIn(s.th, q[i..], COND_WAIT)
      {
        assert q[i..][1..] == q[i + 1..];
        RecordOf(q[i]);
        if threads[q[i]].state == COND_WAIT {
          MakeRunnable(q[i]);
          if !broadcast {
            return;
          }
        }
        i := i + 1;
      }
    }

    // ---------- Mutexes ----------

    method MutexLock(m: nat) returns (rv: Rv)
      requires Valid() && Running(State()) && m < |mutexes|
      modifies this, vp`runq, vp.threads
      ensures Valid() && vp.threads == old(vp.threads)
      ensures (State(), rv) == Lock(old(State()), m)
    {
      hide Valid, Records, Record, Asleep, Ids;
      var me := current.value;
      var pending := TakeInterrupt(me);
      if pending {
        return Error(EINTR);
      }
      if mutexes[m].owner == None {
        mutexes := mutexes[m := mutexes[m].(owner := Some(me))];
        return Value(0);
      }
      if mutexes[m].owner == Some(me) {
        return Error(EDEADLK);
      }
      mutexes := mutexes[m := mutexes[m].(waitq := mutexes[m].waitq + [me])];
      hide State;
      SwitchContext(me, LOCK_WAIT, InLock(m));
      rv := Blocked;
    }

    method FinishLock(m: nat) returns (rv: Rv)
      requires Valid() && Running(State()) && m < |mutexes| && State().th[current.value].at == InLock(m)
      modifies this`mutexes, vp.threads
      ensures Valid() && (State(), rv) == LockAfter(old(State()))
    {
      RecordOf(current.value);
      Current();
      Tables();
      hide Valid, State;
      var me := current.value;
      LeaveMutex(me, m);
      Tables();
      ghost var s, x := State(), State().th[me];
      rv := Value(0);
      if threads[me].interrupt && mutexes[m].owner != Some(me) {
        SetInterrupt(me, false);
        rv := Error(EINTR);
      }
      Return(me);
      SetTwice(s, me, x.(interrupt := false), x.(interrupt := false, at := User));
      SetTwice(s, me, x.(at := User), x.(interrupt := false, at := User));
    }

    method LeaveMutex(me: nat, m: nat)
      requires Valid() && m < |mutexes|
      modifies this`mutexes
      ensures Valid()
      ensures State() == SetMutex(old(State()), m,
              old(State()).mutexes[m].(waitq := Remove(old(State()).mutexes[m].waitq, me)))
    {
      hide Valid, Records, Record, Asleep, Ids;
      mutexes := mutexes[m := mutexes[m].(waitq := Remove(mutexes[m].waitq, me))];
    }

    method MutexUnlock(m: nat) returns (rv: Rv)
      requires Valid() && Running(State()) && MutexInRange(State(), m)
      modifies this`mutexes, vp`runq, vp.threads
      ensures Valid() && (State(), rv) == Unlock(old(State()), m)
    {
      hide Valid, Records, Record, Asleep, Ids;
      if mutexes[m].owner != current {
        return Error(EPERM);
      }
      ghost var s := State();
      var q := mutexes[m].waitq;
      var i := 0;
      while i < |q|
        invariant Valid() && 0 <= i <= |q| && State() == s
        invariant FirstIn(s.th, q, LOCK_WAIT) == FirstIn(s.th, q[i..], LOCK_WAIT)
      {
        assert q[i..][1..] == q[i + 1..];
        var t := q[i];
        RecordOf(t);
        if threads[t].state == LOCK_WAIT {
          HandOver(m, t);
          return Value(0);
        }
        i := i + 1;
      }
      mutexes := mutexes[m := mutexes[m].(owner := None)];
      rv := Value(0);
    }

    method HandOver(m: nat, t: nat)
      requires Valid() && m < |mutexes| && t < |State().th|
      modifies this`mutexes, vp`runq, vp.threads
      ensures Valid()
      ensures var u := SetMutex(old(State()), m, old(State()).mutexes[m].(owner := Some(t)));
              State() == Set(u, t, u.th[t].(state := RUNNABLE)).(runq := u.runq + [t])
    {
      hide Valid, Records, Record, Asleep, Ids;
      mutexes := mutexes[m := mutexes[m].(owner := Some(t))];
      hide State;
      SetState(t, RUNNABLE);
      Enqueue(t);
    }

    method MutexTrylock(m: nat) returns (rv: Rv)
      requires Valid() && Running(State()) && m < |mutexes|
      modifies this`mutexes
      ensures Valid() && (State(), rv) == TryLock(old(State()), m)
    {
      hide Valid, Records, Record, Asleep, Ids;
      if mutexes[m].owner != None {
        return Error(EBUSY);
      }
      mutexes := mutexes[m := mutexes[m].(owner := current)];
      rv := Value(0);
    }

    // ---------- Threads ----------

    method ThreadCreate(joinable: bool)
      requires Valid()
      modifies this, vp`threads, vp`runq
      ensures Valid() && fresh(vp.threads - old(vp.threads)) && State() == Create(old(State()), joinable)
    {
      hide Valid, Records, Record, Asleep, Ids;
      var term := None;
      if joinable {
        term := Some(|conds|);
        conds := conds + [[]];
      }
      hide State;
      var t := NewThread(RUNNABLE, term);
      Enqueue(t);
    }

    method ThreadInterrupt(u: nat)
      requires Valid() && u < |State().th|
      modifies vp`root, vp`at, vp`size, vp`runq, vp.threads
      ensures Valid() && State() == Interrupt(old(State()), u)
    {
      RecordOf(u);
      hide Valid, State;
      if threads[u].state == ZOMBIE {
        return;
      }
      var active := threads[u].state == RUNNING || threads[u].state == RUNNABLE;
      SetInterrupt(u, true);
      if active {
        return;
      }
      MakeRunnable(u);
    }

    method ThreadExit()
      requires Valid() && Running(State())
      requires State().th[current.value].term.Some? ==> CondInRange(State(), State().th[current.value].term.value)
      modifies this, vp, vp.threads
      ensures Valid() && vp.threads == old(vp.threads) && State() == Exit(old(State()))
    {
      RecordOf(current.value);
      hide Valid, Records, Record, Asleep, Ids;
      var me := current.value;
      if threads[me].term.None? {
        SwitchContext(me, RUNNING, Done);
      } else {
        var c := threads[me].term.value;
        BecomeZombie(me);
        hide State, Signal;
        SignalRunq(State(), c);
        CondSignal(c, false);
        Dispatcher();
      }
    }

    method BecomeZombie(me: nat)
      requires Valid() && me < |State().th|
      modifies this`current, this`zombieq, vp.threads
      ensures Valid() && State() == Block(old(State()), me, ZOMBIE, InExit).(zombieq := old(State()).zombieq + [me])
    {
      hide Valid, Records, Record, Asleep, Ids;
      ghost var s := State();
      SetState(me, ZOMBIE);
      SetPoint(me, InExit);
      SetTwice(s, me, s.th[me].(state := ZOMBIE), s.th[me].(state := ZOMBIE, at := InExit));
      current, zombieq := None, zombieq + [me];
    }

    method FinishExit()
      requires Valid() && Running(State())
      modifies this`current, vp`runq, vp.threads
      ensures Valid() && State() == ExitAfter(old(State()))
    {
      Current();
      hide Valid, State;
      var me := current.value;
      SetTerm(me, None);
      SwitchContext(me, RUNNING, Done);
    }

    method ReapZombie(u: nat)
      requires Valid() && u < |State().th|
      modifies this`zombieq, vp`runq, vp.threads
      ensures Valid() && State() == Reap(old(State()), u)
    {
      hide Valid, Records, Record, Asleep, Ids;
      zombieq := Remove(zombieq, u);
      hide State;
      SetState(u, RUNNABLE);
      Enqueue(u);
    }

    method ThreadJoin(u: nat) returns (rv: Rv)
      requires Valid() && Inv(State()) && Running(State()) && u < |State().th|
      requires State().th[u].term.Some? ==> State().th[u].term.value < |conds|
      modifies this, vp, vp.threads
      ensures Valid() && vp.threads == old(vp.threads)
      ensures (State(), rv) == Join(old(State()), u)
    {
      Current();
      Tables();
      hide Valid, State, Inv;
      RunningAwake();
      RecordOf(u);
      var me := current.value;
      if threads[u].term.None? {
        return Error(EINVAL);
      }
      if me == u {
        return Error(EDEADLK);
      }
      var c := threads[u].term.value;
      if conds[c] != [] {
        return Error(EINVAL);
      }
      if threads[u].state != ZOMBIE {
        var pending := TakeInterrupt(me);
        if pending {
          return Error(EINTR);
        }
        StartWait(me, c, None, InJoin(c, u));
        return Blocked;
      }
      ReapZombie(u);
      rv := Value(0);
    }

    /** Back in the loop of st_thread_join. */
    method ContinueJoin(c: nat, u: nat) returns (rv: Rv)
      requires Valid() && Inv(State()) && Running(State()) && State().th[current.value].at == InJoin(c, u)
      requires c < |conds| && u < |State().th|
      modifies this, vp, vp.threads
      ensures Valid() && vp.threads == old(vp.threads)
      ensures (State(), rv) == JoinAfter(old(State()))
    {
      Current();
      Tables();
      hide Valid, State, Inv;
      RunningAwake();
      var me := current.value;
      rv := FinishWait(c);
      if rv != Value(0) {
        return;
      }
      RecordOf(u);
      Tables();
      if threads[u].state != ZOMBIE {
        // no interrupt can be pending here: the wait has just looked
        StartWait(me, c, None, InJoin(c, u));
        return Blocked;
      }
      ReapZombie(u);
    }

    // ---------- Runs ----------

    /** The rest of whatever call a resumed thread is in is one step of a run. */
    method Continue() returns (rv: Rv)
      requires Valid() && Running(State()) && Inv(State()) && !State().th[State().current.value].at.User?
      modifies this, vp, vp.threads, events
      ensures Valid() && vp.threads == old(vp.threads) && Inv(State())
      ensures Enabled(old(State()), OpResume) && (State(), rv) == Apply(old(State()), OpResume)
    {
      ghost var s := State();
      Current();
      Tables();
      RecordOf(current.value);
      StepsAreInRange(s);
      StepKeeps(s, OpResume);
      hide Valid, State, Inv, PollAfter, WaitOver, JoinAfter, LockAfter, ExitAfter, Conclude;
      match threads[current.value].at {
        case InPoll => rv := FinishPoll();
        case Polled(pds) => rv := FinishPoll();
        case InSleep => rv := Finish(0);
        case InCond(c) => rv := FinishWait(c);
        case InJoin(c, u) => rv := ContinueJoin(c, u);
        case InLock(m) => rv := FinishLock(m);
        case InExit =>
          FinishExit();
          rv := Blocked;
        case _ =>
      }
    }

    // ---------- The idle thread ----------

    /** _st_vp_check_clock */
    method CheckClock(now: nat) returns (ghost ts: seq<nat>)
      requires Valid() && vp.lastClock <= now
      modifies vp, vp.threads
      ensures Valid() && vp.threads == old(vp.threads)
      ensures Expired(old(State()), now, ts)
      ensures State() == ExpireAll(old(State()).(clock := now), ts)
    {
      FlagsAre();
      DuesAre();
      ghost var s, dues := State(), Dues(threads);
      hide State, Valid, Expired, Dues, ExpireAll, Expiry;
      ts := WakeDue(now);
      ExpiredIs(s, dues, now, ts);
      ExpireAllIs(s.(clock := now), ts);
    }

    method WakeDue(now: nat) returns (ghost ts: seq<nat>)
      requires Valid() && vp.lastClock <= now
      modifies vp, vp.threads
      ensures Valid() && vp.threads == old(vp.threads)
      ensures DueIn(old(Asleep()), old(Dues(threads)), now, ts)
      ensures State() == Expiry(old(State()).(clock := now), ts)
    {
      ghost var s := State();
      hide Ids, Asleep, Valid, Records, Dues, DueIn;
      ts := WakeIds(now);
      assert State().th == Expiry(s.(clock := now), ts).th;
    }

    /** The threads woken, in order, and what happens to each. */
    method WakeIds(now: nat) returns (ghost ts: seq<nat>)
      requires Valid() && vp.lastClock <= now
      modifies vp, vp.threads
      ensures Valid() && vp.threads == old(vp.threads) && vp.lastClock == now
      ensures DueIn(old(Asleep()), old(Dues(threads)), now, ts)
      ensures Ids(vp.runq) == old(Ids(vp.runq)) + ts && Asleep() == old(Asleep()) - Elements(ts)
      ensures forall i :: 0 <= i < |threads| ==>
                Records(threads)[i] == if i in ts then AfterExpiry(old(Records(threads)[i]))
                    else old(Records(threads)[i])
    {
      DistinctThreads();
      AsleepThreads();
      InIdSet(TimeoutHeap.Members(vp.at));
      ghost var heap := TimeoutHeap.Members(vp.at);
      hide DueIn, Dues;
      ghost var woken := WakeHeap(now);
      ts := Ids(woken);
      IdsDue(heap, woken, now);
      AsleepThreads();
      InIdSet(TimeoutHeap.Members(vp.at));
      InIds(woken);
      IdsJoin(old(vp.runq), woken);
      hide Valid, Ids, IdSet, TimeoutHeap.Members;
    }

    lemma {:induction false} IdsDue(heap: set<Thread>, woken: seq<Thread>, now: nat)
      requires Valid() && TimeoutHeap.Members(woken) <= vp.threads && heap <= vp.threads
      requires forall t :: t in TimeoutHeap.Members(woken) <==> t in heap && t.due <= now
      requires forall i, j :: 0 <= i < j < |woken| ==> woken[i] != woken[j] && woken[i].due <= woken[j].due
      ensures DueIn(IdSet(heap), Dues(threads), now, Ids(woken))
    {
      InIds(woken);
      InIdSet(heap);
      OrderOfIds(woken);
      hide Valid, Ids, IdSet, TimeoutHeap.Members;
    }

    lemma {:induction false} DuesAre()
      ensures Asleep() == State().sleepq && |Dues(threads)| == |State().th|
              && forall t: nat :: t < |State().th| ==> Dues(threads)[t] == State().th[t].due
    {
    }

    ghost function Dues(ts: seq<Thread>): (r: seq<nat>)
      reads ts`due
      ensures |r| == |ts| && forall i :: 0 <= i < |ts| ==> r[i] == ts[i].due
    {
      if ts == [] then [] else Dues(ts[..|ts| - 1]) + [ts[|ts| - 1].due]
    }

    method WakeHeap(now: nat) returns (ghost woken: seq<Thread>)
      requires Valid() && vp.lastClock <= now
      modifies vp, vp.threads
      ensures Valid() && vp.threads == old(vp.threads) && vp.lastClock == now && Dues(threads) == old(Dues(threads))
      ensures vp.runq == old(vp.runq) + woken && TimeoutHeap.Members(woken) <= vp.threads
      ensures TimeoutHeap.Members(vp.at) == old(TimeoutHeap.Members(vp.at)) - TimeoutHeap.Members(woken)
      ensures forall t :: t in TimeoutHeap.Members(woken) <==> t in old(TimeoutHeap.Members(vp.at)) && t.due <= now
      ensures forall i, j :: 0 <= i < j < |woken| ==> woken[i] != woken[j] && woken[i].due <= woken[j].due
      ensures forall t :: t in vp.threads ==>
                Record(t) == if t in TimeoutHeap.Members(woken) then AfterExpiry(old(Record(t))) else old(Record(t))
    {
      FlagOf();
      hide Valid, TimeoutHeap.Members, Dues;
      woken := CheckHeap(now);
      FlagOf();
    }

    method CheckHeap(now: nat) returns (ghost woken: seq<Thread>)
      requires Valid() && vp.lastClock <= now
      modifies vp, vp.threads`left, vp.threads`right, vp.threads`heapIndex, vp.threads`onSleepQ, vp.threads`state,
          vp.threads`timedOut
      ensures Valid() && vp.threads == old(vp.threads) && vp.lastClock == now
      ensures vp.runq == old(vp.runq) + woken && TimeoutHeap.Members(woken) <= vp.threads
      ensures TimeoutHeap.Members(vp.at) == old(TimeoutHeap.Members(vp.at)) - TimeoutHeap.Members(woken)
      ensures forall t :: t in TimeoutHeap.Members(woken) <==> t in old(TimeoutHeap.Members(vp.at)) && t.due <= now
      ensures forall i, j :: 0 <= i < j < |woken| ==> woken[i] != woken[j] && woken[i].due <= woken[j].due
      ensures forall t :: t in vp.threads ==>
                && t.state == (if t in TimeoutHeap.Members(woken) then RUNNABLE else old(t.state))
                && t.timedOut == (old(t.timedOut) || (t in TimeoutHeap.Members(woken) && old(t.state) == COND_WAIT))
    {
      AsleepThreads();
      hide vp.Valid;
      woken := vp.CheckClock(now);
      assert forall t :: t in vp.runq ==> t in old(vp.runq) || t in TimeoutHeap.Members(woken);
    }

    lemma {:induction false} FlagOf()
      requires Valid()
      ensures forall t :: t in vp.threads ==> (t.onSleepQ <==> t in TimeoutHeap.Members(vp.at))
    {
    }

    lemma {:induction false} FlagsAre()
      requires Valid()
      ensures forall t :: t in State().sleepq ==> t < |State().th| && State().th[t].onSleepQ
    {
      AsleepThreads();
      InIdSet(TimeoutHeap.Members(vp.at));
      DistinctThreads();
    }

    lemma {:induction false} OrderOfIds(ts: seq<Thread>)
      requires Valid() && TimeoutHeap.Members(ts) <= vp.threads
      ensures forall i :: 0 <= i < |ts| ==> Ids(ts)[i] < |threads| && threads[Ids(ts)[i]] == ts[i]
    {
      forall i | 0 <= i < |ts| ensures Ids(ts)[i] < |threads| && threads[Ids(ts)[i]] == ts[i] {
        assert ts[i] in TimeoutHeap.Members(ts) && ts[i] in TimeoutHeap.Members(threads);
      }
    }

    lemma {:induction false} InIdSet(ts: set<Thread>)
      requires Valid() && ts <= vp.threads
      ensures forall i: nat :: i in IdSet(ts) <==> i < |threads| && threads[i] in ts
    {
      assert forall t :: t in ts ==> t in threads;
    }

    lemma {:induction false} InIds(ts: seq<Thread>)
      requires Valid() && TimeoutHeap.Members(ts) <= vp.threads
      ensures forall i: nat :: i in Ids(ts) <==> i < |threads| && threads[i] in TimeoutHeap.Members(ts)
    {
      forall i: nat ensures i in Ids(ts) <==> i < |threads| && threads[i] in TimeoutHeap.Members(ts) {
        if i in Ids(ts) {
          var k :| 0 <= k < |ts| && Ids(ts)[k] == i;
          assert ts[k] in TimeoutHeap.Members(ts) && ts[k] in TimeoutHeap.Members(threads);
        }
        if i < |threads| && threads[i] in TimeoutHeap.Members(ts) {
          var k :| 0 <= k < |ts| && ts[k] == threads[i];
          assert Ids(ts)[k] == i;
        }
      }
    }

    /** Tells the threads whose requests have been served. */
    method NotifyThreads(woken: seq<Request>)
      requires Valid() && forall i :: 0 <= i < |woken| ==> woken[i].thread < |State().th|
      modifies vp`root, vp`at, vp`size, vp`runq, vp.threads
      ensures Valid() && State() == NotifyAll(old(State()), woken)
    {
      hide Valid, State, Wake;
      ghost var s := State();
      for i := 0 to |woken|
        invariant Valid() && State() == NotifyAll(s, woken[..i])
      {
        assert woken[..i + 1][..i] == woken[..i];
        var t := woken[i].thread;
        SetPoint(t, Polled(woken[i].pds));
        MakeRunnable(t);
      }
      assert woken[..|woken|] == woken;
    }

    /** One round of the idle thread: poll, check the clock, switch. */
    method IdleOnce(fired: seq<Fired>, now: nat) returns (ghost ts: seq<nat>)
      requires Valid() && Inv(State()) && State().current.None? && vp.lastClock <= now && Reportable(State().ep, fired)
      modifies this, vp, vp.threads, events
      ensures Valid() && vp.threads == old(vp.threads)
      ensures Enabled(old(State()), OpIdle(fired, now, ts))
      ensures Inv(State()) && State() == IdleRound(old(State()), fired, now, ts)
    {
      ghost var s := State();
      Current();
      hide Valid, State, Inv, Dispatch, Dispatched, Enabled, Expired, ExpireAll;
      IdleIsInRange(s, fired, now);
      PollEvents(fired);
      ts := CheckClock(now);
      IdleRoundKeeps(s, fired, now, ts);
      Dispatcher();
    }

    /** What the event system reports is told to the threads waiting for it. */
    method PollEvents(fired: seq<Fired>)
      requires Valid() && AllInRange(State().ep, State().ioq)
      requires forall i :: 0 <= i < |fired| ==> 0 <= fired[i].fd < |State().ep.fds|
      requires forall i :: 0 <= i < |Dispatch(State().ep, State().ioq, fired).woken| ==> Dispatch(State().ep, State().ioq, fired).woken[i].thread < |State().th|
      modifies events, this`ioq, vp`root, vp`at, vp`size, vp`runq, vp.threads
      ensures Valid() && State() == Dispatched(old(State()), fired)
    {
      hide Valid, Records, Record, Asleep, Ids, Dispatch, NotifyAll;
      var kept, woken := events.Dispatch(ioq, fired);
      ioq := kept;
      hide State;
      NotifyThreads(woken);
    }
  }

  /** `ts` are those of `asleep` that are due by `now`, in order. */
  ghost predicate DueIn(asleep: set<nat>, dues: seq<nat>, now: nat, ts: seq<nat>) {
    && (forall t: nat :: t in ts <==> t in asleep && t < |dues| && dues[t] <= now)
    && (forall i, j :: 0 <= i < j < |ts| ==> ts[i] != ts[j] && ts[i] < |dues| && ts[j] < |dues| && dues[ts[i]] <= dues[ts[j]])
  }

  lemma {:induction false} ExpiredIs(s: Vp, dues: seq<nat>, now: nat, ts: seq<nat>)
    requires |dues| == |s.th| && forall t :: 0 <= t < |dues| ==> dues[t] == s.th[t].due
    requires forall t :: t in s.sleepq ==> t < |s.th| && s.th[t].onSleepQ
    requires DueIn(s.sleepq, dues, now, ts)
    ensures Expired(s, now, ts) && Distinct(ts) && forall i :: 0 <= i < |ts| ==> ts[i] < |s.th| && s.th[ts[i]].onSleepQ
  {
    assert forall i :: 0 <= i < |ts| ==> ts[i] in ts;
  }

  lemma {:induction false} IdsJoin(a: seq<Thread>, b: seq<Thread>)
    ensures Ids(a + b) == Ids(a) + Ids(b)
  {
  }

  ghost function Elements(ts: seq<nat>): set<nat> { set t | t in ts }

  /** A thread whose time has come. */
  ghost function AfterExpiry(x: Tcb): Tcb {
    x.(state := RUNNABLE, onSleepQ := false, timedOut := x.timedOut || x.state == COND_WAIT)
  }

  /** What a clock check does, all at once. */
  ghost function Expiry(s: Vp, ts: seq<nat>): Vp {
    s.(th := seq(|s.th|, t requires 0 <= t < |s.th| => if t in ts then AfterExpiry(s.th[t]) else s.th[t]),
       sleepq := s.sleepq - Elements(ts), runq := s.runq + ts)
  }

  lemma {:induction false} ExpireAllIs(s: Vp, ts: seq<nat>)
    requires Distinct(ts) && forall i :: 0 <= i < |ts| ==> ts[i] < |s.th| && s.th[ts[i]].onSleepQ
    ensures ExpireAll(s, ts) == Expiry(s, ts)
  {
    if ts == [] {
      assert Expiry(s, ts).th == s.th;
    } else {
      var n := |ts| - 1;
      ExpireAllIs(s, ts[..n]);
      assert ts[n] !in ts[..n];
      hide ExpireAll;
      OneMoreExpiry(s, ts[..n], ts[n]);
      assert ts[..n] + [ts[n]] == ts;
    }
  }

  lemma {:induction false} OneMoreExpiry(s: Vp, ts: seq<nat>, t: nat)
    requires t < |s.th| && s.th[t].onSleepQ && t !in ts
    ensures Expire(Expiry(s, ts), t) == Expiry(s, ts + [t])
  {
    assert Elements(ts + [t]) == Elements(ts) + {t};
    assert Expire(Expiry(s, ts), t).th == Expiry(s, ts + [t]).th;
  }

  lemma {:induction false} SetTwice(s: Vp, t: nat, x: Tcb, y: Tcb)
    requires t < |s.th|
    ensures Set(Set(s, t, x), t, y) == Set(s, t, y)
  {
  }

  lemma {:induction false} SetSame(s: Vp, t: nat)
    requires t < |s.th|
    ensures Set(s, t, s.th[t]) == s
  {
  }
}
