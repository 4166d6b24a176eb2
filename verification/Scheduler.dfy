/** The State Threads scheduler as a step machine. Every call that switches
    context is split there: the step before blocks the caller and schedules the
    next thread, the step after runs when the caller is resumed. */
module Scheduler {
  import opened Epoll
  import opened StThreads
  import opened Wrappers

  /** A thread as a value. */
  datatype Tcb = Tcb(state: State, at: Point, onSleepQ: bool, interrupt: bool, timedOut: bool, due: nat,
      term: Option<nat>)

  datatype Mutex = Mutex(owner: Option<nat>, waitq: seq<nat>)

  /** `current` is None while the idle thread runs. */
  datatype Vp = Vp(th: seq<Tcb>, current: Option<nat>, runq: seq<nat>, zombieq: seq<nat>, ioq: seq<Request>,
                   sleepq: set<nat>, conds: seq<seq<nat>>, mutexes: seq<Mutex>, ep: Ep, clock: nat)

  datatype Errno = EINTR | ETIME | EINVAL | EDEADLK | EPERM | EBUSY | EPOLL

  /** What a call returns; Blocked if the caller has been switched out. */
  datatype Rv = Blocked | Value(n: int) | Error(e: Errno)

  // ---------- Queues and states ----------

  predicate Active(state: State) { state.RUNNING? || state.RUNNABLE? }

  predicate Waiting(state: State) { !Active(state) && !state.ZOMBIE? }

  function Set(s: Vp, t: nat, x: Tcb): Vp
    requires t < |s.th|
  {
    s.(th := s.th[t := x])
  }

  /** _st_add_sleep_q, unless there is no timeout. */
  function AddSleepQ(s: Vp, t: nat, timeout: Option<nat>): Vp
    requires t < |s.th|
  {
    if timeout.None? then s
    else Set(s, t, s.th[t].(due := s.clock + timeout.value, onSleepQ := true)).(sleepq := s.sleepq + {t})
  }

  /** Takes a thread off the sleep queue if it is there, and makes it runnable. */
  function Wake(s: Vp, t: nat): Vp
    requires t < |s.th|
  {
    s.(th := s.th[t := s.th[t].(state := RUNNABLE, onSleepQ := false)],
       sleepq := if s.th[t].onSleepQ then s.sleepq - {t} else s.sleepq,
       runq := s.runq + [t])
  }

  /** The current thread gives up the processor in the given state. */
  function Block(s: Vp, t: nat, state: State, at: Point): Vp
    requires t < |s.th|
  {
    Set(s, t, s.th[t].(state := state, at := at)).(current := None)
  }

  /** _st_vp_schedule: the head of the run queue, or else the idle thread. */
  function Schedule(s: Vp): Vp
    requires forall i :: 0 <= i < |s.runq| ==> s.runq[i] < |s.th|
  {
    if s.runq == [] then s.(current := None)
    else Set(s, s.runq[0], s.th[s.runq[0]].(state := RUNNING)).(current := Some(s.runq[0]), runq := s.runq[1..])
  }

  /** Unlinks a thread from a queue it is on at most once. */
  function Remove(q: seq<nat>, t: nat): (r: seq<nat>)
    ensures forall u :: u in r <==> u in q && u != t
  {
    if q == [] then [] else if q[0] == t then Remove(q[1..], t) else [q[0]] + Remove(q[1..], t)
  }

  function Threads(ioq: seq<Request>): set<nat> {
    set i | 0 <= i < |ioq| :: ioq[i].thread
  }

  function RequestOf(ioq: seq<Request>, t: nat): (i: nat)
    requires t in Threads(ioq)
    ensures i < |ioq| && ioq[i].thread == t
  {
    if ioq[|ioq| - 1].thread == t then |ioq| - 1 else RequestOf(ioq[..|ioq| - 1], t)
  }

  predicate RunqInRange(s: Vp) {
    forall i :: 0 <= i < |s.runq| ==> s.runq[i] < |s.th|
  }

  predicate Running(s: Vp) {
    s.current.Some? && s.current.value < |s.th| && RunqInRange(s)
  }

  // ---------- Sleeping and polling ----------

  function ClearInterrupt(s: Vp, t: nat): Vp
    requires t < |s.th|
  {
    Set(s, t, s.th[t].(interrupt := false))
  }

  function Resumed(s: Vp, t: nat): Vp
    requires t < |s.th|
  {
    Set(s, t, s.th[t].(at := User))
  }

  /** The end of a call that only has to look for an interrupt. */
  function Conclude(s: Vp, me: nat, n: int): (Vp, Rv)
    requires me < |s.th|
  {
    if s.th[me].interrupt then (Resumed(ClearInterrupt(s, me), me), Error(EINTR)) else (Resumed(s, me), Value(n))
  }

  function Poll(s: Vp, pds: seq<Pollfd>, timeout: Option<nat>, grow: bool, refuse: set<nat>): (Vp, Rv)
    requires Running(s) && |s.ep.fds| > 0
  {
    var me := s.current.value;
    if s.th[me].interrupt then (ClearInterrupt(s, me), Error(EINTR)) else
      var (ep, ok) := PollsetAdd(s.ep, pds, grow, refuse);
      if !ok then (s.(ep := ep), Error(EPOLL)) else
        var t := AddSleepQ(s.(ep := ep, ioq := s.ioq + [Request(me, pds)]), me, timeout);
        (Schedule(Block(t, me, IO_WAIT, InPoll)), Blocked)
  }

  function CountReady(pds: seq<Pollfd>): nat {
    if pds == [] then 0 else CountReady(pds[..|pds| - 1]) + (if pds[|pds| - 1].revents != {} then 1 else 0)
  }

  /** The request of a resumed poller can be taken off the io queue. */
  predicate RequestThere(s: Vp, me: nat) {
    me in Threads(s.ioq) && InRange(s.ep, s.ioq[RequestOf(s.ioq, me)].pds)
  }

  function PollAfter(s: Vp): (Vp, Rv)
    requires Running(s) && (s.th[s.current.value].at.InPoll? ==> RequestThere(s, s.current.value))
    requires s.th[s.current.value].at.InPoll? || s.th[s.current.value].at.Polled?
  {
    var me := s.current.value;
    if s.th[me].at.Polled? then Conclude(s, me, CountReady(s.th[me].at.pds)) else
      // timed out or interrupted: still on the io queue
      var i := RequestOf(s.ioq, me);
      Conclude(s.(ioq := s.ioq[..i] + s.ioq[i + 1..], ep := DelAll(s.ep, s.ioq[i].pds)), me, 0)
  }

  function Usleep(s: Vp, usecs: Option<nat>): (Vp, Rv)
    requires Running(s)
  {
    var me := s.current.value;
    if s.th[me].interrupt then (ClearInterrupt(s, me), Error(EINTR)) else
      var state := if usecs.Some? then SLEEPING else SUSPENDED;
      (Schedule(Block(AddSleepQ(s, me, usecs), me, state, InSleep)), Blocked)
  }

  // ---------- Condition variables ----------

  predicate CondInRange(s: Vp, c: nat) {
    c < |s.conds| && forall i :: 0 <= i < |s.conds[c]| ==> s.conds[c][i] < |s.th|
  }

  function WaitOn(s: Vp, me: nat, c: nat, timeout: Option<nat>, at: Point): Vp
    requires me < |s.th| && c < |s.conds| && RunqInRange(s)
  {
    var t := AddSleepQ(s.(conds := s.conds[c := s.conds[c] + [me]]), me, timeout);
    Schedule(Block(t, me, COND_WAIT, at))
  }

  function CondWait(s: Vp, c: nat, timeout: Option<nat>): (Vp, Rv)
    requires Running(s) && c < |s.conds|
  {
    var me := s.current.value;
    if s.th[me].interrupt then (ClearInterrupt(s, me), Error(EINTR))
    else (WaitOn(s, me, c, timeout, InCond(c)), Blocked)
  }

  /** Unlinks a resumed waiter and reads its flags, the interrupt last. */
  function WaitOver(s: Vp, me: nat, c: nat): (Vp, Rv)
    requires me < |s.th| && c < |s.conds|
  {
    var x := s.th[me];
    (Set(s.(conds := s.conds[c := Remove(s.conds[c], me)]), me, x.(at := User, timedOut := false, interrupt := false)),
     if x.interrupt then Error(EINTR) else if x.timedOut then Error(ETIME) else Value(0))
  }

  function CondAfter(s: Vp): (Vp, Rv)
    requires Running(s) && s.th[s.current.value].at.InCond? && s.th[s.current.value].at.c < |s.conds|
  {
    WaitOver(s, s.current.value, s.th[s.current.value].at.c)
  }

  /** The first thread of a wait queue that is still in the given state. */
  function FirstIn(th: seq<Tcb>, q: seq<nat>, state: State): Option<nat>
    requires forall i :: 0 <= i < |q| ==> q[i] < |th|
  {
    if q == [] then None else if th[q[0]].state == state then Some(q[0]) else FirstIn(th, q[1..], state)
  }

  function WakeAll(s: Vp, q: seq<nat>): (r: Vp)
    requires forall i :: 0 <= i < |q| ==> q[i] < |s.th|
    ensures |r.th| == |s.th|
    decreases |q|
  {
    if q == [] then s else
      WakeAll(if s.th[q[0]].state == COND_WAIT then Wake(s, q[0]) else s, q[1..])
  }

  function Signal(s: Vp, c: nat, broadcast: bool): (r: Vp)
    requires CondInRange(s, c)
    ensures |r.th| == |s.th|
  {
    if broadcast then WakeAll(s, s.conds[c]) else
      match FirstIn(s.th, s.conds[c], COND_WAIT)
      case None => s
      case Some(t) => FirstInFound(s.th, s.conds[c], COND_WAIT); Wake(s, t)
  }

  /** The thread found is on the queue and in that state, and none before it is. */
  lemma {:induction false} FirstInFound(th: seq<Tcb>, q: seq<nat>, state: State)
    requires forall i :: 0 <= i < |q| ==> q[i] < |th|
    ensures FirstIn(th, q, state).Some? ==>
              exists i :: 0 <= i < |q| && q[i] == FirstIn(th, q, state).value && th[q[i]].state == state
                          && forall j :: 0 <= j < i ==> th[q[j]].state != state
    ensures FirstIn(th, q, state).None? ==> forall i :: 0 <= i < |q| ==> th[q[i]].state != state
  {
    if q != [] && th[q[0]].state != state {
      FirstInFound(th, q[1..], state);
      if FirstIn(th, q, state).Some? {
        var i :| 0 <= i < |q[1..]| && q[1..][i] == FirstIn(th, q, state).value && th[q[1..][i]].state == state
                 && forall j :: 0 <= j < i ==> th[q[1..][j]].state != state;
        assert q[i + 1] == q[1..][i];
        forall j | 0 <= j < i + 1 ensures th[q[j]].state != state { assert j > 0 ==> q[j] == q[1..][j - 1]; }
      } else {
        forall i | 0 <= i < |q| ensures th[q[i]].state != state { assert i > 0 ==> q[i] == q[1..][i - 1]; }
      }
    }
  }

  // ---------- Mutexes ----------

  predicate MutexInRange(s: Vp, m: nat) {
    m < |s.mutexes| && forall i :: 0 <= i < |s.mutexes[m].waitq| ==> s.mutexes[m].waitq[i] < |s.th|
  }

  function SetMutex(s: Vp, m: nat, x: Mutex): Vp
    requires m < |s.mutexes|
  {
    s.(mutexes := s.mutexes[m := x])
  }

  function Lock(s: Vp, m: nat): (Vp, Rv)
    requires Running(s) && m < |s.mutexes|
  {
    var me, mutex := s.current.value, s.mutexes[m];
    if s.th[me].interrupt then (ClearInterrupt(s, me), Error(EINTR))
    else if mutex.owner == None then (SetMutex(s, m, mutex.(owner := Some(me))), Value(0))
    else if mutex.owner == Some(me) then (s, Error(EDEADLK))
    else (Schedule(Block(SetMutex(s, m, mutex.(waitq := mutex.waitq + [me])), me, LOCK_WAIT, InLock(m))), Blocked)
  }

  function LockAfter(s: Vp): (Vp, Rv)
    requires Running(s) && s.th[s.current.value].at.InLock? && s.th[s.current.value].at.m < |s.mutexes|
  {
    var me, m := s.current.value, s.th[s.current.value].at.m;
    var t := Resumed(SetMutex(s, m, s.mutexes[m].(waitq := Remove(s.mutexes[m].waitq, me))), me);
    if s.th[me].interrupt
        && s.mutexes[m].owner != Some(me) then (ClearInterrupt(t, me), Error(EINTR)) else (t, Value(0))
  }

  function Unlock(s: Vp, m: nat): (Vp, Rv)
    requires Running(s) && MutexInRange(s, m)
  {
    var mutex := s.mutexes[m];
    if mutex.owner != s.current then (s, Error(EPERM)) else
      match FirstIn(s.th, mutex.waitq, LOCK_WAIT)
      case None => (SetMutex(s, m, mutex.(owner := None)), Value(0))
      case Some(t) =>
        FirstInFound(s.th, mutex.waitq, LOCK_WAIT);
        var u := SetMutex(s, m, mutex.(owner := Some(t)));
        (Set(u, t, u.th[t].(state := RUNNABLE)).(runq := u.runq + [t]), Value(0))
  }

  function TryLock(s: Vp, m: nat): (Vp, Rv)
    requires Running(s) && m < |s.mutexes|
  {
    if s.mutexes[m].owner != None then (s, Error(EBUSY))
    else (SetMutex(s, m, s.mutexes[m].(owner := s.current)), Value(0))
  }

  // ---------- Threads ----------

  function Create(s: Vp, joinable: bool): Vp {
    var term := if joinable then Some(|s.conds|) else None;
    s.(th := s.th + [Tcb(RUNNABLE, User, false, false, false, 0, term)],
       conds := if joinable then s.conds + [[]] else s.conds,
       runq := s.runq + [|s.th|])
  }

  function Interrupt(s: Vp, u: nat): Vp
    requires u < |s.th|
  {
    if s.th[u].state == ZOMBIE then s else
      var t := Set(s, u, s.th[u].(interrupt := true));
      if Active(s.th[u].state) then t else Wake(t, u)
  }

  function Exit(s: Vp): Vp
    requires Running(s)
    requires s.th[s.current.value].term.Some? ==> CondInRange(s, s.th[s.current.value].term.value)
  {
    var me := s.current.value;
    match s.th[me].term
    case None => Schedule(Block(s, me, RUNNING, Done))
    case Some(c) =>
      var t := Block(s, me, ZOMBIE, InExit).(zombieq := s.zombieq + [me]);
      SignalRunq(t, c);
      Schedule(Signal(t, c, false))
  }

  lemma {:induction false} SignalRunq(s: Vp, c: nat)
    requires RunqInRange(s) && CondInRange(s, c)
    ensures RunqInRange(Signal(s, c, false))
  {
    FirstInFound(s.th, s.conds[c], COND_WAIT);
  }

  /** A joined thread cleans up and is never scheduled again. */
  function ExitAfter(s: Vp): Vp
    requires Running(s)
  {
    var me := s.current.value;
    var t := Set(s, me, s.th[me].(term := None));
    Schedule(Block(t, me, RUNNING, Done))
  }

  /** Takes a zombie off its queue so that it can clean up. */
  function Reap(s: Vp, u: nat): Vp
    requires u < |s.th|
  {
    Set(s, u, s.th[u].(state := RUNNABLE)).(zombieq := Remove(s.zombieq, u), runq := s.runq + [u])
  }

  function Join(s: Vp, u: nat): (Vp, Rv)
    requires Running(s) && u < |s.th| && (s.th[u].term.Some? ==> s.th[u].term.value < |s.conds|)
  {
    var me := s.current.value;
    if s.th[u].term.None? then (s, Error(EINVAL))
    else if me == u then (s, Error(EDEADLK))
    else
      var c := s.th[u].term.value;
      if s.conds[c] != [] then (s, Error(EINVAL))
      else if s.th[u].state == ZOMBIE then (Reap(s, u), Value(0))
      else if s.th[me].interrupt then (ClearInterrupt(s, me), Error(EINTR))
      else (WaitOn(s, me, c, None, InJoin(c, u)), Blocked)
  }

  function JoinAfter(s: Vp): (Vp, Rv)
    requires Running(s) && s.th[s.current.value].at.InJoin?
    requires s.th[s.current.value].at.c < |s.conds| && s.th[s.current.value].at.target < |s.th|
  {
    var me, c, u := s.current.value, s.th[s.current.value].at.c, s.th[s.current.value].at.target;
    var (t, rv) := WaitOver(s, me, c);
    if rv != Value(0) then (t, rv)
    else if t.th[u].state == ZOMBIE then (Reap(t, u), rv)
    else (WaitOn(t, me, c, None, InJoin(c, u)), Blocked)
  }

  // ---------- The idle thread ----------

  function Notified(s: Vp, q: Request): Vp
    requires q.thread < |s.th|
  {
    Wake(Set(s, q.thread, s.th[q.thread].(at := Polled(q.pds))), q.thread)
  }

  function NotifyAll(s: Vp, qs: seq<Request>): (r: Vp)
    requires forall i :: 0 <= i < |qs| ==> qs[i].thread < |s.th|
    ensures |r.th| == |s.th|
  {
    if qs == [] then s else Notified(NotifyAll(s, qs[..|qs| - 1]), qs[|qs| - 1])
  }

  /** The clock wakes a thread, with a mark if it waits on a condition variable. */
  function Expire(s: Vp, t: nat): Vp
    requires t < |s.th|
  {
    Wake(if s.th[t].state == COND_WAIT then Set(s, t, s.th[t].(timedOut := true)) else s, t)
  }

  function ExpireAll(s: Vp, ts: seq<nat>): (r: Vp)
    requires forall i :: 0 <= i < |ts| ==> ts[i] < |s.th|
    ensures |r.th| == |s.th|
  {
    if ts == [] then s else Expire(ExpireAll(s, ts[..|ts| - 1]), ts[|ts| - 1])
  }

  /** `ts` are the threads whose deadline has come, in order of their deadlines. */
  ghost predicate Expired(s: Vp, now: nat, ts: seq<nat>) {
    && (forall t :: t in s.sleepq ==> t < |s.th|)
    && (forall t :: t in ts <==> t in s.sleepq && s.th[t].due <= now)
    && (forall i :: 0 <= i < |ts| ==> ts[i] < |s.th|)
    && (forall i, j :: 0 <= i < j < |ts| ==> ts[i] != ts[j] && s.th[ts[i]].due <= s.th[ts[j]].due)
  }

  /** After dispatch: what fired has been told to the threads waiting for it. */
  function Dispatched(s: Vp, fired: seq<Fired>): (r: Vp)
    requires AllInRange(s.ep, s.ioq)
    requires forall i :: 0 <= i < |fired| ==> 0 <= fired[i].fd < |s.ep.fds|
    requires forall i :: 0 <= i < |Dispatch(s.ep, s.ioq, fired).woken| ==> Dispatch(s.ep, s.ioq, fired).woken[i].thread < |s.th|
    ensures |r.th| == |s.th|
  {
    var d := Dispatch(s.ep, s.ioq, fired);
    NotifyAll(s.(ep := d.s, ioq := d.kept), d.woken)
  }

  /** One round of the idle thread. */
  function IdleRound(s: Vp, fired: seq<Fired>, now: nat, ts: seq<nat>): Vp
    requires AllInRange(s.ep, s.ioq)
    requires forall i :: 0 <= i < |fired| ==> 0 <= fired[i].fd < |s.ep.fds|
    requires forall i :: 0 <= i < |Dispatch(s.ep, s.ioq, fired).woken| ==> Dispatch(s.ep, s.ioq, fired).woken[i].thread < |s.th|
    requires forall i :: 0 <= i < |ts| ==> ts[i] < |s.th|
    requires RunqInRange(ExpireAll(Dispatched(s, fired).(clock := now), ts))
  {
    Schedule(ExpireAll(Dispatched(s, fired).(clock := now), ts))
  }

  // ---------- The invariant ----------

  /** The states a thread can be in at each point, and the flags that go with them. */
  predicate Coupled(x: Tcb) {
    && (match x.at
        case User => Active(x.state)
        case Polled(_) => Active(x.state)
        case InPoll => Active(x.state) || x.state.IO_WAIT?
        case InSleep => Active(x.state) || x.state.SLEEPING? || x.state.SUSPENDED?
        case InCond(_) => Active(x.state) || x.state.COND_WAIT?
        case InJoin(_, _) => Active(x.state) || x.state.COND_WAIT?
        case InLock(_) => Active(x.state) || x.state.LOCK_WAIT?
        case InExit => Active(x.state) || x.state.ZOMBIE?
        case Done => x.state.RUNNING?)
    && (x.onSleepQ ==> x.state.IO_WAIT? || x.state.COND_WAIT? || x.state.SLEEPING?)
    && (x.timedOut ==> (x.at.InCond? || x.at.InJoin?) && Active(x.state))
    && (x.interrupt ==> !Waiting(x.state))
  }

  /** The condition variable a thread is queued on. */
  function CondOf(at: Point): Option<nat> {
    match at case InCond(c) => Some(c) case InJoin(c, _) => Some(c) case _ => None
  }

  /** Thread `t` is in exactly one place, the one its record says; `polling`
      are the threads with a request on the io queue. */
  ghost predicate Placed(s: Vp, polling: set<nat>, t: nat)
    requires t < |s.th|
  {
    var x := s.th[t];
    && Coupled(x)
    && (t in s.runq <==> x.state.RUNNABLE?)
    && (t in s.zombieq <==> x.state.ZOMBIE?)
    && (x.state.RUNNING? <==> s.current == Some(t) || x.at.Done?)
    && (x.at.Done? ==> s.current != Some(t))
    && (t in s.sleepq <==> x.onSleepQ)
    && (t in polling <==> x.at.InPoll?)
    && (forall c {:trigger s.conds[c]} :: 0 <= c < |s.conds| ==> (t in s.conds[c] <==> CondOf(x.at) == Some(c)))
    && (CondOf(x.at).Some? ==> CondOf(x.at).value < |s.conds|)
    && (x.at.InJoin? ==> x.at.target < |s.th|)
    && (x.term.Some? ==> x.term.value < |s.conds|)
    && (forall m {:trigger s.mutexes[m]} :: 0 <= m < |s.mutexes| ==> (t in s.mutexes[m].waitq <==> x.at == InLock(m)))
    && (x.at.InLock? ==> x.at.m < |s.mutexes| && LockOk(s.mutexes[x.at.m].owner, t, x))
  }

  /** A thread still in LOCK_WAIT waits for another owner; one resumed without
      an interrupt is the owner. */
  predicate LockOk(owner: Option<nat>, t: nat, x: Tcb) {
    && (x.state.LOCK_WAIT? ==> owner != None && owner != Some(t))
    && (Active(x.state) && !x.interrupt ==> owner == Some(t))
  }

  /** No queue holds a thread twice or a thread that does not exist. */
  ghost predicate QueuesOk(s: Vp) {
    && Distinct(s.runq) && (forall t :: t in s.runq ==> t < |s.th|)
    && Distinct(s.zombieq) && (forall t :: t in s.zombieq ==> t < |s.th|)
    && (forall t :: t in s.sleepq ==> t < |s.th|)
    && (forall c {:trigger s.conds[c]} :: 0 <= c < |s.conds| ==> Distinct(s.conds[c]) && forall t :: t in s.conds[c] ==> t < |s.th|)
    && (forall m {:trigger s.mutexes[m]} :: 0 <= m < |s.mutexes| ==> Distinct(s.mutexes[m].waitq) && forall t :: t in s.mutexes[m].waitq ==> t < |s.th|)
    && (s.current.Some? ==> s.current.value < |s.th|)
  }

  ghost predicate Core(s: Vp, polling: set<nat>) {
    && QueuesOk(s)
    && (forall t :: t in polling ==> t < |s.th|)
    && forall t {:trigger Placed(s, polling, t)} :: 0 <= t < |s.th| ==> Placed(s, polling, t)
  }

  /** What holds between any two steps. */
  ghost predicate Inv(s: Vp) {
    && Core(s, Threads(s.ioq))
    && (forall i, j :: 0 <= i < j < |s.ioq| ==> s.ioq[i].thread != s.ioq[j].thread)
    && (s.current.None? ==> s.runq == [])
    && EpInv(s.ep, s.ioq)
  }
}