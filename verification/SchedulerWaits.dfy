/** Condition variables: whom a signal wakes, and what the result of a wait tells
    the waiter. */
module SchedulerWaits {
  import opened Epoll
  import opened Scheduler
  import opened SchedulerInvariant
  import opened SchedulerRuns
  import opened SchedulerCalls
  import opened SchedulerDeadlines
  import opened StThreads
  import opened Wrappers

  // ---------- Whom a signal wakes ----------

  /** The threads of a queue still in COND_WAIT, in queue order. */
  function StillWaiting(th: seq<Tcb>, q: seq<nat>): seq<nat>
    requires forall i :: 0 <= i < |q| ==> q[i] < |th|
  {
    if q == [] then []
    else (if th[q[0]].state == COND_WAIT then [q[0]] else []) + StillWaiting(th, q[1..])
  }

  lemma {:induction false} StillWaitingSame(th: seq<Tcb>, th': seq<Tcb>, q: seq<nat>)
    requires |th'| == |th| && forall i :: 0 <= i < |q| ==> q[i] < |th| && th'[q[i]] == th[q[i]]
    ensures StillWaiting(th', q) == StillWaiting(th, q)
  {
    if q != [] { StillWaitingSame(th, th', q[1..]); }
  }

  /** A broadcast makes every waiter still in COND_WAIT runnable, in the order of the queue. */
  lemma {:induction false} BroadcastWakesAll(s: Vp, q: seq<nat>)
    requires Distinct(q) && forall i :: 0 <= i < |q| ==> q[i] < |s.th|
    ensures WakeAll(s, q).runq == s.runq + StillWaiting(s.th, q)
    ensures forall i :: 0 <= i < |q| ==> WakeAll(s, q).th[q[i]].state != COND_WAIT
    ensures forall t :: 0 <= t < |s.th| && t !in q ==> WakeAll(s, q).th[t] == s.th[t]
    decreases |q|
  {
    if q != [] {
      var u := if s.th[q[0]].state == COND_WAIT then Wake(s, q[0]) else s;
      assert q[0] !in q[1..];
      BroadcastWakesAll(u, q[1..]);
      StillWaitingSame(s.th, u.th, q[1..]);
      forall i | 0 <= i < |q|
          ensures WakeAll(s, q).th[q[i]].state != COND_WAIT { assert i > 0 ==> q[i] == q[1..][i - 1]; }
    }
  }

  /** A signal goes to the first waiter still in COND_WAIT: none is spent on one
      that has timed out or has been interrupted. */
  lemma {:induction false} SignalWakesFirst(s: Vp, c: nat)
    requires CondInRange(s, c)
    ensures var q, r := StillWaiting(s.th, s.conds[c]), Signal(s, c, false);
            if q == [] then r == s
            else q[0] < |s.th| && r.runq == s.runq + [q[0]] && r.conds == s.conds && r.mutexes == s.mutexes
                 && r.th == s.th[q[0] := s.th[q[0]].(state := RUNNABLE, onSleepQ := false)]
                 && r.sleepq == (if s.th[q[0]].onSleepQ then s.sleepq - {q[0]} else s.sleepq)
  {
    FirstStillWaiting(s.th, s.conds[c]);
    FirstInFound(s.th, s.conds[c], COND_WAIT);
  }

  lemma {:induction false} FirstStillWaiting(th: seq<Tcb>, q: seq<nat>)
    requires forall i :: 0 <= i < |q| ==> q[i] < |th|
    ensures FirstIn(th, q, COND_WAIT) == (if StillWaiting(th, q) == [] then None else Some(StillWaiting(th, q)[0]))
  {
    if q != [] { FirstStillWaiting(th, q[1..]); }
  }

  // ---------- Whole waits ----------

  /** A wait that returns success was ended by a signal or broadcast of its own
      condition variable; one that returns ETIME was timed out by the clock, not
      before its deadline, and one that returns EINTR was interrupted, each
      during this same wait. */
  lemma {:induction false} WaitResult(states: seq<Vp>, ops: seq<Op>, i: nat, j: nat, t: nat)
    requires Returns(states, ops, i, j, t) && ops[i].OpCondWait?
    ensures Enabled(states[j], OpResume)
    ensures var rv := Apply(states[j], OpResume).1;
            && (rv == Value(0) || rv == Error(ETIME) || rv == Error(EINTR))
            && (rv == Value(0) ==> SignalCame(states, ops, i, j, t, ops[i].c))
            && (rv == Error(ETIME) ==> ClockCame(states, ops, i, j, t))
            && (rv == Error(EINTR) ==> InterruptCame(ops, i, j, t))
  {
    WhyResumed(states, ops, i, j, t);
    hide IsRun, BlocksAt, ClockCame, InterruptCame, EventsCame, SignalCame, Unresumed;
  }
}
