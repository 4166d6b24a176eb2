/** Time limits: whoever blocks with one is on the sleep queue from then on, and
    the clock ends the wait. */
module SchedulerDeadlines {
  import opened Epoll
  import opened Scheduler
  import opened SchedulerInvariant
  import opened SchedulerRuns
  import opened SchedulerCalls
  import opened StThreads
  import opened Wrappers

  /** The time limit of a call. */
  function TimeLimit(op: Op): Option<nat> {
    match op
    case OpPoll(_, timeout, _, _) => timeout
    case OpUsleep(usecs) => usecs
    case OpCondWait(_, timeout) => timeout
    case _ => None
  }

  /** Where a thread is right after it has blocked. */
  function Waits(op: Op): (State, Point) {
    match op
    case OpPoll(_, _, _, _) => (IO_WAIT, InPoll)
    case OpUsleep(usecs) => (if usecs.Some? then SLEEPING else SUSPENDED, InSleep)
    case OpCondWait(c, _) => (COND_WAIT, InCond(c))
    case _ => (RUNNING, User)
  }

  /** Step `i` blocks thread `t` in a call that can have a time limit. */
  ghost predicate BlocksAt(states: seq<Vp>, ops: seq<Op>, i: nat, t: nat) {
    && i < |ops| && |states| == |ops| + 1 && states[i].current == Some(t) && Enabled(states[i], ops[i])
    && (ops[i].OpPoll? || ops[i].OpUsleep? || ops[i].OpCondWait?) && Apply(states[i], ops[i]).1 == Blocked
  }

  /** A thread that blocks waits from then on, and is on the sleep queue exactly if it has a time limit. */
  lemma {:induction false} CallBegins(s: Vp, op: Op)
    requires Inv(s) && Enabled(s, op) && s.current.Some? && (op.OpPoll? || op.OpUsleep? || op.OpCondWait?)
    requires Apply(s, op).1 == Blocked
    ensures Begun(s, op, Apply(s, op).0, s.current.value)
  {
    RunningMe(s);
    hide Inv, Poll, CondWait;
    if op.OpPoll? { PollBlocked(s, op); } else if op.OpCondWait? { CondBlocked(s, op); }
  }

  ghost predicate Begun(s: Vp, op: Op, s': Vp, t: nat) {
    t < |s'.th| && var y := s'.th[t];
                   && (y.state, y.at) == Waits(op) && !y.timedOut && !y.interrupt
                   && y.onSleepQ == TimeLimit(op).Some? && (y.onSleepQ ==> y.due == s.clock + TimeLimit(op).value)
  }

  lemma {:induction false} CondBlocked(s: Vp, op: Op)
    requires Inv(s) && op.OpCondWait? && Enabled(s, op) && s.current.Some? && Apply(s, op).1 == Blocked
    ensures Begun(s, op, Apply(s, op).0, s.current.value)
  {
    RunningMe(s);
    hide Inv;
  }

  lemma {:induction false} PollBlocked(s: Vp, op: Op)
    requires Inv(s) && op.OpPoll? && Enabled(s, op) && s.current.Some? && Apply(s, op).1 == Blocked
    ensures Begun(s, op, Apply(s, op).0, s.current.value)
  {
    RunningMe(s);
    hide Inv, PollsetAdd;
  }

  lemma {:induction false} WaitBegins(states: seq<Vp>, ops: seq<Op>, i: nat, t: nat)
    requires IsRun(states, ops) && BlocksAt(states, ops, i, t)
    ensures InCall(states[i + 1], t)
    ensures var y := states[i + 1].th[t];
            && (y.state, y.at) == Waits(ops[i]) && !y.timedOut && !y.interrupt
            && y.onSleepQ == TimeLimit(ops[i]).Some?
            && (y.onSleepQ ==> y.due == states[i].clock + TimeLimit(ops[i]).value)
  {
    hide Inv, Apply, Enabled;
    RunKeeps(states, ops, i);
    StepOf(states, ops, i);
    CallBegins(states[i], ops[i]);
  }

  lemma {:induction false} WaitSince(states: seq<Vp>, ops: seq<Op>, i: nat, j: nat, t: nat)
    requires IsRun(states, ops) && BlocksAt(states, ops, i, t) && i < j <= |ops| && Unresumed(states, ops, i + 1, j, t)
    ensures InCall(states[i + 1], t) && StaysIn(states, i + 1, j, t)
    ensures Since(states, ops, i + 1, j, t, states[i + 1].th[t], states[j].th[t])
  {
    hide IsRun, Since, BlocksAt, CallStep;
    WaitBegins(states, ops, i, t);
    StaysInCall(states, ops, i + 1, j, t);
    CallHistory(states, ops, i + 1, j, t);
  }

  /** A thread that does not wait is running or runnable. */
  lemma {:induction false} Awake(s: Vp, t: nat)
    requires Inv(s) && InCall(s, t) && !Waiting(s.th[t].state) && !s.th[t].at.InExit?
    ensures s.current == Some(t) || t in s.runq
  {
    CallPlaced(s, t);
  }

  /** Once the idle thread has seen the clock at the deadline, whoever blocked with that
      deadline does not wait any longer: it is on the run queue, or runs. */
  lemma {:induction false} TimedCallEnds(states: seq<Vp>, ops: seq<Op>, i: nat, k: nat, j: nat, t: nat, limit: nat)
    requires IsRun(states, ops) && BlocksAt(states, ops, i, t) && TimeLimit(ops[i]) == Some(limit)
    requires i < k < j <= |ops| && Unresumed(states, ops, i + 1, j, t)
    requires ops[k].OpIdle? && states[i].clock + limit <= ops[k].now
    ensures states[j].current == Some(t) || t in states[j].runq
  {
    hide IsRun, BlocksAt, CallStep, Told, Ended, Tells, Inv;
    WaitBegins(states, ops, i, t);
    WaitSince(states, ops, i, k, t);
    WaitSince(states, ops, i, j, t);
    StepOfCall(states, ops, k, t);
    DeadlineSeen(states[k], ops[k], states[k].th[t], states[k + 1].th[t], t);
    StaysAwake(states, ops, k + 1, j, t);
    RunKeeps(states, ops, j);
    NotInExit(states, ops, i, j, t);
    Awake(states[j], t);
  }

  lemma {:induction false} DeadlineSeen(s: Vp, op: Op, x: Tcb, y: Tcb, t: nat)
    requires CallStep(s, op, x, y, t) && op.OpIdle? && x.due <= op.now && (Waiting(x.state) ==> x.onSleepQ)
    ensures !Waiting(y.state)
  {
    hide Tells;
  }

  lemma {:induction false} NotInExit(states: seq<Vp>, ops: seq<Op>, i: nat, j: nat, t: nat)
    requires BlocksAt(states, ops, i, t) && j < |states| && InCall(states[j], t) && InCall(states[i + 1], t)
    requires states[i + 1].th[t].at == Waits(ops[i]).1
    requires Told(states, ops, i + 1, j, t, states[i + 1].th[t], states[j].th[t])
    ensures !states[j].th[t].at.InExit?
  {
    hide Apply, Enabled, Tells, ToldAt;
  }

  // ---------- Results ----------

  /** Thread `t` blocked at step `i` and is resumed by step `j`, not before. */
  ghost predicate Returns(states: seq<Vp>, ops: seq<Op>, i: nat, j: nat, t: nat) {
    && IsRun(states, ops) && BlocksAt(states, ops, i, t) && i < j < |ops| && Unresumed(states, ops, i + 1, j, t)
    && ops[j] == OpResume && states[j].current == Some(t)
  }

  /** Between the two steps the clock was at the deadline, and took the thread off the sleep queue. */
  ghost predicate ClockCame(states: seq<Vp>, ops: seq<Op>, i: nat, j: nat, t: nat) {
    && i < |ops| && i < |states| && TimeLimit(ops[i]).Some?
    && exists k :: i < k < j && TimedOutAt(states, ops, k, t) && states[i].clock + TimeLimit(ops[i]).value <= ops[k].now
  }

  ghost predicate InterruptCame(ops: seq<Op>, i: nat, j: nat, t: nat) {
    exists k :: i < k < j && k < |ops| && ops[k] == OpInterrupt(t)
  }

  ghost predicate SignalCame(states: seq<Vp>, ops: seq<Op>, i: nat, j: nat, t: nat, c: nat) {
    exists k :: i < k < j && WokenAt(states, ops, k, t, c)
  }

  ghost predicate EventsCame(states: seq<Vp>, ops: seq<Op>, i: nat, j: nat, t: nat, pds: seq<Pollfd>) {
    exists k :: i < k < j && ToldAt(states, ops, k, t, pds)
  }

  /** Only who is on the sleep queue is timed out, and not before its deadline. */
  lemma {:induction false} TimedOutInTime(states: seq<Vp>, ops: seq<Op>, i: nat, k: nat, t: nat)
    requires IsRun(states, ops) && BlocksAt(states, ops, i, t) && i < k < |ops| && Unresumed(states, ops, i + 1, k, t)
    requires TimedOutAt(states, ops, k, t)
    ensures TimeLimit(ops[i]).Some? && states[i].clock + TimeLimit(ops[i]).value <= ops[k].now
  {
    WaitBegins(states, ops, i, t);
    WaitSince(states, ops, i, k, t);
    hide IsRun, BlocksAt, Told, Ended, Waiting;
  }

  /** The state of a thread when it is resumed, and what brought it there. */
  ghost predicate Reason(states: seq<Vp>, ops: seq<Op>, i: nat, j: nat, t: nat, y: Tcb) {
    && i < |ops|
    && (y.at == Waits(ops[i]).1
        || (ops[i].OpPoll? && y.at.Polled? && EventsCame(states, ops, i, j, t, y.at.pds)))
    && (y.interrupt ==> InterruptCame(ops, i, j, t))
    && (y.timedOut ==> ops[i].OpCondWait? && ClockCame(states, ops, i, j, t))
    && (!y.interrupt && !y.at.Polled? && !y.timedOut
        ==> if ops[i].OpCondWait? then SignalCame(states, ops, i, j, t, ops[i].c) else ClockCame(states, ops, i, j, t))
  }

  lemma {:induction false} WhyResumed(states: seq<Vp>, ops: seq<Op>, i: nat, j: nat, t: nat)
    requires Returns(states, ops, i, j, t)
    ensures t < |states[j].th| && Running(states[j]) && Enabled(states[j], OpResume)
    ensures Reason(states, ops, i, j, t, states[j].th[t])
  {
    WaitBegins(states, ops, i, t);
    WaitSince(states, ops, i, j, t);
    RunKeeps(states, ops, j);
    RunningMe(states[j]);
    StepOf(states, ops, j);
    var x, y := states[i + 1].th[t], states[j].th[t];
    forall k | i < k < j && TimedOutAt(states, ops, k, t)
        ensures TimeLimit(ops[i]).Some? && states[i].clock + TimeLimit(ops[i]).value <= ops[k].now {
      TimedOutInTime(states, ops, i, k, t);
    }
    hide IsRun, BlocksAt, Inv, TimedOutAt, WokenAt, ToldAt, HandedAt, Running, Enabled;
  }

  /** st_usleep returns 0 only after its time, and otherwise EINTR only after an interrupt of its thread. */
  lemma {:induction false} SleepResult(states: seq<Vp>, ops: seq<Op>, i: nat, j: nat, t: nat)
    requires Returns(states, ops, i, j, t) && ops[i].OpUsleep?
    ensures Enabled(states[j], OpResume)
    ensures var rv := Apply(states[j], OpResume).1;
            && (rv == Value(0) || rv == Error(EINTR))
            && (rv == Value(0) ==> ClockCame(states, ops, i, j, t))
            && (rv == Error(EINTR) ==> InterruptCame(ops, i, j, t))
  {
    WhyResumed(states, ops, i, j, t);
    hide IsRun, BlocksAt, ClockCame, InterruptCame, EventsCame, SignalCame, Unresumed;
  }
}
