/** Polls over whole runs: a poll is told of the descriptors it asked for, what
    was reported for them, and how many there are. */
module SchedulerPolls {
  import opened Epoll
  import opened EpollAdmission
  import opened Scheduler
  import opened SchedulerInvariant
  import opened SchedulerRuns
  import opened SchedulerCalls
  import opened SchedulerDeadlines
  import opened StThreads
  import opened Wrappers

  // ---------- Counting ----------

  /** The entries that were told of something. */
  ghost function ReadyEntries(pds: seq<Pollfd>): set<nat> {
    set i | 0 <= i < |pds| && pds[i].revents != {}
  }

  lemma {:induction false} CountsReady(pds: seq<Pollfd>)
    ensures CountReady(pds) == |ReadyEntries(pds)|
  {
    if pds != [] {
      var n := |pds| - 1;
      CountsReady(pds[..n]);
      if pds[n].revents != {} {
        assert ReadyEntries(pds) == ReadyEntries(pds[..n]) + {n};
      } else {
        assert ReadyEntries(pds) == ReadyEntries(pds[..n]);
      }
    }
  }

  // ---------- The request of a thread ----------

  /** The same descriptors and events, whatever was reported. */
  ghost predicate SameAsk(p: seq<Pollfd>, q: seq<Pollfd>) {
    |p| == |q| && forall i :: 0 <= i < |p| ==> p[i].fd == q[i].fd && p[i].events == q[i].events
  }

  /** Every request of `t` on the queue asks for `pds`. */
  ghost predicate Asks(ioq: seq<Request>, t: nat, pds: seq<Pollfd>) {
    forall i :: 0 <= i < |ioq| && ioq[i].thread == t ==> SameAsk(ioq[i].pds, pds)
  }

  /** The pass over the io queue keeps and hands out what was asked. */
  lemma {:induction false} SelectedFrom(s: Ep, ioq: seq<Request>, notified: bool, q: Request) returns (i: nat)
    requires AllInRange(s, ioq) && q in Select(s, ioq, notified)
    ensures i < |ioq| && InRange(s, ioq[i].pds) && q == Report(s, ioq[i]) && Notify(s, ioq[i]) == notified
  {
    var n := |ioq| - 1;
    assert InRange(s, ioq[n].pds);
    if q in Select(s, ioq[..n], notified) {
      i := SelectedFrom(s, ioq[..n], notified, q);
    } else {
      i := n;
    }
  }

  /** What dispatch tells about an entry. */
  ghost predicate ToldOf(fired: seq<Fired>, told: seq<Pollfd>) {
    forall i :: 0 <= i < |told| ==> Gets(fired, told[i], told[i].revents)
  }

  lemma {:induction false} MarkInRange(s: Ep, ioq: seq<Request>, fired: seq<Fired>)
    requires AllInRange(s, ioq) && Reportable(s, fired)
    ensures AllInRange(Mark(s, fired), ioq)
  {
    forall i | 0 <= i < |ioq| ensures InRange(Mark(s, fired), ioq[i].pds) { assert InRange(s, ioq[i].pds); }
  }

  lemma {:induction false} DispatchAsks(s: Ep, ioq: seq<Request>, fired: seq<Fired>, t: nat, pds: seq<Pollfd>)
    requires EpInv(s, ioq) && Reportable(s, fired) && Asks(ioq, t, pds)
    ensures Asks(Dispatch(s, ioq, fired).kept, t, pds)
    ensures forall told :: Request(t, told) in Dispatch(s, ioq, fired).woken
              ==> SameAsk(told, pds) && ReadyEntries(told) != {} && ToldOf(fired, told)
  {
    if fired != [] {
      var m, d := Mark(s, fired), Dispatch(s, ioq, fired);
      MarkInRange(s, ioq, fired);
      ScanSelects(m, ioq);
      assert d.kept == Select(m, ioq, false) && d.woken == Select(m, ioq, true);
      hide Dispatch, Mark, Scan, EpInv, Notify, Ready, Select, Reportable, Gets;
      forall k | 0 <= k < |d.kept| && d.kept[k].thread == t ensures SameAsk(d.kept[k].pds, pds) {
        var i := SelectedFrom(m, ioq, false, d.kept[k]);
      }
      forall told | Request(t, told) in d.woken
        ensures SameAsk(told, pds) && ReadyEntries(told) != {} && ToldOf(fired, told) {
        var i := SelectedFrom(m, ioq, true, Request(t, told));
        ReportTells(s, ioq, fired, i);
      }
    }
  }

  lemma {:induction false} ReportTells(s: Ep, ioq: seq<Request>, fired: seq<Fired>, i: nat)
    requires EpInv(s, ioq) && Reportable(s, fired) && i < |ioq| && InRange(Mark(s, fired), ioq[i].pds)
             && Notify(Mark(s, fired), ioq[i])
    ensures var told := Report(Mark(s, fired), ioq[i]).pds;
            SameAsk(told, ioq[i].pds) && ReadyEntries(told) != {} && ToldOf(fired, told)
  {
    var m, pds := Mark(s, fired), ioq[i].pds;
    var told := Report(m, ioq[i]).pds;
    var j :| 0 <= j < |pds| && Ready(m, pds[j]) != {};
    assert told[j].revents != {} && j in ReadyEntries(told);
    forall k | 0 <= k < |told| ensures Gets(fired, told[k], told[k].revents) {
      EntryMasked(s, ioq, i, k);
      ReadyMeans(s, fired, pds[k]);
      hide Mark, Ready, EpInv, Reportable;
    }
  }

  /** What an entry on the io queue asks for is in the mask of its descriptor. */
  lemma {:induction false} EntryMasked(s: Ep, ioq: seq<Request>, i: nat, k: nat)
    requires EpInv(s, ioq) && i < |ioq| && k < |ioq[i].pds|
    ensures var p := ioq[i].pds[k]; 0 <= p.fd < |s.fds| && p.events <= s.fds[p.fd].Mask() <= IO
  {
    var p := ioq[i].pds[k];
    assert InRange(s, ioq[i].pds);
    RequestCovered(s, ioq, i);
    assert Wellformed(p);
    forall e | e in p.events ensures e in s.fds[p.fd].Mask() {
      UsesAtLeast(ioq[i].pds, k, e);
      assert s.fds[p.fd].Count(e) >= 1;
    }
  }

  lemma {:induction false} AsksAppend(ioq: seq<Request>, q: Request, t: nat, pds: seq<Pollfd>)
    requires Asks(ioq, t, pds) && (q.thread == t ==> SameAsk(q.pds, pds))
    ensures Asks(ioq + [q], t, pds)
  {
  }

  lemma {:induction false} AsksWithout(ioq: seq<Request>, i: nat, t: nat, pds: seq<Pollfd>)
    requires Asks(ioq, t, pds) && i < |ioq|
    ensures Asks(ioq[..i] + ioq[i + 1..], t, pds)
  {
    var rest := ioq[..i] + ioq[i + 1..];
    assert forall j :: 0 <= j < |rest| ==> rest[j] == ioq[if j < i then j else j + 1];
  }

  /** The io queue changes by polls, by polls that give up, and by dispatches. */
  lemma {:induction false} SameIoq(s: Vp, op: Op)
    requires Inv(s) && Enabled(s, op) && !op.OpPoll? && !op.OpIdle? && !op.OpResume?
    ensures Apply(s, op).0.ioq == s.ioq
  {
    hide Inv, Signal, Exit, RunqInRange, ResumeInRange;
    match op
    case OpSignal(c, broadcast) => SignalIoq(s, c, broadcast);
    case OpExit => ExitIoq(s);
    case _ =>
  }

  lemma {:induction false} SignalIoq(s: Vp, c: nat, broadcast: bool)
    requires Inv(s) && c < |s.conds| && CondInRange(s, c)
    ensures Signal(s, c, broadcast).ioq == s.ioq
  {
    SignalCore(s, Threads(s.ioq), c, broadcast);
  }

  lemma {:induction false} ExitIoq(s: Vp)
    requires Inv(s) && Enabled(s, OpExit)
    ensures Exit(s).ioq == s.ioq
  {
    if s.th[s.current.value].term.Some? {
      var t := Block(s, s.current.value, ZOMBIE, InExit).(zombieq := s.zombieq + [s.current.value]);
      ZombieCore(s, t);
      SignalCore(t, Threads(s.ioq), s.th[s.current.value].term.value, false);
    }
  }

  lemma {:induction false} IdleIoq(s: Vp, op: Op)
    requires Inv(s) && op.OpIdle? && Enabled(s, op)
    ensures Apply(s, op).0.ioq == Dispatch(s.ep, s.ioq, op.fired).kept
  {
    var d := Dispatch(s.ep, s.ioq, op.fired);
    DispatchedKeeps(s, op.fired);
    NotifyAllFrame(s.(ep := d.s, ioq := d.kept), d.woken);
    ExpireAllFrame(Dispatched(s, op.fired).(clock := op.now), op.ts);
    hide Inv, Core, Dispatch, NotifyAll, ExpireAll, Expired;
  }

  lemma {:induction false} ResumeIoq(s: Vp, t: nat, pds: seq<Pollfd>)
    requires Inv(s) && Enabled(s, OpResume) && Asks(s.ioq, t, pds)
    ensures Asks(Apply(s, OpResume).0.ioq, t, pds)
  {
    hide Inv, Asks, DelAll;
    var me := s.current.value;
    if s.th[me].at.InPoll? { AsksWithout(s.ioq, RequestOf(s.ioq, me), t, pds); }
  }

  /** What a thread asks for stays on the queue as it is until a dispatch reports on it. */
  lemma {:induction false} AsksStep(s: Vp, op: Op, t: nat, pds: seq<Pollfd>)
    requires Inv(s) && Enabled(s, op) && InCall(s, t) && Asks(s.ioq, t, pds)
    ensures Asks(Apply(s, op).0.ioq, t, pds)
    ensures forall told :: Tells(s, op, t, told)
              ==> SameAsk(told, pds) && ReadyEntries(told) != {} && op.OpIdle? && ToldOf(op.fired, told)
  {
    hide Asks, ToldOf, ReadyEntries, SameAsk;
    if op.OpIdle? {
      IdleIoq(s, op);
      DispatchAsks(s.ep, s.ioq, op.fired, t, pds);
    } else if op.OpResume? {
      ResumeIoq(s, t, pds);
    } else if op.OpPoll? {
      PollIoq(s, op, t, pds);
    } else {
      SameIoq(s, op);
    }
  }

  lemma {:induction false} PollIoq(s: Vp, op: Op, t: nat, pds: seq<Pollfd>)
    requires Inv(s) && op.OpPoll? && Enabled(s, op) && InCall(s, t) && Asks(s.ioq, t, pds)
    ensures Asks(Apply(s, op).0.ioq, t, pds)
  {
    hide Inv, Asks, PollsetAdd;
    AsksAppend(s.ioq, Request(s.current.value, op.pds), t, pds);
  }

  // ---------- Whole polls ----------

  /** A poll blocks exactly if no interrupt is pending and the event system takes its set. */
  lemma {:induction false} PollBlocksIff(s: Vp, op: Op)
    requires Inv(s) && op.OpPoll? && Enabled(s, op)
    ensures Apply(s, op).1 == Blocked
            <==> !s.th[s.current.value].interrupt && AllWellformed(op.pds) && (op.grow || InRange(s.ep, op.pds))
                 && NoneRefused(s.ep, op.pds, op.refuse)
  {
    TakenIff(s.ep, s.ioq, op.pds, op.grow, op.refuse);
    hide Inv, PollsetAdd;
  }

  lemma {:induction false} PollBegins(s: Vp, op: Op)
    requires Inv(s) && op.OpPoll? && Enabled(s, op) && Apply(s, op).1 == Blocked
    ensures s.current.Some? && Asks(Apply(s, op).0.ioq, s.current.value, op.pds)
  {
    RunningMe(s);
    assert s.current.value !in Threads(s.ioq);
    assert forall i :: 0 <= i < |s.ioq| ==> s.ioq[i].thread in Threads(s.ioq);
    hide Inv, PollsetAdd, Placed;
  }

  lemma {:induction false} AsksStay(states: seq<Vp>, ops: seq<Op>, i: nat, j: nat, t: nat, pds: seq<Pollfd>)
    requires IsRun(states, ops) && i <= j <= |ops| && StaysIn(states, i, j, t) && Asks(states[i].ioq, t, pds)
    ensures Asks(states[j].ioq, t, pds)
    decreases j
  {
    if i < j {
      AsksStay(states, ops, i, j - 1, t, pds);
      RunKeeps(states, ops, j - 1);
      StepOf(states, ops, j - 1);
      AsksStep(states[j - 1], ops[j - 1], t, pds);
      hide IsRun, Inv, Asks;
    }
  }

  /** A dispatch between the two steps told the thread of these entries: the
      descriptors and events it asked for, with what was reported for each. */
  ghost predicate ReportCame(states: seq<Vp>, ops: seq<Op>, i: nat, j: nat, t: nat, told: seq<Pollfd>) {
    && i < |ops| && ops[i].OpPoll? && SameAsk(told, ops[i].pds)
    && exists k :: i < k < j && k < |ops| && ToldAt(states, ops, k, t, told) && ops[k].OpIdle?
                   && ToldOf(ops[k].fired, told)
  }

  lemma {:induction false} EventsAsked(states: seq<Vp>, ops: seq<Op>, i: nat, j: nat, t: nat, told: seq<Pollfd>)
    requires Returns(states, ops, i, j, t) && ops[i].OpPoll? && EventsCame(states, ops, i, j, t, told)
    ensures ReportCame(states, ops, i, j, t, told) && ReadyEntries(told) != {}
  {
    var k :| i < k < j && ToldAt(states, ops, k, t, told);
    hide ToldOf, SameAsk, Asks, ReadyEntries, IsRun, Inv, Since, BlocksAt;
    WaitSince(states, ops, i, k, t);
    assert InCall(states[k], t);
    AskedAt(states, ops, i, k, t);
    RunKeeps(states, ops, k);
    StepOf(states, ops, k);
    assert Tells(states[k], ops[k], t, told);
    hide Tells, Apply, Enabled;
    AsksStep(states[k], ops[k], t, ops[i].pds);
  }

  lemma {:induction false} AskedAt(states: seq<Vp>, ops: seq<Op>, i: nat, k: nat, t: nat)
    requires IsRun(states, ops) && BlocksAt(states, ops, i, t) && ops[i].OpPoll? && i < k <= |ops|
             && Unresumed(states, ops, i + 1, k, t)
    ensures Asks(states[k].ioq, t, ops[i].pds)
  {
    RunKeeps(states, ops, i);
    StepOf(states, ops, i);
    WaitSince(states, ops, i, k, t);
    hide IsRun, Inv, Since, Unresumed, Asks, Apply;
    PollBegins(states[i], ops[i]);
    AsksStay(states, ops, i + 1, k, t, ops[i].pds);
  }

  /** st_poll returns 0 only when its time is over, a positive number only if a
      dispatch told it of that many of the descriptors it asked for, and EINTR
      only after an interrupt of its thread. */
  lemma {:induction false} PollResult(states: seq<Vp>, ops: seq<Op>, i: nat, j: nat, t: nat)
    requires Returns(states, ops, i, j, t) && ops[i].OpPoll?
    ensures Enabled(states[j], OpResume)
    ensures var rv := Apply(states[j], OpResume).1;
            && (rv == Error(EINTR) || rv.Value?)
            && (rv == Error(EINTR) ==> InterruptCame(ops, i, j, t))
            && (rv == Value(0) ==> ClockCame(states, ops, i, j, t))
            && (rv.Value? && rv.n != 0
                ==> exists told :: ReportCame(states, ops, i, j, t, told) && rv.n == |ReadyEntries(told)|)
  {
    WhyResumed(states, ops, i, j, t);
    var at := states[j].th[t].at;
    if at.Polled? {
      EventsAsked(states, ops, i, j, t, at.pds);
      CountsReady(at.pds);
    }
    hide IsRun, BlocksAt, ClockCame, InterruptCame, EventsCame, SignalCame, Unresumed, ReportCame, DelAll, CountReady,
        ReadyEntries;
  }
}
