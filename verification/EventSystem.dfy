/** The event system of event.c with its state in fields: each loop does the
    steps of `Epoll` one after the other. */
module EventSystem {
  import opened Epoll

  class EpollData {
    var fdData: seq<FdData>
    // the kernel's interest list, changed by epoll_ctl only
    var kernel: map<int, Events>
    var evtlistCnt: int

    constructor (size: nat)
      requires size > 0
      ensures EpInv(State(), [])
      ensures State() == Ep(seq(size, _ => NO_DATA), map[], 0)
    {
      fdData := seq(size, _ => NO_DATA);
      kernel := map[];
      evtlistCnt := 0;
    }

    function State(): Ep
      reads this
    {
      Ep(fdData, kernel, evtlistCnt)
    }

    /** The system call. */
    method EpollCtl(op: CtlOp, fd: int, events: Events, refused: bool) returns (works: bool)
      modifies this`kernel
      ensures works == CtlWorks(old(kernel), op, fd, refused)
      ensures kernel == if works then Ctl(old(kernel), op, fd, events) else old(kernel)
    {
      works := CtlWorks(kernel, op, fd, refused);
      if works {
        kernel := Ctl(kernel, op, fd, events);
      }
    }

    method Update(fd: int)
      requires 0 <= fd < |fdData|
      modifies this`kernel, this`evtlistCnt
      ensures State() == SetInterest(old(State()), fd)
    {
      var events := fdData[fd].Mask();
      var op := if events != {} then CtlMod else CtlDel;
      var works := EpollCtl(op, fd, events, false);
      if works && op == CtlDel {
        evtlistCnt := evtlistCnt - 1;
      }
    }

    method PollsetDel(pds: seq<Pollfd>)
      requires InRange(State(), pds)
      modifies this
      ensures State() == DelAll(old(State()), pds)
    {
      for i := 0 to |pds|
        invariant |fdData| == |old(fdData)|
        invariant State() == DelAll(old(State()), pds[..i])
      {
        assert pds[..i + 1][..i] == pds[..i];
        var p := pds[i];
        var was := fdData[p.fd].Mask();
        fdData := fdData[p.fd := fdData[p.fd].Add(p.events, -1)];
        if fdData[p.fd].Mask() != was && fdData[p.fd].revents == {} {
          Update(p.fd);
        }
      }
      assert pds[..|pds|] == pds;
    }

    /** Makes room for a descriptor, if memory can be had. */
    method ExpandTo(fd: nat)
      requires 0 < |fdData|
      modifies this`fdData
      ensures State() == Expand(old(State()), fd)
    {
      var n := |fdData|;
      while fd >= n
        invariant n > 0 && n >= |fdData| && Doubled(n, fd) == Doubled(|fdData|, fd)
        decreases if n > fd then 0 else fd + 1 - n
      {
        n := 2 * n;
      }
      fdData := fdData + seq(n - |fdData|, _ => NO_DATA);
    }

    method ValidateAll(pds: seq<Pollfd>, grow: bool) returns (ok: bool)
      requires |fdData| > 0
      modifies this`fdData
      ensures (State(), ok) == Validate(old(State()), pds, grow)
    {
      for i := 0 to |pds|
        invariant |fdData| > 0
        invariant (State(), true) == Validate(old(State()), pds[..i], grow)
      {
        assert pds[..i + 1][..i] == pds[..i];
        var p := pds[i];
        if !Wellformed(p) {
          ValidateStops(old(State()), pds, grow, i + 1);
          return false;
        }
        if p.fd >= |fdData| {
          if !grow {
            ValidateStops(old(State()), pds, grow, i + 1);
            return false;
          }
          ExpandTo(p.fd);
        }
      }
      assert pds[..|pds|] == pds;
      ok := true;
    }

    method AddEntry(p: Pollfd, refused: bool) returns (ok: bool)
      requires 0 <= p.fd < |fdData|
      modifies this
      ensures (State(), ok) == AddOne(old(State()), p, refused)
    {
      var was := fdData[p.fd].Mask();
      fdData := fdData[p.fd := fdData[p.fd].Add(p.events, 1)];
      var now := fdData[p.fd].Mask();
      if now != was {
        var op := if was != {} then CtlMod else CtlAdd;
        var present := op == CtlAdd && p.fd in kernel; // EEXIST
        var works := EpollCtl(op, p.fd, now, refused);
        if !works && !present {
          return false;
        }
        if op == CtlAdd {
          evtlistCnt := evtlistCnt + 1;
        }
      }
      ok := true;
    }

    method PollsetAdd(pds: seq<Pollfd>, grow: bool, refuse: set<nat>) returns (ok: bool)
      requires |fdData| > 0
      modifies this
      ensures (State(), ok) == Epoll.PollsetAdd(old(State()), pds, grow, refuse)
    {
      hide Validate, AddOne, DelAll;
      ok := ValidateAll(pds, grow);
      if !ok {
        return;
      }
      ghost var s := State();
      var i := 0;
      while i < |pds|
        invariant 0 <= i <= |pds| && |fdData| == |s.fds|
        invariant AddAll(s, pds[..i], refuse) == Added(State(), i, true)
      {
        NextAdded(s, pds, i, refuse);
        hide AddAll;
        ok := AddEntry(pds[i], i in refuse);
        if !ok {
          AddAllStops(s, pds, refuse, i + 1);
          PollsetDel(pds[..i + 1]);
          return;
        }
        i := i + 1;
      }
      assert pds[..|pds|] == pds;
      ok := true;
    }

    method MarkFired(fired: seq<Fired>)
      requires forall i :: 0 <= i < |fired| ==> 0 <= fired[i].fd < |fdData|
      modifies this`fdData
      ensures State() == Mark(old(State()), fired)
    {
      for i := 0 to |fired|
        invariant |fdData| == |old(fdData)|
        invariant State() == Mark(old(State()), fired[..i])
      {
        assert fired[..i + 1][..i] == fired[..i];
        var f := fired[i];
        var revents := f.events;
        if revents * {Err, Hup} != {} {
          revents := revents + fdData[f.fd].Mask();
        }
        assert f.events + {} == f.events;
        fdData := fdData[f.fd := fdData[f.fd].Report(revents)];
      }
      assert fired[..|fired|] == fired;
    }

    /** Fills in the events of every entry of a request. */
    method ReportTo(q: Request) returns (r: Request, notify: bool)
      requires InRange(State(), q.pds)
      ensures r == Report(State(), q) && notify == Notify(State(), q)
    {
      var pds := [];
      notify := false;
      for i := 0 to |q.pds|
        invariant |pds| == i && forall j :: 0 <= j < i ==> pds[j] == q.pds[j].(revents := Ready(State(), q.pds[j]))
        invariant notify <==> exists j :: 0 <= j < i && Ready(State(), q.pds[j]) != {}
      {
        var revents := Ready(State(), q.pds[i]);
        pds := pds + [q.pds[i].(revents := revents)];
        if revents != {} {
          notify := true;
        }
      }
      assert pds == Report(State(), q).pds;
      r := Request(q.thread, pds);
    }

    method ScanQueue(ioq: seq<Request>) returns (kept: seq<Request>, woken: seq<Request>)
      requires AllInRange(State(), ioq)
      modifies this
      ensures Scanned(State(), kept, woken) == Scan(old(State()), ioq)
    {
      kept, woken := [], [];
      for i := 0 to |ioq|
        invariant |fdData| == |old(fdData)|
        invariant Scanned(State(), kept, woken) == Scan(old(State()), ioq[..i])
      {
        assert ioq[..i + 1][..i] == ioq[..i];
        assert InRange(State(), ioq[i].pds) by { assert InRange(old(State()), ioq[i].pds); }
        var q, notify := ReportTo(ioq[i]);
        if notify {
          woken := woken + [q];
          PollsetDel(q.pds);
        } else {
          kept := kept + [q];
        }
      }
      assert ioq[..|ioq|] == ioq;
    }

    method FinishFired(fired: seq<Fired>)
      requires forall i :: 0 <= i < |fired| ==> 0 <= fired[i].fd < |fdData|
      modifies this
      ensures State() == Finish(old(State()), fired)
    {
      for i := 0 to |fired|
        invariant |fdData| == |old(fdData)|
        invariant State() == Finish(old(State()), fired[..i])
      {
        assert fired[..i + 1][..i] == fired[..i];
        fdData := fdData[fired[i].fd := fdData[fired[i].fd].Report({})];
        Update(fired[i].fd);
      }
      assert fired[..|fired|] == fired;
    }

    /** Reports what has fired to the requests waiting for it: those are taken
        off the io queue together with their poll sets. */
    method Dispatch(ioq: seq<Request>, fired: seq<Fired>) returns (kept: seq<Request>, woken: seq<Request>)
      requires AllInRange(State(), ioq)
      requires forall i :: 0 <= i < |fired| ==> 0 <= fired[i].fd < |fdData|
      modifies this
      ensures Scanned(State(), kept, woken) == Epoll.Dispatch(old(State()), ioq, fired)
    {
      kept, woken := ioq, [];
      if |fired| > 0 {
        MarkFired(fired);
        forall i | 0 <= i < |ioq| ensures InRange(State(), ioq[i].pds) { assert InRange(old(State()), ioq[i].pds); }
        kept, woken := ScanQueue(ioq);
        FinishFired(fired);
      }
    }
  }

  /** A failed check is final. */
  lemma {:induction false} ValidateStops(s: Ep, pds: seq<Pollfd>, grow: bool, n: nat)
    requires |s.fds| > 0 && n <= |pds| && !Validate(s, pds[..n], grow).1
    ensures Validate(s, pds, grow) == Validate(s, pds[..n], grow)
    decreases |pds|
  {
    if n == |pds| {
      assert pds[..n] == pds;
    } else {
      assert pds[..|pds| - 1][..n] == pds[..n];
      ValidateStops(s, pds[..|pds| - 1], grow, n);
    }
  }

  /** One more entry. */
  lemma {:induction false} NextAdded(s: Ep, pds: seq<Pollfd>, i: nat, refuse: set<nat>)
    requires InRange(s, pds) && i < |pds| && AddAll(s, pds[..i], refuse).ok
    ensures var r := AddAll(s, pds[..i], refuse); var (t, ok) := AddOne(r.s, pds[i], i in refuse);
            AddAll(s, pds[..i + 1], refuse) == Added(t, i + 1, ok)
  {
    assert pds[..i + 1][..i] == pds[..i];
  }

  /** So is a refusal. */
  lemma {:induction false} AddAllStops(s: Ep, pds: seq<Pollfd>, refuse: set<nat>, n: nat)
    requires InRange(s, pds) && n <= |pds| && !AddAll(s, pds[..n], refuse).ok
    ensures AddAll(s, pds, refuse) == AddAll(s, pds[..n], refuse)
    decreases |pds|
  {
    if n == |pds| {
      assert pds[..n] == pds;
    } else {
      assert pds[..|pds| - 1][..n] == pds[..n];
      AddAllStops(s, pds[..|pds| - 1], refuse, n);
    }
  }
}
