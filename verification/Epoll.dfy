/** The epoll event system of event.c over an idealised kernel: the steps of its
    loops, and what whole calls leave behind. */
module Epoll {

  /** The event bits; poll and epoll use the same ones. `Other` is any further bit. */
  datatype Ev = In | Out | Pri | Err | Hup | Other

  type Events = set<Ev>

  const IO: Events := {In, Out, Pri}

  datatype Pollfd = Pollfd(fd: int, events: Events, revents: Events)

  /** A poll request on the io queue. */
  datatype Request = Request(thread: nat, pds: seq<Pollfd>)

  /** What `epoll_wait` reports for one descriptor. */
  datatype Fired = Fired(fd: int, events: Events)

  /** The reference counts of one descriptor, and its events while dispatching. */
  datatype FdData = FdData(rd: int, wr: int, ex: int, revents: Events) {
    /** The interest mask: the events with a nonzero count. */
    function Mask(): Events {
      (if rd != 0 then {In} else {}) + (if wr != 0 then {Out} else {}) + (if ex != 0 then {Pri} else {})
    }

    function Count(e: Ev): int {
      match e case In => rd case Out => wr case Pri => ex case _ => 0
    }

    function Report(events: Events): FdData { FdData(rd, wr, ex, events) }

    /** Every event of `events` counted `n` more. */
    function Add(events: Events, n: int): FdData {
      FdData(if In in events then rd + n else rd, if Out in events then wr + n else wr,
             if Pri in events then ex + n else ex, revents)
    }
  }

  const NO_DATA := FdData(0, 0, 0, {})

  /** The event system together with the kernel's interest list. */
  datatype Ep = Ep(fds: seq<FdData>, kernel: map<int, Events>, listed: int)

  // ---------- The kernel ----------

  datatype CtlOp = CtlAdd | CtlMod | CtlDel

  /** `epoll_ctl`: modifying and deleting work exactly on registered
      descriptors, adding on unregistered ones the kernel does not refuse. */
  predicate CtlWorks(kernel: map<int, Events>, op: CtlOp, fd: int, refused: bool) {
    match op
    case CtlAdd => fd !in kernel && !refused
    case _ => fd in kernel
  }

  function Ctl(kernel: map<int, Events>, op: CtlOp, fd: int, events: Events): map<int, Events> {
    if op.CtlDel? then kernel - {fd} else kernel[fd := events]
  }

  // ---------- The steps of the loops ----------

  predicate InRange(s: Ep, pds: seq<Pollfd>) {
    forall i :: 0 <= i < |pds| ==> 0 <= pds[i].fd < |s.fds|
  }

  /** Tells the kernel the counts of a descriptor it should already know. */
  function SetInterest(s: Ep, fd: int): Ep
    requires 0 <= fd < |s.fds|
  {
    var events := s.fds[fd].Mask();
    var op := if events != {} then CtlMod else CtlDel;
    if !CtlWorks(s.kernel, op, fd, false) then s
    else s.(kernel := Ctl(s.kernel, op, fd, events), listed := if op.CtlDel? then s.listed - 1 else s.listed)
  }

  function DelOne(s: Ep, p: Pollfd): Ep
    requires 0 <= p.fd < |s.fds|
  {
    var d := s.fds[p.fd].Add(p.events, -1);
    var t := s.(fds := s.fds[p.fd := d]);
    if d.Mask() != s.fds[p.fd].Mask() && d.revents == {} then SetInterest(t, p.fd) else t
  }

  function DelAll(s: Ep, pds: seq<Pollfd>): (t: Ep)
    requires InRange(s, pds)
    ensures |t.fds| == |s.fds|
  {
    if pds == [] then s else DelOne(DelAll(s, pds[..|pds| - 1]), pds[|pds| - 1])
  }

  /** The state after trying to add one entry, and whether the kernel took it. */
  function AddOne(s: Ep, p: Pollfd, refused: bool): (Ep, bool)
    requires 0 <= p.fd < |s.fds|
  {
    var was, d := s.fds[p.fd].Mask(), s.fds[p.fd].Add(p.events, 1);
    var t := s.(fds := s.fds[p.fd := d]);
    if d.Mask() == was then (t, true) else
      var op := if was != {} then CtlMod else CtlAdd;
      var works := CtlWorks(s.kernel, op, p.fd, refused);
      var present := op.CtlAdd? && p.fd in s.kernel;
      if !works && !present then (t, false)
      else (t.(kernel := if works then Ctl(t.kernel, op, p.fd, d.Mask()) else t.kernel,
               listed := if op.CtlAdd? then t.listed + 1 else t.listed), true)
  }

  datatype Added = Added(s: Ep, tried: nat, ok: bool)

  /** Adds entries until one fails; `refuse` holds the indices the kernel refuses. */
  function AddAll(s: Ep, pds: seq<Pollfd>, refuse: set<nat>): (r: Added)
    requires InRange(s, pds)
    ensures |r.s.fds| == |s.fds| && r.tried <= |pds| && (r.ok ==> r.tried == |pds|) && (!r.ok ==> 0 < r.tried)
  {
    if pds == [] then Added(s, 0, true) else
      var n := |pds| - 1;
      var r := AddAll(s, pds[..n], refuse);
      if !r.ok then r else
        var (t, ok) := AddOne(r.s, pds[n], n in refuse);
        Added(t, n + 1, ok)
  }

  /** The size doubled until `fd` fits. */
  function Doubled(n: nat, fd: nat): (m: nat)
    requires n > 0
    ensures m > fd && m >= n
    decreases if n > fd then 0 else fd + 1 - n
  {
    if fd < n then n else Doubled(2 * n, fd)
  }

  function Expand(s: Ep, fd: nat): (t: Ep)
    requires |s.fds| > 0
    ensures fd < |t.fds| && |s.fds| <= |t.fds|
  {
    s.(fds := s.fds + seq(Doubled(|s.fds|, fd) - |s.fds|, _ => NO_DATA))
  }

  predicate Wellformed(p: Pollfd) {
    p.fd >= 0 && p.events != {} && p.events <= IO
  }

  /** The checks made up front; `grow` says whether memory can be had. */
  function Validate(s: Ep, pds: seq<Pollfd>, grow: bool): (r: (Ep, bool))
    requires |s.fds| > 0
    ensures |s.fds| <= |r.0.fds|
    ensures r.1 ==> InRange(r.0, pds) && forall i :: 0 <= i < |pds| ==> Wellformed(pds[i])
  {
    if pds == [] then (s, true) else
      var (t, ok) := Validate(s, pds[..|pds| - 1], grow);
      var p := pds[|pds| - 1];
      assert pds == pds[..|pds| - 1] + [p];
      if !ok || !Wellformed(p) then (t, false)
      else if p.fd < |t.fds| then (t, true)
      else if grow then (Expand(t, p.fd), true)
      else (t, false)
  }

  function PollsetAdd(s: Ep, pds: seq<Pollfd>, grow: bool, refuse: set<nat>): (Ep, bool)
    requires |s.fds| > 0
  {
    var (t, ok) := Validate(s, pds, grow);
    if !ok then (t, false) else
      var r := AddAll(t, pds, refuse);
      if r.ok then (r.s, true) else (DelAll(r.s, pds[..r.tried]), false)
  }

  // ---------- Dispatch ----------

  function Mark(s: Ep, fired: seq<Fired>): (r: Ep)
    requires forall i :: 0 <= i < |fired| ==> 0 <= fired[i].fd < |s.fds|
    ensures |r.fds| == |s.fds| && r.kernel == s.kernel && r.listed == s.listed
  {
    if fired == [] then s else
      var t := Mark(s, fired[..|fired| - 1]);
      var f := fired[|fired| - 1];
      var more := if f.events * {Err, Hup} != {} then t.fds[f.fd].Mask() else {};
      t.(fds := t.fds[f.fd := t.fds[f.fd].Report(f.events + more)])
  }

  /** The events an entry is told about. */
  function Ready(s: Ep, p: Pollfd): Events
    requires 0 <= p.fd < |s.fds|
  {
    var r := s.fds[p.fd].revents;
    if r == {} then {} else p.events * r * IO + r * {Err, Hup}
  }

  function Report(s: Ep, q: Request): (r: Request)
    requires InRange(s, q.pds)
    ensures |r.pds| == |q.pds| && r.thread == q.thread
  {
    Request(q.thread, seq(|q.pds|, i requires 0 <= i < |q.pds| => q.pds[i].(revents := Ready(s, q.pds[i]))))
  }

  predicate Notify(s: Ep, q: Request)
    requires InRange(s, q.pds)
  {
    exists i :: 0 <= i < |q.pds| && Ready(s, q.pds[i]) != {}
  }

  datatype Scanned = Scanned(s: Ep, kept: seq<Request>, woken: seq<Request>)

  predicate AllInRange(s: Ep, ioq: seq<Request>) {
    forall i :: 0 <= i < |ioq| ==> InRange(s, ioq[i].pds)
  }

  /** One pass over the io queue. */
  function Scan(s: Ep, ioq: seq<Request>): (r: Scanned)
    requires AllInRange(s, ioq)
    ensures |r.s.fds| == |s.fds|
  {
    if ioq == [] then Scanned(s, [], []) else
      var n := |ioq| - 1;
      var r := Scan(s, ioq[..n]);
      assert InRange(s, ioq[n].pds);
      var q := Report(r.s, ioq[n]);
      if Notify(r.s, ioq[n]) then Scanned(DelAll(r.s, q.pds), r.kept, r.woken + [q])
      else Scanned(r.s, r.kept + [q], r.woken)
  }

  /** Brings the kernel up to date for the descriptors that fired. */
  function Finish(s: Ep, fired: seq<Fired>): (r: Ep)
    requires forall i :: 0 <= i < |fired| ==> 0 <= fired[i].fd < |s.fds|
    ensures |r.fds| == |s.fds|
  {
    if fired == [] then s else
      var t := Finish(s, fired[..|fired| - 1]);
      var fd := fired[|fired| - 1].fd;
      SetInterest(t.(fds := t.fds[fd := t.fds[fd].Report({})]), fd)
  }

  function Dispatch(s: Ep, ioq: seq<Request>, fired: seq<Fired>): Scanned
    requires AllInRange(s, ioq)
    requires forall i :: 0 <= i < |fired| ==> 0 <= fired[i].fd < |s.fds|
  {
    if fired == [] then Scanned(s, ioq, []) else
      var r := Scan(Mark(s, fired), ioq);
      r.(s := Finish(r.s, fired))
  }

  // ---------- What the counts and the kernel agree on ----------

  predicate AgreeAt(s: Ep, fd: int)
    requires 0 <= fd < |s.fds|
  {
    (fd in s.kernel <==> s.fds[fd].Mask() != {}) && (fd in s.kernel ==> s.kernel[fd] == s.fds[fd].Mask())
  }

  /** Apart from the descriptors in `bad`, the kernel's interest is the mask of
      the nonzero counts, and `listed` is the number of registered descriptors. */
  ghost predicate Agree(s: Ep, bad: set<int>) {
    && (forall fd {:trigger fd in s.kernel} :: fd in s.kernel ==> 0 <= fd < |s.fds|)
    && s.listed == |s.kernel|
    && (forall fd {:trigger AgreeAt(s, fd)} :: 0 <= fd < |s.fds| && fd !in bad ==> AgreeAt(s, fd))
  }

  /** Outside dispatch no descriptor has pending events. */
  ghost predicate Quiet(s: Ep) {
    forall fd {:trigger s.fds[fd]} :: 0 <= fd < |s.fds| ==> s.fds[fd].revents == {}
  }

  /** How many entries of a poll set ask for event `e` on `fd`. */
  function Uses(pds: seq<Pollfd>, fd: int, e: Ev): nat {
    if pds == [] then 0 else
      var p := pds[|pds| - 1];
      Uses(pds[..|pds| - 1], fd, e) + (if p.fd == fd && e in p.events then 1 else 0)
  }

  function Total(ioq: seq<Request>, fd: int, e: Ev): nat {
    if ioq == [] then 0 else Total(ioq[..|ioq| - 1], fd, e) + Uses(ioq[|ioq| - 1].pds, fd, e)
  }

  /** The reference counts are the entries of the requests on the io queue. */
  ghost predicate Conserves(s: Ep, ioq: seq<Request>) {
    && AllInRange(s, ioq)
    && forall fd, e {:trigger s.fds[fd].Count(e)} {:trigger Total(ioq, fd, e)} ::
         0 <= fd < |s.fds| && e in IO ==> s.fds[fd].Count(e) == Total(ioq, fd, e)
  }

  // ---------- Deleting ----------

  lemma {:induction false} SetInterestAgrees(s: Ep, fd: int, bad: set<int>)
    requires 0 <= fd < |s.fds| && fd !in bad && Agree(s, bad + {fd})
    requires fd in s.kernel || s.fds[fd].Mask() == {}
    ensures Agree(SetInterest(s, fd), bad)
    ensures forall k :: k != fd ==> (k in SetInterest(s, fd).kernel <==> k in s.kernel)
  {
    var t := SetInterest(s, fd);
    if fd in s.kernel && s.fds[fd].Mask() == {} {
      assert |s.kernel.Keys - {fd}| == |s.kernel| - 1 && t.kernel.Keys == s.kernel.Keys - {fd};
    } else if fd in s.kernel {
      assert t.kernel.Keys == s.kernel.Keys;
    }
    forall k | 0 <= k < |t.fds| && k !in bad ensures AgreeAt(t, k) {
      if k != fd { assert AgreeAt(s, k); }
    }
  }

  /** Every event the entry asked for is counted. */
  ghost predicate Counted(d: FdData, p: Pollfd) {
    && (In in p.events ==> d.rd > 0) && (Out in p.events ==> d.wr > 0) && (Pri in p.events ==> d.ex > 0)
    && d.rd >= 0 && d.wr >= 0 && d.ex >= 0
  }

  lemma {:induction false} MaskShrinks(d: FdData, p: Pollfd)
    requires Counted(d, p)
    ensures d.Add(p.events, -1).Mask() <= d.Mask()
  {
  }

  /** Recounting one descriptor disturbs the agreement there at most. */
  lemma {:induction false} RecountAgrees(s: Ep, fd: int, d: FdData, bad: set<int>)
    requires 0 <= fd < |s.fds| && Agree(s, bad)
    ensures Agree(s.(fds := s.fds[fd := d]), bad + {fd})
  {
    var t := s.(fds := s.fds[fd := d]);
    forall k | 0 <= k < |t.fds| && k !in bad + {fd} ensures AgreeAt(t, k) { assert AgreeAt(s, k); }
  }

  lemma {:induction false} DelOneAgrees(s: Ep, p: Pollfd, bad: set<int>)
    requires 0 <= p.fd < |s.fds| && Agree(s, bad)
    requires p.fd in bad <==> s.fds[p.fd].revents != {}
    requires Counted(s.fds[p.fd], p)
    ensures Agree(DelOne(s, p), bad)
    ensures forall k :: k in bad ==> (k in DelOne(s, p).kernel <==> k in s.kernel)
  {
    var was, d := s.fds[p.fd].Mask(), s.fds[p.fd].Add(p.events, -1);
    var now := d.Mask();
    var t := s.(fds := s.fds[p.fd := d]);
    RecountAgrees(s, p.fd, d, bad);
    MaskShrinks(s.fds[p.fd], p);
    if p.fd in bad {
      assert bad + {p.fd} == bad;
    } else {
      assert AgreeAt(s, p.fd);
      if now != was {
        assert was != {};
        SetInterestAgrees(t, p.fd, bad);
      } else {
        assert AgreeAt(t, p.fd);
      }
    }
  }

  lemma {:induction false} DelOneCounts(s: Ep, p: Pollfd)
    requires 0 <= p.fd < |s.fds|
    ensures forall fd, e :: 0 <= fd < |s.fds| && e in IO ==> DelOne(s, p).fds[fd].Count(e) == s.fds[fd].Count(e) - Uses([p], fd, e)
    ensures forall fd :: 0 <= fd < |s.fds| ==> DelOne(s, p).fds[fd].revents == s.fds[fd].revents
  {
    forall fd, e | 0 <= fd < |s.fds| && e in IO
        ensures DelOne(s, p).fds[fd].Count(e) == s.fds[fd].Count(e) - Uses([p], fd, e) {
      UsesOne(p, fd, e);
    }
  }

  lemma {:induction false} UsesOne(p: Pollfd, fd: int, e: Ev)
    ensures Uses([p], fd, e) == if p.fd == fd && e in p.events then 1 else 0
  {
    assert [p][..0] == [];
  }

  /** Deleting a poll set takes exactly its entries off the counts. */
  lemma {:induction false} DelAllCounts(s: Ep, pds: seq<Pollfd>)
    requires InRange(s, pds)
    ensures forall fd, e :: 0 <= fd < |s.fds| && e in IO ==> DelAll(s, pds).fds[fd].Count(e) == s.fds[fd].Count(e) - Uses(pds, fd, e)
    ensures forall fd :: 0 <= fd < |s.fds| ==> DelAll(s, pds).fds[fd].revents == s.fds[fd].revents
  {
    if pds != [] {
      var n := |pds| - 1;
      DelAllCounts(s, pds[..n]);
      DelOneCounts(DelAll(s, pds[..n]), pds[n]);
      forall fd, e { UsesOne(pds[n], fd, e); }
    }
  }

  /** The counts cover the entries of a poll set. */
  ghost predicate Covers(s: Ep, pds: seq<Pollfd>) {
    forall fd, e {:trigger s.fds[fd].Count(e)} {:trigger Uses(pds, fd, e)} :: 0 <= fd < |s.fds| && e in IO ==> s.fds[fd].Count(e) >= Uses(pds, fd, e)
  }

  lemma {:induction false} CoversLast(s: Ep, pds: seq<Pollfd>)
    requires pds != [] && InRange(s, pds) && Covers(s, pds)
    ensures Covers(s, pds[..|pds| - 1])
    ensures Counted(DelAll(s, pds[..|pds| - 1]).fds[pds[|pds| - 1].fd], pds[|pds| - 1])
  {
    var n := |pds| - 1;
    var p := pds[n];
    var t := DelAll(s, pds[..n]);
    DelAllCounts(s, pds[..n]);
    forall e | e in IO ensures t.fds[p.fd].Count(e) >= if e in p.events then 1 else 0 {
      assert s.fds[p.fd].Count(e) >= Uses(pds, p.fd, e);
    }
    assert t.fds[p.fd].Count(In) == t.fds[p.fd].rd && t.fds[p.fd].Count(Out) == t.fds[p.fd].wr
        && t.fds[p.fd].Count(Pri) == t.fds[p.fd].ex;
    forall fd, e | 0 <= fd < |s.fds| && e in IO ensures s.fds[fd].Count(e) >= Uses(pds[..n], fd, e) {
      assert s.fds[fd].Count(e) >= Uses(pds, fd, e);
    }
  }

  /** ... and leaves the kernel agreeing with them, except for descriptors that
      have fired, whose registration it does not touch. */
  lemma {:induction false} DelAllAgrees(s: Ep, pds: seq<Pollfd>, bad: set<int>)
    requires InRange(s, pds) && Covers(s, pds) && Agree(s, bad)
    requires forall i :: 0 <= i < |pds| ==> (pds[i].fd in bad <==> s.fds[pds[i].fd].revents != {})
    ensures Agree(DelAll(s, pds), bad)
    ensures forall k :: k in bad ==> (k in DelAll(s, pds).kernel <==> k in s.kernel)
  {
    if pds != [] {
      var n := |pds| - 1;
      CoversLast(s, pds);
      DelAllAgrees(s, pds[..n], bad);
      DelAllCounts(s, pds[..n]);
      DelOneAgrees(DelAll(s, pds[..n]), pds[n], bad);
    }
  }

  // ---------- Adding ----------

  ghost predicate NonNegative(s: Ep) {
    forall fd {:trigger s.fds[fd]} :: 0 <= fd < |s.fds| ==> s.fds[fd].rd >= 0 && s.fds[fd].wr >= 0 && s.fds[fd].ex >= 0
  }

  lemma {:induction false} MaskGrows(d: FdData, p: Pollfd)
    requires d.rd >= 0 && d.wr >= 0 && d.ex >= 0 && Wellformed(p)
    ensures d.Add(p.events, 1).Mask() == d.Mask() + p.events
  {
    assert In in p.events || Out in p.events || Pri in p.events || p.events == {};
    var m := d.Add(p.events, 1).Mask();
    forall e | e in d.Mask() + p.events ensures e in m { assert e in IO; }
  }

  /** Registering or updating a descriptor with its mask restores the agreement. */
  lemma {:induction false} CtlAgrees(s: Ep, fd: int)
    requires 0 <= fd < |s.fds| && Agree(s, {fd}) && s.fds[fd].Mask() != {}
    ensures Agree(s.(kernel := s.kernel[fd := s.fds[fd].Mask()], listed := if fd in s.kernel then s.listed
            else s.listed + 1), {})
  {
    var u := s.(kernel := s.kernel[fd := s.fds[fd].Mask()], listed := if fd in s.kernel then s.listed
        else s.listed + 1);
    assert u.kernel.Keys == s.kernel.Keys + {fd};
    forall k | 0 <= k < |u.fds| ensures AgreeAt(u, k) { if k != fd { assert AgreeAt(s, k); } }
  }

  lemma {:induction false} AddOneAgrees(s: Ep, p: Pollfd, refused: bool)
    requires 0 <= p.fd < |s.fds| && Agree(s, {}) && NonNegative(s) && Wellformed(p)
    ensures AddOne(s, p, refused).1 ==> Agree(AddOne(s, p, refused).0, {})
    ensures !AddOne(s, p, refused).1 ==>
              && AddOne(s, p, refused).0.kernel == s.kernel && p.fd !in s.kernel
              && s.fds[p.fd].Mask() == {} && Agree(AddOne(s, p, refused).0, {p.fd})
  {
    var was, d := s.fds[p.fd].Mask(), s.fds[p.fd].Add(p.events, 1);
    var t := s.(fds := s.fds[p.fd := d]);
    assert Agree(t, {} + {p.fd}) by { RecountAgrees(s, p.fd, d, {}); }
    assert {} + {p.fd} == {p.fd};
    assert d.Mask() == was + p.events by { MaskGrows(s.fds[p.fd], p); }
    assert AgreeAt(s, p.fd);
    if d.Mask() == was {
      assert AgreeAt(t, p.fd);
    } else {
      hide NonNegative, Wellformed;
      CtlAgrees(t, p.fd);
    }
  }

  lemma {:induction false} AddOneNonNegative(s: Ep, p: Pollfd, refused: bool)
    requires 0 <= p.fd < |s.fds| && NonNegative(s)
    ensures NonNegative(AddOne(s, p, refused).0)
  {
  }

  lemma {:induction false} AddOneCounts(s: Ep, p: Pollfd, refused: bool)
    requires 0 <= p.fd < |s.fds|
    ensures forall fd, e :: 0 <= fd < |s.fds| && e in IO ==>
              AddOne(s, p, refused).0.fds[fd].Count(e) == s.fds[fd].Count(e) + Uses([p], fd, e)
    ensures forall fd :: 0 <= fd < |s.fds| ==> AddOne(s, p, refused).0.fds[fd].revents == s.fds[fd].revents
  {
    forall fd, e { UsesOne(p, fd, e); }
  }

  /** Every entry tried is counted, taken or not. */
  lemma {:induction false} AddAllCounts(s: Ep, pds: seq<Pollfd>, refuse: set<nat>)
    requires InRange(s, pds)
    ensures var r := AddAll(s, pds, refuse);
            && (forall fd, e :: 0 <= fd < |s.fds| && e in IO ==> r.s.fds[fd].Count(e) == s.fds[fd].Count(e) + Uses(pds[..r.tried], fd, e))
            && (forall fd :: 0 <= fd < |s.fds| ==> r.s.fds[fd].revents == s.fds[fd].revents)
  {
    if pds != [] {
      var n := |pds| - 1;
      AddAllCounts(s, pds[..n], refuse);
      var r := AddAll(s, pds[..n], refuse);
      if r.ok {
        AddOneCounts(r.s, pds[n], n in refuse);
        assert pds[..n][..r.tried] == pds[..n] && pds[..n + 1] == pds;
        forall fd, e { UsesOne(pds[n], fd, e); }
      } else {
        assert pds[..n][..r.tried] == pds[..r.tried];
      }
    }
  }

  lemma {:induction false} AddAllNonNegative(s: Ep, pds: seq<Pollfd>, refuse: set<nat>)
    requires InRange(s, pds) && NonNegative(s)
    ensures NonNegative(AddAll(s, pds, refuse).s)
  {
    if pds != [] {
      var n := |pds| - 1;
      AddAllNonNegative(s, pds[..n], refuse);
      var r := AddAll(s, pds[..n], refuse);
      if r.ok { AddOneNonNegative(r.s, pds[n], n in refuse); }
    }
  }

  /** Without a refusal the kernel agrees with the new counts; with one, it does
      except for the refused descriptor, which is not registered and was not
      asked for before. */
  lemma {:induction false} AddAllAgrees(s: Ep, pds: seq<Pollfd>, refuse: set<nat>)
    requires InRange(s, pds) && Agree(s, {}) && NonNegative(s)
    requires forall i :: 0 <= i < |pds| ==> Wellformed(pds[i])
    ensures var r := AddAll(s, pds, refuse);
            if r.ok then Agree(r.s, {}) else RefusedLast(s, r, pds)
  {
    if pds != [] {
      var n := |pds| - 1;
      AddAllAgrees(s, pds[..n], refuse);
      var r := AddAll(s, pds[..n], refuse);
      if r.ok {
        AddAllNonNegative(s, pds[..n], refuse);
        AddOneAgrees(r.s, pds[n], n in refuse);
        if !AddOne(r.s, pds[n], n in refuse).1 {
          NotAskedBefore(s, pds[..n], refuse, pds[n].fd);
        }
      } else {
        assert pds[..n][..r.tried - 1] == pds[..r.tried - 1];
      }
    }
  }

  ghost predicate RefusedLast(s: Ep, r: Added, pds: seq<Pollfd>)
    requires 0 < r.tried <= |pds| && InRange(s, pds)
  {
    var fd := pds[r.tried - 1].fd;
    && Agree(r.s, {fd}) && fd !in r.s.kernel
    && forall e :: e in IO ==> s.fds[fd].Count(e) == 0 && Uses(pds[..r.tried - 1], fd, e) == 0
  }

  /** A descriptor without interest after some additions was in none of them. */
  lemma {:induction false} NotAskedBefore(s: Ep, pds: seq<Pollfd>, refuse: set<nat>, fd: int)
    requires InRange(s, pds) && NonNegative(s) && 0 <= fd < |s.fds|
    requires AddAll(s, pds, refuse).ok && AddAll(s, pds, refuse).s.fds[fd].Mask() == {}
    ensures forall e :: e in IO ==> s.fds[fd].Count(e) == 0 && Uses(pds, fd, e) == 0
  {
    var r := AddAll(s, pds, refuse);
    AddAllCounts(s, pds, refuse);
    assert pds[..r.tried] == pds;
    ZeroMask(r.s.fds[fd]);
    assert s.fds[fd].rd >= 0 && s.fds[fd].wr >= 0 && s.fds[fd].ex >= 0;
    forall e | e in IO ensures s.fds[fd].Count(e) == 0 && Uses(pds, fd, e) == 0 {
      assert r.s.fds[fd].Count(e) == s.fds[fd].Count(e) + Uses(pds, fd, e);
    }
  }

  lemma {:induction false} ZeroMask(d: FdData)
    requires d.Mask() == {}
    ensures forall e :: e in IO ==> d.Count(e) == 0
  {
    assert In !in d.Mask() && Out !in d.Mask() && Pri !in d.Mask();
  }

  lemma {:induction false} UsesAtLeast(pds: seq<Pollfd>, i: nat, e: Ev)
    requires i < |pds| && e in pds[i].events
    ensures Uses(pds, pds[i].fd, e) > 0
  {
    if i < |pds| - 1 { UsesAtLeast(pds[..|pds| - 1], i, e); }
  }

  /** The counts and the agreed kernel together determine the state. */
  lemma {:induction false} SameCountsSameState(s: Ep, t: Ep)
    requires |s.fds| == |t.fds| && Agree(s, {}) && Agree(t, {})
    requires forall fd, e :: 0 <= fd < |s.fds| && e in IO ==> s.fds[fd].Count(e) == t.fds[fd].Count(e)
    requires forall fd :: 0 <= fd < |s.fds| ==> s.fds[fd].revents == t.fds[fd].revents
    ensures s == t
  {
    forall fd | 0 <= fd < |s.fds| ensures s.fds[fd] == t.fds[fd] {
      assert s.fds[fd].Count(In) == t.fds[fd].Count(In) && s.fds[fd].Count(Out) == t.fds[fd].Count(Out)
          && s.fds[fd].Count(Pri) == t.fds[fd].Count(Pri);
    }
    assert s.fds == t.fds;
    forall fd ensures fd in s.kernel <==> fd in t.kernel
              ensures fd in s.kernel ==> s.kernel[fd] == t.kernel[fd] {
      if 0 <= fd < |s.fds| { assert AgreeAt(s, fd) && AgreeAt(t, fd); }
    }
    assert s.kernel == t.kernel;
  }

  /** Deleting the one entry of an unregistered descriptor leaves the kernel alone and agreeing. */
  lemma {:induction false} UnrollFrees(s: Ep, pds: seq<Pollfd>, p: Pollfd)
    requires InRange(s, pds) && 0 <= p.fd < |s.fds| && Covers(s, pds) && Agree(s, {p.fd}) && p.fd !in s.kernel
    requires forall i :: 0 <= i < |pds| ==> pds[i].fd != p.fd && s.fds[pds[i].fd].revents == {}
    requires forall e :: e in IO ==> DelAll(s, pds).fds[p.fd].Count(e) == if e in p.events then 1 else 0
    ensures Agree(DelOne(DelAll(s, pds), p), {})
  {
    var t := DelAll(s, pds);
    DelAllAgrees(s, pds, {p.fd});
    var d := t.fds[p.fd].Add(p.events, -1);
    assert t.fds[p.fd].Count(In) == t.fds[p.fd].rd && t.fds[p.fd].Count(Out) == t.fds[p.fd].wr
        && t.fds[p.fd].Count(Pri) == t.fds[p.fd].ex;
    assert d.Mask() == {};
    RecountAgrees(t, p.fd, d, {p.fd});
    assert {p.fd} + {p.fd} == {p.fd};
    var u := DelOne(t, p);
    assert u == t.(fds := t.fds[p.fd := d]);
    forall k | 0 <= k < |u.fds| ensures AgreeAt(u, k) { }
  }

  lemma {:induction false} NoUseNoEntry(pds: seq<Pollfd>, fd: int)
    requires forall i :: 0 <= i < |pds| ==> Wellformed(pds[i])
    requires forall e :: e in IO ==> Uses(pds, fd, e) == 0
    ensures forall i :: 0 <= i < |pds| ==> pds[i].fd != fd
  {
    forall i | 0 <= i < |pds| ensures pds[i].fd != fd {
      assert Wellformed(pds[i]);
      var e :| e in pds[i].events;
      if pds[i].fd == fd { UsesAtLeast(pds, i, e); }
    }
  }

  /** Taking off again what was added restores the counts. */
  lemma {:induction false} CountsRestored(s: Ep, t: Ep, tried: seq<Pollfd>)
    requires |s.fds| == |t.fds| && InRange(t, tried)
    requires forall fd, e :: 0 <= fd < |s.fds| && e in IO ==> t.fds[fd].Count(e) == s.fds[fd].Count(e) + Uses(tried, fd, e)
    requires forall fd :: 0 <= fd < |s.fds| ==> t.fds[fd].revents == s.fds[fd].revents
    ensures forall fd, e :: 0 <= fd < |s.fds| && e in IO ==> DelAll(t, tried).fds[fd].Count(e) == s.fds[fd].Count(e)
    ensures forall fd :: 0 <= fd < |s.fds| ==> DelAll(t, tried).fds[fd].revents == s.fds[fd].revents
  {
    DelAllCounts(t, tried);
  }

  /** A refused addition is unrolled completely, even with repeated descriptors. */
  lemma {:induction false} UnrollRestores(s: Ep, pds: seq<Pollfd>, refuse: set<nat>)
    requires InRange(s, pds) && Agree(s, {}) && NonNegative(s) && Quiet(s)
    requires forall i :: 0 <= i < |pds| ==> Wellformed(pds[i])
    requires !AddAll(s, pds, refuse).ok
    ensures DelAll(AddAll(s, pds, refuse).s, pds[..AddAll(s, pds, refuse).tried]) == s
  {
    hide DelAll, AddAll;
    var r := AddAll(s, pds, refuse);
    AddAllAgrees(s, pds, refuse);
    AddAllCounts(s, pds, refuse);
    LastRefused(s, r, pds);
    hide *;
    Unrolled(s, r.s, pds[..r.tried]);
  }

  lemma {:induction false} LastRefused(s: Ep, r: Added, pds: seq<Pollfd>)
    requires 0 < r.tried <= |pds| && |r.s.fds| == |s.fds| && InRange(s, pds) && RefusedLast(s, r, pds)
    requires forall i :: 0 <= i < |pds| ==> Wellformed(pds[i])
    ensures InRange(r.s, pds[..r.tried]) && AloneLast(s, r.s, pds[..r.tried])
    ensures forall i :: 0 <= i < r.tried ==> Wellformed(pds[..r.tried][i])
  {
    assert pds[..r.tried][..r.tried - 1] == pds[..r.tried - 1];
  }

  /** The last entry is for a descriptor without interest that no other entry names. */
  ghost predicate AloneLast(s: Ep, t: Ep, tried: seq<Pollfd>)
    requires tried != [] && InRange(s, tried)
  {
    var fd := tried[|tried| - 1].fd;
    && Agree(t, {fd}) && fd !in t.kernel
    && forall e :: e in IO ==> s.fds[fd].Count(e) == 0 && Uses(tried[..|tried| - 1], fd, e) == 0
  }

  /** Taking off the entries of a refused addition, the last of which is for a
      descriptor that no other entry names, leads back to the state before. */
  lemma {:induction false} Unrolled(s: Ep, t: Ep, tried: seq<Pollfd>)
    requires |s.fds| == |t.fds| && InRange(s, tried) && InRange(t, tried) && Agree(s, {}) && NonNegative(s)
             && Quiet(s) && tried != []
    requires forall i :: 0 <= i < |tried| ==> Wellformed(tried[i])
    requires AloneLast(s, t, tried)
    requires forall fd, e :: 0 <= fd < |s.fds| && e in IO ==> t.fds[fd].Count(e) == s.fds[fd].Count(e) + Uses(tried, fd, e)
    requires forall fd :: 0 <= fd < |s.fds| ==> t.fds[fd].revents == s.fds[fd].revents
    ensures DelAll(t, tried) == s
  {
    var n := |tried| - 1;
    var before, p := tried[..n], tried[n];
    NoUseNoEntry(before, p.fd);
    TriedCovers(s, t, tried);
    CoversLast(t, tried);
    CountsRestored(s, t, tried);
    LastCounts(s, t, tried);
    hide DelAll, Agree, Covers, NonNegative, Uses, Wellformed;
    UnrollFrees(t, before, p);
    LastGone(t, tried);
    SameCountsSameState(DelAll(t, tried), s);
  }

  lemma {:induction false} LastGone(t: Ep, tried: seq<Pollfd>)
    requires InRange(t, tried) && tried != []
    ensures DelAll(t, tried) == DelOne(DelAll(t, tried[..|tried| - 1]), tried[|tried| - 1])
  {
    hide DelOne;
  }

  lemma {:induction false} LastCounts(s: Ep, t: Ep, tried: seq<Pollfd>)
    requires |s.fds| == |t.fds| && InRange(s, tried) && InRange(t, tried) && tried != [] && AloneLast(s, t, tried)
    requires forall fd, e :: 0 <= fd < |s.fds| && e in IO ==> t.fds[fd].Count(e) == s.fds[fd].Count(e) + Uses(tried, fd, e)
    ensures var p := tried[|tried| - 1];
            forall e :: e in IO ==> DelAll(t, tried[..|tried| - 1]).fds[p.fd].Count(e) == if e in p.events then 1 else 0
  {
    var n := |tried| - 1;
    var before, p := tried[..n], tried[n];
    DelAllCounts(t, before);
    hide DelAll, Agree, InRange;
    forall e | e in IO ensures DelAll(t, before).fds[p.fd].Count(e) == if e in p.events then 1 else 0 {
      assert t.fds[p.fd].Count(e) == s.fds[p.fd].Count(e) + Uses(tried, p.fd, e);
      UsesLast(tried, p.fd, e);
    }
  }

  lemma {:induction false} UsesLast(pds: seq<Pollfd>, fd: int, e: Ev)
    requires pds != []
    ensures Uses(pds, fd, e) == Uses(pds[..|pds| - 1], fd, e) + if pds[|pds| - 1].fd == fd
            && e in pds[|pds| - 1].events then 1 else 0
  {
  }

  lemma {:induction false} TriedCovers(s: Ep, t: Ep, tried: seq<Pollfd>)
    requires |s.fds| == |t.fds| && NonNegative(s)
    requires forall fd, e :: 0 <= fd < |s.fds| && e in IO ==> t.fds[fd].Count(e) == s.fds[fd].Count(e) + Uses(tried, fd, e)
    ensures Covers(t, tried)
  {
    forall fd, e | 0 <= fd < |s.fds| && e in IO ensures t.fds[fd].Count(e) >= Uses(tried, fd, e) {
      assert s.fds[fd].rd >= 0 && s.fds[fd].wr >= 0 && s.fds[fd].ex >= 0;
    }
  }

  // ---------- Whole calls ----------

  /** What holds outside dispatch, given the requests on the io queue. */
  ghost predicate EpInv(s: Ep, ioq: seq<Request>) {
    |s.fds| > 0 && Agree(s, {}) && Quiet(s) && Conserves(s, ioq) && Proper(ioq)
  }

  ghost predicate Proper(ioq: seq<Request>) {
    forall i, j {:trigger ioq[i].pds[j]} :: 0 <= i < |ioq| && 0 <= j < |ioq[i].pds| ==> Wellformed(ioq[i].pds[j])
  }

  lemma {:induction false} ConservedNonNegative(s: Ep, ioq: seq<Request>)
    requires Conserves(s, ioq)
    ensures NonNegative(s)
  {
    forall fd | 0 <= fd < |s.fds| ensures s.fds[fd].rd >= 0 && s.fds[fd].wr >= 0 && s.fds[fd].ex >= 0 {
      assert s.fds[fd].Count(In) == s.fds[fd].rd && s.fds[fd].Count(Out) == s.fds[fd].wr
          && s.fds[fd].Count(Pri) == s.fds[fd].ex;
    }
  }

  /** The same state with room for more descriptors. */
  ghost predicate Grown(s: Ep, t: Ep) {
    && |s.fds| <= |t.fds| && t.fds[..|s.fds|] == s.fds && t.kernel == s.kernel && t.listed == s.listed
    && forall fd {:trigger t.fds[fd]} :: |s.fds| <= fd < |t.fds| ==> t.fds[fd] == NO_DATA
  }

  lemma {:induction false} ValidateGrows(s: Ep, pds: seq<Pollfd>, grow: bool)
    requires |s.fds| > 0
    ensures Grown(s, Validate(s, pds, grow).0)
  {
    if pds != [] {
      ValidateGrows(s, pds[..|pds| - 1], grow);
      var t, p := Validate(s, pds[..|pds| - 1], grow).0, pds[|pds| - 1];
      if p.fd >= |t.fds| {
        var u := Expand(t, p.fd);
        assert u.fds[..|s.fds|] == t.fds[..|s.fds|];
      }
    }
  }

  lemma {:induction false} UsesOutOfRange(pds: seq<Pollfd>, fd: int, e: Ev)
    requires forall i :: 0 <= i < |pds| ==> pds[i].fd != fd
    ensures Uses(pds, fd, e) == 0
  {
    if pds != [] { UsesOutOfRange(pds[..|pds| - 1], fd, e); }
  }

  lemma {:induction false} TotalOutOfRange(s: Ep, ioq: seq<Request>, fd: int, e: Ev)
    requires AllInRange(s, ioq) && fd >= |s.fds|
    ensures Total(ioq, fd, e) == 0
  {
    if ioq != [] {
      var q := ioq[|ioq| - 1];
      assert InRange(s, q.pds);
      UsesOutOfRange(q.pds, fd, e);
      TotalOutOfRange(s, ioq[..|ioq| - 1], fd, e);
    }
  }

  lemma {:induction false} GrownKeeps(s: Ep, t: Ep, ioq: seq<Request>)
    requires EpInv(s, ioq) && Grown(s, t)
    ensures EpInv(t, ioq)
  {
    assert forall fd :: 0 <= fd < |s.fds| ==> t.fds[fd] == s.fds[fd] by {
      assert forall fd :: 0 <= fd < |s.fds| ==> t.fds[..|s.fds|][fd] == t.fds[fd];
    }
    forall fd | 0 <= fd < |t.fds| ensures AgreeAt(t, fd) {
      if fd < |s.fds| { assert AgreeAt(s, fd); }
    }
    forall i | 0 <= i < |ioq| ensures InRange(t, ioq[i].pds) { assert InRange(s, ioq[i].pds); }
    forall fd, e | 0 <= fd < |t.fds| && e in IO ensures t.fds[fd].Count(e) == Total(ioq, fd, e) {
      if fd < |s.fds| { assert s.fds[fd].Count(e) == Total(ioq, fd, e); } else { TotalOutOfRange(s, ioq, fd, e); }
    }
  }

  /** Adding a poll set either counts it in full, or changes nothing but the
      room for descriptors: counts, kernel and length are as before. */
  lemma {:induction false} PollsetAddKeeps(s: Ep, ioq: seq<Request>, me: nat, pds: seq<Pollfd>, grow: bool,
      refuse: set<nat>)
    requires EpInv(s, ioq)
    ensures var (t, ok) := PollsetAdd(s, pds, grow, refuse);
            && (ok ==> EpInv(t, ioq + [Request(me, pds)]))
            && (!ok ==> EpInv(t, ioq) && Grown(s, t))
  {
    var (t, valid) := Validate(s, pds, grow);
    ValidateGrows(s, pds, grow);
    GrownKeeps(s, t, ioq);
    if valid {
      ConservedNonNegative(t, ioq);
      var r := AddAll(t, pds, refuse);
      if r.ok {
        AddAllAgrees(t, pds, refuse);
        AddAllCounts(t, pds, refuse);
        assert pds[..r.tried] == pds;
        AddConserves(t, r.s, ioq, Request(me, pds));
      } else {
        UnrollRestores(t, pds, refuse);
      }
    }
  }

  lemma {:induction false} AddConserves(s: Ep, t: Ep, ioq: seq<Request>, q: Request)
    requires Conserves(s, ioq) && |t.fds| == |s.fds| && InRange(s, q.pds)
    requires forall fd, e :: 0 <= fd < |s.fds| && e in IO ==> t.fds[fd].Count(e) == s.fds[fd].Count(e) + Uses(q.pds, fd, e)
    ensures Conserves(t, ioq + [q])
  {
    var more := ioq + [q];
    assert more[..|more| - 1] == ioq;
    forall i | 0 <= i < |more| ensures InRange(t, more[i].pds) { if i < |ioq| { assert InRange(s, ioq[i].pds); } }
    forall fd, e | 0 <= fd < |t.fds| && e in IO ensures t.fds[fd].Count(e) == Total(more, fd, e) {
      assert s.fds[fd].Count(e) == Total(ioq, fd, e);
    }
  }

  lemma {:induction false} TotalWithout(ioq: seq<Request>, i: nat, fd: int, e: Ev)
    requires i < |ioq|
    ensures Total(ioq, fd, e) == Total(ioq[..i] + ioq[i + 1..], fd, e) + Uses(ioq[i].pds, fd, e)
  {
    var n, rest := |ioq| - 1, ioq[..i] + ioq[i + 1..];
    if i == n {
      assert rest == ioq[..n];
    } else {
      TotalWithout(ioq[..n], i, fd, e);
      assert rest[|rest| - 1] == ioq[n] && rest[..|rest| - 1] == ioq[..n][..i] + ioq[..n][i + 1..];
    }
  }

  /** Taking a request off the io queue together with its poll set. */
  lemma {:induction false} PollsetDelKeeps(s: Ep, ioq: seq<Request>, i: nat)
    requires EpInv(s, ioq) && i < |ioq|
    ensures InRange(s, ioq[i].pds) && EpInv(DelAll(s, ioq[i].pds), ioq[..i] + ioq[i + 1..])
  {
    var pds, rest := ioq[i].pds, ioq[..i] + ioq[i + 1..];
    assert InRange(s, pds);
    hide Agree, DelAll;
    RequestCovered(s, ioq, i);
    DelAllAgrees(s, pds, {});
    DelAllCounts(s, pds);
    WithoutConserves(s, DelAll(s, pds), ioq, i);
    ProperWithout(ioq, i);
    assert Quiet(DelAll(s, pds));
  }

  lemma {:induction false} ProperWithout(ioq: seq<Request>, i: nat)
    requires Proper(ioq) && i < |ioq|
    ensures Proper(ioq[..i] + ioq[i + 1..])
  {
    var rest := ioq[..i] + ioq[i + 1..];
    assert forall j :: 0 <= j < |rest| ==> rest[j] == ioq[if j < i then j else j + 1];
  }

  lemma {:induction false} RequestCovered(s: Ep, ioq: seq<Request>, i: nat)
    requires Conserves(s, ioq) && i < |ioq|
    ensures Covers(s, ioq[i].pds)
  {
    var pds := ioq[i].pds;
    forall fd, e | 0 <= fd < |s.fds| && e in IO ensures s.fds[fd].Count(e) >= Uses(pds, fd, e) {
      assert s.fds[fd].Count(e) == Total(ioq, fd, e);
      TotalWithout(ioq, i, fd, e);
    }
  }

  lemma {:induction false} WithoutConserves(s: Ep, t: Ep, ioq: seq<Request>, i: nat)
    requires Conserves(s, ioq) && i < |ioq| && |t.fds| == |s.fds|
    requires forall fd, e :: 0 <= fd < |s.fds| && e in IO ==> t.fds[fd].Count(e) == s.fds[fd].Count(e) - Uses(ioq[i].pds, fd, e)
    ensures Conserves(t, ioq[..i] + ioq[i + 1..])
  {
    var rest := ioq[..i] + ioq[i + 1..];
    forall j | 0 <= j < |rest| ensures InRange(t, rest[j].pds) { assert rest[j] == ioq[if j < i then j else j + 1]; }
    hide InRange, Uses;
    forall fd, e | 0 <= fd < |t.fds| && e in IO ensures t.fds[fd].Count(e) == Total(rest, fd, e) {
      assert s.fds[fd].Count(e) == Total(ioq, fd, e);
      TotalWithout(ioq, i, fd, e);
    }
  }

  /** A descriptor can be closed exactly when no request on the io queue asks for it. */
  lemma {:induction false} FdCloseIsSafe(s: Ep, ioq: seq<Request>, fd: nat)
    requires EpInv(s, ioq) && fd < |s.fds|
    ensures FdClose(s, fd) <==> forall i, j :: 0 <= i < |ioq| && 0 <= j < |ioq[i].pds| ==> ioq[i].pds[j].fd != fd
  {
    assert s.fds[fd].Count(In) == s.fds[fd].rd && s.fds[fd].Count(Out) == s.fds[fd].wr
        && s.fds[fd].Count(Pri) == s.fds[fd].ex;
    if i, j :| 0 <= i < |ioq| && 0 <= j < |ioq[i].pds| && ioq[i].pds[j].fd == fd {
      assert Wellformed(ioq[i].pds[j]);
      var e :| e in ioq[i].pds[j].events;
      UsesAtLeast(ioq[i].pds, j, e);
      TotalWithout(ioq, i, fd, e);
      assert s.fds[fd].Count(e) == Total(ioq, fd, e);
    } else {
      forall e ensures Total(ioq, fd, e) == 0 { TotalOfStrangers(ioq, fd, e); }
    }
  }

  predicate FdClose(s: Ep, fd: nat)
    requires fd < |s.fds|
  {
    s.fds[fd].rd == 0 && s.fds[fd].wr == 0 && s.fds[fd].ex == 0
  }

  lemma {:induction false} TotalOfStrangers(ioq: seq<Request>, fd: int, e: Ev)
    requires forall i, j :: 0 <= i < |ioq| && 0 <= j < |ioq[i].pds| ==> ioq[i].pds[j].fd != fd
    ensures Total(ioq, fd, e) == 0
  {
    if ioq != [] {
      var n := |ioq| - 1;
      UsesOutOfRange(ioq[n].pds, fd, e);
      assert forall i :: 0 <= i < n ==> ioq[..n][i] == ioq[i];
      TotalOfStrangers(ioq[..n], fd, e);
    }
  }

  // ---------- Dispatch as a whole ----------

  /** `epoll_wait` reports registered descriptors, each at most once. */
  ghost predicate Reportable(s: Ep, fired: seq<Fired>) {
    && (forall i :: 0 <= i < |fired| ==> 0 <= fired[i].fd < |s.fds| && fired[i].fd in s.kernel)
    && (forall i, j :: 0 <= i < j < |fired| ==> fired[i].fd != fired[j].fd)
  }

  ghost function Pending(s: Ep): set<int> {
    set fd | 0 <= fd < |s.fds| && s.fds[fd].revents != {}
  }

  lemma {:induction false} MarkKeeps(s: Ep, fired: seq<Fired>)
    requires forall i :: 0 <= i < |fired| ==> 0 <= fired[i].fd < |s.fds|
    ensures forall fd, e :: 0 <= fd < |s.fds| ==> Mark(s, fired).fds[fd].Count(e) == s.fds[fd].Count(e)
    ensures forall fd :: 0 <= fd < |s.fds| ==> Mark(s, fired).fds[fd].Mask() == s.fds[fd].Mask()
    ensures forall fd :: 0 <= fd < |s.fds| && (forall i :: 0 <= i < |fired| ==> fired[i].fd != fd) ==> Mark(s, fired).fds[fd].revents == s.fds[fd].revents
  {
    if fired != [] { MarkKeeps(s, fired[..|fired| - 1]); }
  }

  lemma {:induction false} UsesOfReport(s: Ep, q: Request, fd: int, e: Ev, n: nat)
    requires InRange(s, q.pds) && n <= |q.pds|
    ensures Uses(Report(s, q).pds[..n], fd, e) == Uses(q.pds[..n], fd, e)
  {
    if n > 0 {
      UsesOfReport(s, q, fd, e, n - 1);
      assert q.pds[..n][..n - 1] == q.pds[..n - 1] && Report(s, q).pds[..n][..n - 1] == Report(s, q).pds[..n - 1];
    }
  }

  lemma {:induction false} ReportUses(s: Ep, q: Request)
    requires InRange(s, q.pds)
    ensures forall fd, e :: Uses(Report(s, q).pds, fd, e) == Uses(q.pds, fd, e)
  {
    assert q.pds[..|q.pds|] == q.pds && Report(s, q).pds[..|q.pds|] == Report(s, q).pds;
    forall fd, e { UsesOfReport(s, q, fd, e, |q.pds|); }
  }

  /** The pass takes the entries of the woken requests off the counts. */
  lemma {:induction false} ScanCounts(s: Ep, ioq: seq<Request>)
    requires AllInRange(s, ioq)
    ensures var r := Scan(s, ioq);
            && (forall fd, e :: 0 <= fd < |s.fds| && e in IO ==> r.s.fds[fd].Count(e) == s.fds[fd].Count(e) - Total(r.woken, fd, e))
            && (forall fd :: 0 <= fd < |s.fds| ==> r.s.fds[fd].revents == s.fds[fd].revents)
            && (forall fd, e :: Total(r.kept, fd, e) + Total(r.woken, fd, e) == Total(ioq, fd, e))
            && AllInRange(s, r.kept)
  {
    if ioq != [] {
      var n := |ioq| - 1;
      ScanCounts(s, ioq[..n]);
      var r := Scan(s, ioq[..n]);
      assert InRange(s, ioq[n].pds);
      var q := Report(r.s, ioq[n]);
      ReportUses(r.s, ioq[n]);
      if Notify(r.s, ioq[n]) {
        DelAllCounts(r.s, q.pds);
        assert (r.woken + [q])[..|r.woken|] == r.woken;
      } else {
        assert (r.kept + [q])[..|r.kept|] == r.kept;
      }
    }
  }

  /** During the pass the kernel agrees except for what is pending. */
  lemma {:induction false} ScanAgrees(s: Ep, ioq: seq<Request>)
    requires AllInRange(s, ioq) && Settling(s)
    requires forall fd, e :: 0 <= fd < |s.fds| && e in IO ==> s.fds[fd].Count(e) >= Total(ioq, fd, e)
    ensures Agree(Scan(s, ioq).s, Pending(s)) && Pending(s) <= Scan(s, ioq).s.kernel.Keys
  {
    if ioq != [] {
      var n := |ioq| - 1;
      ScanAgrees(s, ioq[..n]);
      ScanCounts(s, ioq[..n]);
      var r := Scan(s, ioq[..n]);
      assert InRange(s, ioq[n].pds);
      var q := Report(r.s, ioq[n]);
      ReportUses(r.s, ioq[n]);
      if Notify(r.s, ioq[n]) {
        forall fd, e | 0 <= fd < |s.fds| && e in IO ensures r.s.fds[fd].Count(e) >= Uses(q.pds, fd, e) {
          assert s.fds[fd].Count(e) >= Total(ioq, fd, e);
        }
        forall i | 0 <= i < |q.pds| ensures q.pds[i].fd in Pending(s) <==> r.s.fds[q.pds[i].fd].revents != {} {
          assert ioq[n].pds[i].fd == q.pds[i].fd;
        }
        DelAllAgrees(r.s, q.pds, Pending(s));
      }
    }
  }

  /** The kernel agrees except for what is pending, which is registered. */
  ghost predicate Settling(s: Ep) {
    Agree(s, Pending(s)) && Pending(s) <= s.kernel.Keys
  }

  lemma {:induction false} FinishCounts(s: Ep, fired: seq<Fired>)
    requires forall i :: 0 <= i < |fired| ==> 0 <= fired[i].fd < |s.fds|
    ensures forall fd, e :: 0 <= fd < |s.fds| ==> Finish(s, fired).fds[fd].Count(e) == s.fds[fd].Count(e)
  {
    if fired != [] { FinishCounts(s, fired[..|fired| - 1]); }
  }

  /** The last loop settles what is pending on the descriptors that fired. */
  lemma {:induction false} FinishSettles(s: Ep, fired: seq<Fired>)
    requires forall i :: 0 <= i < |fired| ==> 0 <= fired[i].fd < |s.fds|
    requires Settling(s)
    ensures Settling(Finish(s, fired)) && Pending(Finish(s, fired)) <= Pending(s)
    ensures forall i :: 0 <= i < |fired| ==> fired[i].fd !in Pending(Finish(s, fired))
  {
    if fired != [] {
      var n := |fired| - 1;
      FinishSettles(s, fired[..n]);
      SettleOne(Finish(s, fired[..n]), fired[n].fd);
      forall i | 0 <= i < n ensures fired[i].fd !in Pending(Finish(s, fired)) { assert fired[..n][i] == fired[i]; }
    }
  }

  lemma {:induction false} SettleOne(t: Ep, fd: int)
    requires 0 <= fd < |t.fds| && Settling(t)
    ensures var u := SetInterest(t.(fds := t.fds[fd := t.fds[fd].Report({})]), fd);
            Settling(u) && Pending(u) == Pending(t) - {fd}
  {
    var d := t.fds[fd].Report({});
    var u := t.(fds := t.fds[fd := d]);
    RecountAgrees(t, fd, d, Pending(t));
    assert Pending(u) == Pending(t) - {fd};
    assert Pending(t) + {fd} == Pending(u) + {fd};
    assert d.Mask() == t.fds[fd].Mask();
    assert fd !in Pending(t) ==> AgreeAt(t, fd);
    SetInterestAgrees(u, fd, Pending(u));
    assert Pending(SetInterest(u, fd)) == Pending(u);
  }

  lemma {:induction false} MarkedPending(s: Ep, fired: seq<Fired>)
    requires Quiet(s) && Reportable(s, fired) && Agree(s, {})
    ensures var m := Mark(s, fired);
            && Settling(m)
            && (forall fd :: fd in Pending(m) ==> exists i :: 0 <= i < |fired| && fired[i].fd == fd)
  {
    var m := Mark(s, fired);
    MarkKeeps(s, fired);
    forall fd | fd in Pending(m) ensures exists i :: 0 <= i < |fired| && fired[i].fd == fd {
      if forall i :: 0 <= i < |fired| ==> fired[i].fd != fd { assert s.fds[fd].revents == {}; }
    }
    forall fd | 0 <= fd < |m.fds| && fd !in Pending(m) ensures AgreeAt(m, fd) { assert AgreeAt(s, fd); }
  }

  /** Dispatch keeps counts, kernel and the io queue in agreement. */
  lemma {:induction false} DispatchKeeps(s: Ep, ioq: seq<Request>, fired: seq<Fired>)
    requires EpInv(s, ioq) && Reportable(s, fired)
    ensures EpInv(Dispatch(s, ioq, fired).s, Dispatch(s, ioq, fired).kept)
  {
    if fired != [] {
      var m := Mark(s, fired);
      MarkKeeps(s, fired);
      MarkedPending(s, fired);
      assert AllInRange(m, ioq) by {
        forall i | 0 <= i < |ioq| ensures InRange(m, ioq[i].pds) { assert InRange(s, ioq[i].pds); }
      }
      var r := Scan(m, ioq);
      forall fd, e | 0 <= fd < |s.fds| && e in IO ensures m.fds[fd].Count(e) == Total(ioq, fd, e) {
        assert s.fds[fd].Count(e) == Total(ioq, fd, e);
      }
      ScanAgrees(m, ioq);
      ScanCounts(m, ioq);
      ScanSelects(m, ioq);
      SelectProper(m, ioq, false);
      assert Pending(r.s) == Pending(m);
      DispatchSettled(s, ioq, fired, r);
    }
  }

  lemma {:induction false} DispatchSettled(s: Ep, ioq: seq<Request>, fired: seq<Fired>, r: Scanned)
    requires |s.fds| > 0 && |r.s.fds| == |s.fds|
    requires forall i :: 0 <= i < |fired| ==> 0 <= fired[i].fd < |s.fds|
    requires Settling(r.s)
    requires forall fd :: fd in Pending(r.s) ==> exists i :: 0 <= i < |fired| && fired[i].fd == fd
    requires AllInRange(s, r.kept) && Proper(r.kept)
    requires forall fd, e :: 0 <= fd < |s.fds| && e in IO ==> r.s.fds[fd].Count(e) == Total(r.kept, fd, e)
    ensures EpInv(Finish(r.s, fired), r.kept)
  {
    var t := Finish(r.s, fired);
    FinishSettles(r.s, fired);
    FinishCounts(r.s, fired);
    assert Pending(t) == {};
    forall fd | 0 <= fd < |t.fds| ensures t.fds[fd].revents == {} { assert fd !in Pending(t); }
    forall i | 0 <= i < |r.kept| ensures InRange(t, r.kept[i].pds) { assert InRange(s, r.kept[i].pds); }
  }

  /** The requests to be notified, or the others, in queue order and with their reports. */
  function Select(s: Ep, ioq: seq<Request>, notified: bool): seq<Request>
    requires AllInRange(s, ioq)
  {
    if ioq == [] then [] else
      var n := |ioq| - 1;
      assert InRange(s, ioq[n].pds);
      Select(s, ioq[..n], notified) + (if Notify(s, ioq[n]) == notified then [Report(s, ioq[n])] else [])
  }

  /** Deleting during the pass does not change whom it notifies of what. */
  lemma {:induction false} ScanSelects(s: Ep, ioq: seq<Request>)
    requires AllInRange(s, ioq)
    ensures Scan(s, ioq).kept == Select(s, ioq, false) && Scan(s, ioq).woken == Select(s, ioq, true)
  {
    if ioq != [] {
      var n := |ioq| - 1;
      ScanSelects(s, ioq[..n]);
      ScanCounts(s, ioq[..n]);
      var r := Scan(s, ioq[..n]);
      var q := ioq[n];
      assert InRange(s, q.pds);
      forall i | 0 <= i < |q.pds| ensures Ready(r.s, q.pds[i]) == Ready(s, q.pds[i]) { }
      assert Report(r.s, q) == Report(s, q);
    }
  }

  lemma {:induction false} SelectProper(s: Ep, ioq: seq<Request>, notified: bool)
    requires AllInRange(s, ioq) && Proper(ioq)
    ensures Proper(Select(s, ioq, notified))
  {
    if ioq != [] {
      var n := |ioq| - 1;
      assert Proper(ioq[..n]) by { assert forall i :: 0 <= i < n ==> ioq[..n][i] == ioq[i]; }
      SelectProper(s, ioq[..n], notified);
      assert InRange(s, ioq[n].pds);
      var q := Report(s, ioq[n]);
      forall j | 0 <= j < |q.pds| ensures Wellformed(q.pds[j]) { assert Wellformed(ioq[n].pds[j]); }
    }
  }

  /** What an entry that asked for some events gets of those reported: on an
      error or a hang-up, also everything it asked for. */
  function Given(asked: Events, reported: Events): Events {
    if reported * {Err, Hup} == {} then asked * reported else asked + reported * {Err, Hup}
  }

  /** `r` is what an entry gets of a whole report. */
  ghost predicate Gets(fired: seq<Fired>, p: Pollfd, r: Events) {
    && (forall i :: 0 <= i < |fired| && fired[i].fd == p.fd ==> r == Given(p.events, fired[i].events))
    && ((forall i :: 0 <= i < |fired| ==> fired[i].fd != p.fd) ==> r == {})
  }

  /** An entry is told exactly what it asked for of what was reported for its
      descriptor, errors and hang-ups besides; so it is told of something exactly
      when an event it asked for, an error or a hang-up was reported. */
  lemma {:induction false} ReadyMeans(s: Ep, fired: seq<Fired>, p: Pollfd)
    requires Quiet(s) && Reportable(s, fired) && 0 <= p.fd < |s.fds| && p.events <= s.fds[p.fd].Mask() <= IO
    ensures Gets(fired, p, Ready(Mark(s, fired), p))
    ensures Ready(Mark(s, fired), p) != {} <==>
              exists i :: 0 <= i < |fired| && fired[i].fd == p.fd && fired[i].events * (p.events + {Err, Hup}) != {}
  {
    var r := Ready(Mark(s, fired), p);
    if i :| 0 <= i < |fired| && fired[i].fd == p.fd {
      MarkedAt(s, fired, i);
      GivenWhole(p.events, fired[i].events, s.fds[p.fd].Mask());
      GivenSome(p.events, fired[i].events);
      assert r == Given(p.events, fired[i].events);
      assert forall j :: 0 <= j < |fired| && fired[j].fd == p.fd ==> j == i;
    } else {
      MarkKeeps(s, fired);
    }
  }

  lemma {:induction false} GivenWhole(asked: Events, reported: Events, mask: Events)
    requires asked <= mask <= IO
    ensures var r := reported + (if reported * {Err, Hup} != {} then mask else {});
            asked * r * IO + r * {Err, Hup} == Given(asked, reported)
  {
  }

  lemma {:induction false} GivenSome(asked: Events, reported: Events)
    ensures Given(asked, reported) != {} <==> reported * (asked + {Err, Hup}) != {}
  {
    var hangs := reported * {Err, Hup};
    if x :| x in hangs {
      assert x in Given(asked, reported) && x in reported * (asked + {Err, Hup});
    } else {
      assert forall e :: e in reported * (asked + {Err, Hup}) && e !in asked ==> e in hangs;
      assert reported * (asked + {Err, Hup}) == asked * reported;
    }
  }

  lemma {:induction false} MarkedAt(s: Ep, fired: seq<Fired>, i: nat)
    requires Reportable(s, fired) && i < |fired|
    ensures Mark(s, fired).fds[fired[i].fd].revents ==
              fired[i].events + (if fired[i].events * {Err, Hup} != {} then s.fds[fired[i].fd].Mask() else {})
  {
    var n := |fired| - 1;
    if i < n {
      MarkedAt(s, fired[..n], i);
    } else {
      MarkKeeps(s, fired[..n]);
    }
  }
}
