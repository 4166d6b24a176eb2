/** When a poll set is taken: exactly if its entries are proper, there is room for
    them, and the kernel refuses none it has to register. */
module EpollAdmission {
  import opened Epoll

  ghost predicate AllWellformed(pds: seq<Pollfd>) {
    forall i :: 0 <= i < |pds| ==> Wellformed(pds[i])
  }

  /** The descriptor of entry `i` is registered already, or by an entry before it. */
  ghost predicate Registered(s: Ep, pds: seq<Pollfd>, i: nat)
    requires i < |pds|
  {
    pds[i].fd in s.kernel || exists j :: 0 <= j < i && pds[j].fd == pds[i].fd
  }

  ghost predicate NoneRefused(s: Ep, pds: seq<Pollfd>, refuse: set<nat>) {
    forall i {:trigger i in refuse} :: 0 <= i < |pds| && i in refuse ==> Registered(s, pds, i)
  }

  /** The kernel of `r` has the descriptors that of `s` has and those of the entries. */
  ghost predicate KernelOf(s: Ep, pds: seq<Pollfd>, r: Ep) {
    forall fd :: fd in r.kernel <==> fd in s.kernel || exists j :: 0 <= j < |pds| && pds[j].fd == fd
  }

  lemma {:induction false} ValidateIff(s: Ep, pds: seq<Pollfd>, grow: bool)
    requires |s.fds| > 0
    ensures Validate(s, pds, grow).1 <==> AllWellformed(pds) && (grow || InRange(s, pds))
    ensures !grow ==> Validate(s, pds, grow).0 == s
  {
    if pds != [] {
      var n := |pds| - 1;
      ValidateIff(s, pds[..n], grow);
      assert AllWellformed(pds) <==> AllWellformed(pds[..n]) && Wellformed(pds[n]);
      assert InRange(s, pds) <==> InRange(s, pds[..n]) && 0 <= pds[n].fd < |s.fds|;
    }
  }

  lemma {:induction false} AddOneIff(s: Ep, p: Pollfd, refused: bool)
    requires 0 <= p.fd < |s.fds| && Agree(s, {}) && NonNegative(s) && Wellformed(p)
    ensures AddOne(s, p, refused).1 <==> p.fd in s.kernel || !refused
    ensures AddOne(s, p, refused).1 ==> AddOne(s, p, refused).0.kernel.Keys == s.kernel.Keys + {p.fd}
  {
    MaskGrows(s.fds[p.fd], p);
    assert AgreeAt(s, p.fd);
    hide FdData.Mask, FdData.Add, Agree, NonNegative;
    var was, now := s.fds[p.fd].Mask(), s.fds[p.fd].Add(p.events, 1).Mask();
    assert now != {};
    RegisterIs(s.kernel, p.fd, now);
    hide AgreeAt, Wellformed;
    if p.fd in s.kernel {
      assert was != {};
    } else {
      assert was == {} && now != was;
    }
  }

  lemma {:induction false} RegisterIs(kernel: map<int, Events>, fd: int, mask: Events)
    ensures kernel[fd := mask].Keys == kernel.Keys + {fd} && (fd in kernel ==> kernel.Keys + {fd} == kernel.Keys)
  {
  }

  lemma {:induction false} AddAllStep(s: Ep, pds: seq<Pollfd>, refuse: set<nat>)
    requires InRange(s, pds) && pds != []
    ensures var n, all := |pds| - 1, AddAll(s, pds, refuse);
            && InRange(s, pds[..n])
            && var r := AddAll(s, pds[..n], refuse);
               && 0 <= pds[n].fd < |r.s.fds|
               && (all.ok <==> r.ok && AddOne(r.s, pds[n], n in refuse).1)
               && (all.ok ==> all.s == AddOne(r.s, pds[n], n in refuse).0)
  {
    hide AddOne;
  }

  lemma {:induction false} AddAllIff(s: Ep, pds: seq<Pollfd>, refuse: set<nat>)
    requires InRange(s, pds) && Agree(s, {}) && NonNegative(s) && AllWellformed(pds)
    ensures var r := AddAll(s, pds, refuse);
            && (r.ok <==> NoneRefused(s, pds, refuse))
            && (r.ok ==> KernelOf(s, pds, r.s))
  {
    if pds != [] {
      AddAllStep(s, pds, refuse);
      RefusedFront(s, pds, refuse);
      FrontWellformed(pds);
      hide AddAll, AddOne, Agree, NonNegative, NoneRefused, Wellformed, Registered, InRange, KernelOf, AllWellformed;
      var n := |pds| - 1;
      var r := AddAll(s, pds[..n], refuse);
      AddAllIff(s, pds[..n], refuse);
      if r.ok {
        FrontAgrees(s, pds, refuse);
        AddOneIff(r.s, pds[n], n in refuse);
        RegisteredIs(s, pds, r.s);
        if AddAll(s, pds, refuse).ok { KernelMore(s, pds, r.s, AddAll(s, pds, refuse).s); }
      }
    }
  }

  lemma {:induction false} FrontWellformed(pds: seq<Pollfd>)
    requires pds != [] && AllWellformed(pds)
    ensures AllWellformed(pds[..|pds| - 1]) && Wellformed(pds[|pds| - 1])
  {
    hide Wellformed;
  }

  lemma {:induction false} FrontAgrees(s: Ep, pds: seq<Pollfd>, refuse: set<nat>)
    requires InRange(s, pds) && pds != [] && Agree(s, {}) && NonNegative(s) && AllWellformed(pds)
    requires InRange(s, pds[..|pds| - 1]) && AddAll(s, pds[..|pds| - 1], refuse).ok
    ensures var r := AddAll(s, pds[..|pds| - 1], refuse).s; Agree(r, {}) && NonNegative(r)
  {
    FrontWellformed(pds);
    hide AddAll, Agree, NonNegative, Wellformed;
    AddAllAgrees(s, pds[..|pds| - 1], refuse);
    AddAllNonNegative(s, pds[..|pds| - 1], refuse);
  }

  /** Whether the last entry is registered shows in the kernel once the others are added. */
  lemma {:induction false} RegisteredIs(s: Ep, pds: seq<Pollfd>, r: Ep)
    requires pds != [] && KernelOf(s, pds[..|pds| - 1], r)
    ensures pds[|pds| - 1].fd in r.kernel <==> Registered(s, pds, |pds| - 1)
  {
    var n := |pds| - 1;
    assert forall j :: 0 <= j < n ==> pds[..n][j] == pds[j];
  }

  lemma {:induction false} RefusedFront(s: Ep, pds: seq<Pollfd>, refuse: set<nat>)
    requires pds != []
    ensures var n := |pds| - 1;
            NoneRefused(s, pds, refuse) <==> NoneRefused(s, pds[..n], refuse) && (n in refuse ==> Registered(s, pds, n))
  {
    var n := |pds| - 1;
    forall i | 0 <= i < n ensures Registered(s, pds[..n], i) <==> Registered(s, pds, i) {
      assert forall j :: 0 <= j <= i ==> pds[..n][j] == pds[j];
    }
  }

  lemma {:induction false} KernelMore(s: Ep, pds: seq<Pollfd>, r: Ep, t: Ep)
    requires pds != [] && KernelOf(s, pds[..|pds| - 1], r) && t.kernel.Keys == r.kernel.Keys + {pds[|pds| - 1].fd}
    ensures KernelOf(s, pds, t)
  {
    var n := |pds| - 1;
    forall fd ensures fd in t.kernel <==> fd in s.kernel || exists j :: 0 <= j < |pds| && pds[j].fd == fd {
      if j :| 0 <= j < |pds| && pds[j].fd == fd { assert j < n ==> pds[..n][j].fd == fd; }
      if j :| 0 <= j < |pds[..n]| && pds[..n][j].fd == fd { assert pds[j].fd == fd; }
      assert pds[n].fd == fd ==> exists j :: 0 <= j < |pds| && pds[j].fd == fd;
    }
  }

  /** A poll set is taken exactly if every entry has a descriptor and asks for input, output or
      priority data and nothing else, the descriptors fit or memory for them can be had, and no
      descriptor is refused by the kernel that neither is registered nor comes earlier in the set. */
  lemma {:induction false} TakenIff(s: Ep, ioq: seq<Request>, pds: seq<Pollfd>, grow: bool, refuse: set<nat>)
    requires EpInv(s, ioq)
    ensures PollsetAdd(s, pds, grow, refuse).1
            <==> AllWellformed(pds) && (grow || InRange(s, pds)) && NoneRefused(s, pds, refuse)
  {
    var t := Validate(s, pds, grow).0;
    ValidateIff(s, pds, grow);
    if Validate(s, pds, grow).1 {
      ValidateGrows(s, pds, grow);
      GrownKeeps(s, t, ioq);
      ConservedNonNegative(t, ioq);
      AddAllIff(t, pds, refuse);
      assert NoneRefused(t, pds, refuse) <==> NoneRefused(s, pds, refuse) by { SameKernel(s, t, pds, refuse); }
    }
  }

  lemma {:induction false} SameKernel(s: Ep, t: Ep, pds: seq<Pollfd>, refuse: set<nat>)
    requires t.kernel == s.kernel
    ensures NoneRefused(t, pds, refuse) <==> NoneRefused(s, pds, refuse)
  {
    forall i | 0 <= i < |pds| ensures Registered(t, pds, i) <==> Registered(s, pds, i) { }
  }
}
