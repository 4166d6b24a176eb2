/** Reading and writing with vectors of buffers, over calls that transfer any
    part of what they are given. An iovec to write is the bytes it points to, an
    iovec to read into the addresses of its bytes. */
module ScatterIo {
  import opened Wrappers

  const LOCAL_MAXIOV: nat := 16

  function Concat<T>(v: seq<seq<T>>): seq<T> {
    if v == [] then [] else v[0] + Concat(v[1..])
  }

  lemma {:induction false} ConcatSplit<T>(v: seq<seq<T>>, k: nat)
    requires k <= |v|
    ensures Concat(v) == Concat(v[..k]) + Concat(v[k..])
  {
    if k == 0 {
      assert v[0..] == v && Concat(v[..0]) == [];
    } else {
      ConcatSplit(v[1..], k - 1);
      assert v[..k][0] == v[0] && v[..k][1..] == v[1..][..k - 1] && v[1..][k - 1..] == v[k..];
      assert v[0] + (Concat(v[1..][..k - 1]) + Concat(v[k..])) == v[0] + Concat(v[1..][..k - 1]) + Concat(v[k..]);
    }
  }

  // ---------- The system calls ----------

  /** What the next call does: a number of bytes is what it is willing to take. */
  datatype Answer = Takes(n: nat) | Interrupted | NotReady | Fails

  datatype Transfer = Moved(n: nat) | Eintr | Eagain | Other

  /** Different addresses of a memory. */
  ghost predicate Addresses(size: nat, to: seq<nat>) {
    (forall i :: 0 <= i < |to| ==> to[i] < size) && forall i, j :: 0 <= i < j < |to| ==> to[i] != to[j]
  }

  /** The memory holds the bytes at the first of the addresses, and elsewhere what it held before. */
  ghost predicate Stored(mem: seq<byte>, was: seq<byte>, to: seq<nat>, bytes: seq<byte>) {
    && |mem| == |was| && |bytes| <= |to|
    && (forall i :: 0 <= i < |bytes| ==> to[i] < |mem| && mem[to[i]] == bytes[i])
    && (forall a :: 0 <= a < |mem| && a !in to[..|bytes|] ==> mem[a] == was[a])
  }

  lemma {:induction false} StoredMore(m0: seq<byte>, m1: seq<byte>, m2: seq<byte>, to: seq<nat>, got: seq<byte>,
      more: seq<byte>)
    requires Addresses(|m0|, to) && Stored(m1, m0, to, got) && Stored(m2, m1, to[|got|..], more)
    ensures Stored(m2, m0, to, got + more)
  {
    var n := |got|;
    forall i | 0 <= i < n + |more| ensures m2[to[i]] == (got + more)[i] {
      if i < n {
        assert to[i] !in to[n..][..|more|];
      } else {
        assert to[n..][i - n] == to[i];
      }
    }
    forall a | 0 <= a < |m2| && a !in to[..n + |more|] ensures m2[a] == m0[a] {
      assert forall i :: 0 <= i < n ==> to[..n + |more|][i] == to[..n][i];
      assert forall i :: 0 <= i < |more| ==> to[..n + |more|][n + i] == to[n..][..|more|][i];
    }
  }

  class Socket {
    var sent: seq<byte>
    // what will arrive
    var incoming: seq<byte>
    var received: seq<byte>
    // what the calls will do; no more answers is an error
    var answers: seq<Answer>
    // how many calls ended in an error that is neither EINTR nor "not ready"
    var errors: nat
    // the last call found the socket not ready, and nobody has waited for it since
    var blocked: bool
    // how many calls were made on a blocked socket
    var spins: nat

    constructor (incoming: seq<byte>, answers: seq<Answer>)
      ensures sent == [] && received == [] && this.incoming == incoming && this.answers == answers
      ensures errors == 0 && !blocked && spins == 0
    {
      sent, received, this.incoming, this.answers := [], [], incoming, answers;
      errors, blocked, spins := 0, false, 0;
    }

    /** What a call leaves, apart from the bytes it moves. */
    predicate Answered(r: Transfer, wasBlocked: bool, spun: nat, erred: nat)
      reads this
    {
      && blocked == (if r.Moved? then false else r.Eagain? || wasBlocked)
      && spins == spun + (if wasBlocked then 1 else 0)
      && errors == erred + (if r.Other? then 1 else 0)
    }

    method Next() returns (a: Answer)
      modifies this`answers, this`errors
      ensures if old(answers) == [] then a == Fails && answers == []
              else a == old(answers)[0] && answers == old(answers)[1..]
      ensures errors == old(errors) + (if a == Fails then 1 else 0)
    {
      a := Fails;
      if answers != [] {
        a, answers := answers[0], answers[1..];
      }
      if a == Fails {
        errors := errors + 1;
      }
    }

    /** write and writev: some prefix of the vector goes out. */
    method Writev(v: seq<seq<byte>>) returns (r: Transfer)
      modifies this`answers, this`errors, this`blocked, this`spins, this`sent
      ensures r.Moved? ==> r.n <= |Concat(v)| && sent == old(sent) + Concat(v)[..r.n]
      ensures !r.Moved? ==> sent == old(sent)
      ensures Answered(r, old(blocked), old(spins), old(errors))
      ensures r.Other? || |answers| < |old(answers)|
    {
      var a := Next();
      spins := spins + (if blocked then 1 else 0);
      match a
      case Takes(n) =>
        var total := Concat(v);
        var k := if n < |total| then n else |total|;
        sent := sent + total[..k];
        blocked, r := false, Moved(k);
      case Interrupted => r := Eintr;
      case NotReady => blocked, r := true, Eagain;
      case Fails => r := Other;
    }

    /** read and readv to some addresses: 0 is the end of the stream, unless nothing is asked for. */
    method Readv(mem: array<byte>, to: seq<nat>) returns (r: Transfer)
      requires Addresses(mem.Length, to)
      modifies this`answers, this`errors, this`blocked, this`spins, this`incoming, this`received, mem
      ensures r.Moved? ==> r.n <= |to| && r.n <= |old(incoming)|
      ensures r == Moved(0) ==> to == [] || old(incoming) == []
      ensures r.Moved? ==> received == old(received) + old(incoming)[..r.n] && incoming == old(incoming)[r.n..]
      ensures r.Moved? ==> Stored(mem[..], old(mem[..]), to, old(incoming)[..r.n])
      ensures !r.Moved? ==> received == old(received) && incoming == old(incoming) && mem[..] == old(mem[..])
      ensures Answered(r, old(blocked), old(spins), old(errors))
      ensures r.Other? || |answers| < |old(answers)|
    {
      var a := Next();
      spins := spins + (if blocked then 1 else 0);
      match a
      case Takes(n) =>
        var room := if |to| < |incoming| then |to| else |incoming|;
        var k := if 0 < n < room then n else if n == 0 < room then 1 else room;
        forall i | 0 <= i < k {
          mem[to[i]] := incoming[i];
        }
        received, incoming := received + incoming[..k], incoming[k..];
        blocked, r := false, Moved(k);
      case Interrupted => r := Eintr;
      case NotReady => blocked, r := true, Eagain;
      case Fails => r := Other;
    }

    /** st_netfd_poll: waits, unless it fails. */
    method Poll() returns (ok: bool)
      modifies this`answers, this`errors, this`blocked
      ensures ok ==> |answers| < |old(answers)| && !blocked
      ensures |answers| <= |old(answers)|
      ensures errors == old(errors) + (if ok then 0 else 1)
    {
      var a := Next();
      ok := a != Fails;
      blocked := blocked && !ok;
    }
  }

  // ---------- The resid loops ----------

  /** The vector `was`, with its pointers moved past `n` of the bytes `all` that start at buffer
      `first`, up to buffer `next`. */
  ghost predicate Moving<T>(v: seq<seq<T>>, was: seq<seq<T>>, first: nat, next: nat, all: seq<T>, n: nat) {
    && |v| == |was| && first <= next <= |v| && n <= |all| && Concat(v[next..]) == all[n..]
    && (forall k :: 0 <= k < first ==> v[k] == was[k]) && forall k :: first <= k < next ==> v[k] == []
  }

  lemma {:induction false} MovesFrom<T>(v: seq<seq<T>>, first: nat)
    requires first <= |v|
    ensures Moving(v, v, first, first, Concat(v[first..]), 0)
  {
    var all := Concat(v[first..]);
    assert all[0..] == all;
  }

  /** A buffer that is passed as a whole. */
  lemma {:induction false} MovesOver<T>(v: seq<seq<T>>, was: seq<seq<T>>, first: nat, next: nat, all: seq<T>, n: nat)
    requires Moving(v, was, first, next, all, n) && next < |v|
    ensures n + |v[next]| <= |all| && Moving(v[next := []], was, first, next + 1, all, n + |v[next]|)
  {
    var rest := v[next..];
    assert rest[0] == v[next] && rest[1..] == v[next + 1..] == v[next := []][next + 1..];
    assert Concat(rest)[|v[next]|..] == Concat(rest[1..]);
    assert all[n..][|v[next]|..] == all[n + |v[next]|..];
  }

  /** The buffer in which the bytes end. */
  lemma {:induction false} MovesInto<T>(v: seq<seq<T>>, was: seq<seq<T>>, first: nat, next: nat, all: seq<T>, n: nat,
      left: nat)
    requires Moving(v, was, first, next, all, n) && next < |v| && left <= |v[next]|
    ensures n + left <= |all| && Moving(v[next := v[next][left..]], was, first, next, all, n + left)
  {
    var rest, now := v[next..], v[next := v[next][left..]];
    assert rest[0] == v[next] && rest[1..] == v[next + 1..] && now[next..][1..] == rest[1..];
    assert Concat(rest)[left..] == v[next][left..] + Concat(rest[1..]);
    assert all[n..][left..] == all[n + left..];
  }

  /** Moves the pointers of a vector past `n` bytes: `first` is where it starts. */
  method Advance<T(0)>(iov: array<seq<T>>, first: nat, n: nat) returns (next: nat)
    requires first < iov.Length && n <= |Concat(iov[first..])|
    modifies iov
    ensures Moving(iov[..], old(iov[..]), first, next, old(Concat(iov[first..])), n)
  {
    ghost var all, was := Concat(iov[first..]), iov[..];
    ghost var moved: nat := 0;
    var left: nat := n;
    next := first;
    assert was[first..] == iov[first..];
    MovesFrom(was, first);
    hide Concat, Moving;
    while left >= |iov[next]|
      invariant next < iov.Length && moved + left == n && Moving(iov[..], was, first, next, all, moved)
      decreases iov.Length - next
    {
      var len := |iov[next]|;
      MovesOver(iov[..], was, first, next, all, moved);
      SetBuffer(iov, next, []);
      left, next, moved := left - len, next + 1, moved + len;
      if left == 0 {
        break;
      }
      MoreToPass(iov[..], was, first, next, all, moved);
    }
    if next < iov.Length {
      MovesInto(iov[..], was, first, next, all, moved, left);
      SetBuffer(iov, next, iov[next][left..]);
    }
  }

  method SetBuffer<T>(iov: array<seq<T>>, k: nat, x: seq<T>)
    requires k < iov.Length
    modifies iov
    ensures iov[..] == old(iov[..])[k := x]
  {
    iov[k] := x;
  }

  lemma {:induction false} MoreToPass<T>(v: seq<seq<T>>, was: seq<seq<T>>, first: nat, next: nat, all: seq<T>, n: nat)
    requires Moving(v, was, first, next, all, n) && n < |all|
    ensures next < |v|
  {
  }

  /** st_writev_resid: what has been sent and what is left are always the original. */
  method WritevResid(fd: Socket, iov: array<seq<byte>>) returns (ok: bool, first: nat)
    modifies fd, iov
    ensures first <= iov.Length && fd.sent + Concat(iov[first..]) == old(fd.sent) + old(Concat(iov[..]))
    ensures forall k :: 0 <= k < first ==> iov[k] == []
    ensures ok ==> first == iov.Length
    ensures ok <==> fd.errors == old(fd.errors)
    ensures fd.errors >= old(fd.errors) && (ok && !old(fd.blocked) ==> !fd.blocked)
    ensures !old(fd.blocked) ==> fd.spins == old(fd.spins)
    ensures old(fd.sent) <= fd.sent
  {
    ghost var goal := fd.sent + Concat(iov[..]);
    first := 0;
    assert iov[0..] == iov[..];
    while first < iov.Length
      invariant first <= iov.Length && fd.sent + Concat(iov[first..]) == goal && old(fd.sent) <= fd.sent
      invariant forall k :: 0 <= k < first ==> iov[k] == []
      invariant fd.errors == old(fd.errors) && (!old(fd.blocked) ==> !fd.blocked && fd.spins == old(fd.spins))
      decreases |fd.answers|
    {
      var r := fd.Writev(iov[first..]);
      if r == Eintr {
        continue;
      }
      if r == Other {
        return false, first;
      }
      if r.Moved? {
        MovedSome(goal, fd.sent, Concat(iov[first..]), r.n);
        first := Advance(iov, first, r.n);
        if first == iov.Length {
          break;
        }
      }
      var ready := fd.Poll();
      if !ready {
        return false, first;
      }
    }
    ok := true;
  }

  /** What has been moved and what is left. */
  lemma {:induction false} MovedSome(goal: seq<byte>, sent: seq<byte>, left: seq<byte>, n: nat)
    requires n <= |left|
    ensures forall before: seq<byte> :: sent == before + left[..n] && before + left == goal ==> sent + left[n..] == goal
  {
    assert left[..n] + left[n..] == left;
    forall before: seq<byte> | sent == before + left[..n] && before + left == goal ensures sent + left[n..] == goal {
      assert before + left[..n] + left[n..] == before + (left[..n] + left[n..]);
    }
  }

  /** st_write: all bytes are sent, or a call failed and -1 is returned. */
  method Write(fd: Socket, buf: seq<byte>) returns (n: int)
    modifies fd
    ensures n == if fd.errors == old(fd.errors) then |buf| else -1
    ensures fd.errors >= old(fd.errors) && (n == |buf| && !old(fd.blocked) ==> !fd.blocked)
    ensures !old(fd.blocked) ==> fd.spins == old(fd.spins)
    ensures exists k :: 0 <= k <= |buf| && fd.sent == old(fd.sent) + buf[..k] && (n == |buf| ==> k == |buf|)
  {
    var iov := new seq<byte>[1](_ => buf);
    assert iov[..] == [buf] && Concat([buf]) == buf + Concat([]) == buf;
    var ok, first := WritevResid(fd, iov);
    ghost var rest := Concat(iov[first..]);
    SentPrefix(old(fd.sent), fd.sent, rest, buf);
    n := if ok then |buf| else -1;
  }

  lemma {:induction false} SentPrefix(before: seq<byte>, sent: seq<byte>, rest: seq<byte>, all: seq<byte>)
    requires sent + rest == before + all && |sent| >= |before|
    ensures |rest| <= |all| && sent == before + all[..|all| - |rest|]
  {
    assert sent == (sent + rest)[..|sent|] == (before + all)[..|sent|];
  }

  /** What the loop of st_readv_resid keeps. */
  ghost predicate Reading(mem: seq<byte>, before: seq<byte>, to: seq<nat>, was: seq<byte>, stream: seq<byte>,
      received: seq<byte>, incoming: seq<byte>, got: seq<byte>)
  {
    Stored(mem, before, to, got) && received == was + got && stream == got + incoming
  }

  lemma {:induction false} NothingRead(mem: seq<byte>, to: seq<nat>, was: seq<byte>, stream: seq<byte>)
    ensures Reading(mem, mem, to, was, stream, was, stream, [])
  {
  }

  lemma {:induction false} ReadMore(held: seq<byte>, mem: seq<byte>, before: seq<byte>, to: seq<nat>, was: seq<byte>,
      stream: seq<byte>, received: seq<byte>, left: seq<byte>, got: seq<byte>, n: nat)
    requires Reading(held, before, to, was, stream, received, left, got) && Addresses(|before|, to)
    requires n <= |left| && |got| + n <= |to| && Stored(mem, held, to[|got|..], left[..n])
    ensures Reading(mem, before, to, was, stream, received + left[..n], left[n..], got + left[..n])
    ensures to[|got|..][n..] == to[|got| + n..]
  {
    StoredMore(before, held, mem, to, got, left[..n]);
    hide Stored, Addresses;
    Received(was, got, left, n);
  }

  lemma {:induction false} Received(was: seq<byte>, got: seq<byte>, before: seq<byte>, n: nat)
    requires n <= |before|
    ensures was + got + before[..n] == was + (got + before[..n]) && got + before == got + before[..n] + before[n..]
  {
    assert before == before[..n] + before[n..];
  }

  /** One call of readv for the addresses that are left. */
  method ReadSome(fd: Socket, mem: array<byte>, rest: seq<nat>, ghost before: seq<byte>, ghost to: seq<nat>,
      ghost was: seq<byte>, ghost stream: seq<byte>, ghost got: seq<byte>) returns (r: Transfer, ghost now: seq<byte>)
    requires Addresses(mem.Length, to) && |before| == mem.Length && |got| <= |to| && rest == to[|got|..]
    requires Reading(mem[..], before, to, was, stream, fd.received, fd.incoming, got)
    modifies fd, mem
    ensures Reading(mem[..], before, to, was, stream, fd.received, fd.incoming, now)
    ensures |now| == |got| + (if r.Moved? then r.n else 0) <= |to|
    ensures r.Moved? ==> r.n <= |rest| && to[|now|..] == rest[r.n..]
    ensures r == Moved(0) ==> |now| == |to| || fd.incoming == []
    ensures fd.Answered(r, old(fd.blocked), old(fd.spins), old(fd.errors))
    ensures r.Other? || |fd.answers| < |old(fd.answers)|
  {
    ghost var left, held, had := fd.incoming, mem[..], fd.received;
    AddressesLeft(mem.Length, to, |got|);
    hide Addresses, Stored, Reading;
    r := fd.Readv(mem, rest);
    now := got;
    if r.Moved? {
      ReadMore(held, mem[..], before, to, was, stream, had, left, got, r.n);
      now := got + left[..r.n];
    }
  }

  /** st_readv_resid: what has been received is at the addresses of the vector,
      in order, those that are left are the ones behind, and nothing is lost
      from the stream. Unless a call fails, no address or no byte is left. */
  method ReadvResid(fd: Socket, mem: array<byte>, iov: array<seq<nat>>)
      returns (ok: bool, first: nat, ghost got: seq<byte>)
    requires Addresses(mem.Length, Concat(iov[..]))
    modifies fd, iov, mem
    ensures first <= iov.Length && |got| <= |old(Concat(iov[..]))|
            && Concat(iov[first..]) == old(Concat(iov[..]))[|got|..]
    ensures fd.received == old(fd.received) + got && old(fd.incoming) == got + fd.incoming
    ensures Stored(mem[..], old(mem[..]), old(Concat(iov[..])), got)
    ensures forall k :: 0 <= k < first ==> iov[k] == []
    ensures ok <==> fd.errors == old(fd.errors)
    ensures ok ==> |got| == |old(Concat(iov[..]))| || fd.incoming == []
    ensures !old(fd.blocked) ==> fd.spins == old(fd.spins)
  {
    ghost var to, was, stream, before := Concat(iov[..]), fd.received, fd.incoming, mem[..];
    ok, first, got := true, 0, [];
    assert iov[0..] == iov[..] && to[0..] == to;
    NothingRead(before, to, was, stream);
    hide Concat, Addresses, Stored, Reading;
    while first < iov.Length
      invariant first <= iov.Length && |got| <= |to| && Concat(iov[first..]) == to[|got|..]
      invariant Reading(mem[..], before, to, was, stream, fd.received, fd.incoming, got)
      invariant forall k :: 0 <= k < first ==> iov[k] == []
      invariant ok && fd.errors == old(fd.errors) && (!old(fd.blocked) ==> !fd.blocked && fd.spins == old(fd.spins))
      decreases |fd.answers|
    {
      var r;
      r, got := ReadSome(fd, mem, Concat(iov[first..]), before, to, was, stream, got);
      if r == Eintr {
        continue;
      }
      if r == Other {
        ok := false;
        break;
      }
      if r.Moved? {
        if r.n == 0 {
          break;
        }
        first := Advance(iov, first, r.n);
        if first == iov.Length {
          break;
        }
      }
      var ready := fd.Poll();
      if !ready {
        ok := false;
        break;
      }
    }
  }

  lemma {:induction false} AddressesLeft(size: nat, to: seq<nat>, n: nat)
    requires Addresses(size, to) && n <= |to|
    ensures Addresses(size, to[n..])
  {
  }

  /** st_read_fully: as many bytes as are asked for, or those up to the end of the
      stream, are in the buffer in the order in which they came. */
  method ReadFully(fd: Socket, buf: array<byte>, nbyte: nat) returns (n: int)
    requires nbyte <= buf.Length
    modifies fd, buf
    ensures n == -1 <==> fd.errors != old(fd.errors)
    ensures n != -1 ==> n == if nbyte < |old(fd.incoming)| then nbyte else |old(fd.incoming)|
    ensures n != -1 ==> fd.incoming == old(fd.incoming)[n..]
    ensures !old(fd.blocked) ==> fd.spins == old(fd.spins)
    ensures n != -1 ==> buf[..n] == old(fd.incoming)[..n] && buf[n..] == old(buf[n..])
    ensures n != -1 ==> fd.received == old(fd.received) + old(fd.incoming)[..n]
  {
    var to := seq(nbyte, i => i);
    var iov := new seq<nat>[1](_ => to);
    assert iov[..] == [to] && Concat([to]) == to + Concat([]) == to;
    ghost var stream, before := fd.incoming, buf[..];
    var ok, first, got := ReadvResid(fd, buf, iov);
    if first == 0 {
      assert iov[0..] == [iov[0]] && Concat([iov[0]]) == iov[0] + Concat([]) == iov[0];
    } else {
      assert iov[first..] == [] && iov[0] == [] && |Concat(iov[first..])| == 0;
    }
    assert stream[..|got|] == got && stream[|got|..] == fd.incoming;
    InFront(buf[..], before, nbyte, got);
    n := if ok then nbyte - |iov[0]| else -1;
  }

  lemma {:induction false} InFront(mem: seq<byte>, was: seq<byte>, n: nat, got: seq<byte>)
    requires n <= |was| && Stored(mem, was, seq(n, i => i), got)
    ensures |got| <= n && mem[..|got|] == got && mem[|got|..] == was[|got|..]
  {
    var to := seq(n, i => i);
    assert forall i :: 0 <= i < |got| ==> to[i] == i && mem[to[i]] == got[i];
    forall a | |got| <= a < |mem| ensures mem[a] == was[a] {
      assert forall i :: 0 <= i < |got| ==> to[..|got|][i] == i;
    }
  }

  // ---------- st_writev ----------

  /** How many of the first buffers `n` bytes fill up. */
  function Skip(iov: seq<seq<byte>>, n: nat): (i: nat)
    ensures i <= |iov|
  {
    if iov == [] || n < |iov[0]| then 0 else 1 + Skip(iov[1..], n - |iov[0]|)
  }

  lemma {:induction false} SkipGrows(iov: seq<seq<byte>>, m: nat, n: nat)
    requires m <= n
    ensures Skip(iov, m) <= Skip(iov, n)
  {
    if iov != [] && |iov[0]| <= m { SkipGrows(iov[1..], m - |iov[0]|, n - |iov[0]|); }
  }

  /** The first buffer not full, and how far it is. */
  method FindVector(iov: seq<seq<byte>>, written: nat) returns (index: nat, n: nat)
    requires written < |Concat(iov)|
    ensures index == Skip(iov, written) < |iov| && n < |iov[index]|
    ensures iov[index][n..] + Concat(iov[index + 1..]) == Concat(iov)[written..]
  {
    index, n := 0, written;
    assert iov[0..] == iov;
    while n >= |iov[index]|
      invariant index < |iov| && n < |Concat(iov[index..])| && n <= written
      invariant index + Skip(iov[index..], n) == Skip(iov, written)
      invariant Concat(iov[index..])[n..] == Concat(iov)[written..]
      decreases |iov| - index
    {
      assert iov[index..][1..] == iov[index + 1..];
      n := n - |iov[index]|;
      index := index + 1;
    }
    assert iov[index..][1..] == iov[index + 1..];
  }

  /** Fills the temporary vector from `index` on: every slot used is one of its own. */
  method CopyRest(tmp: array<seq<byte>>, iov: seq<seq<byte>>, index: nat, n: nat) returns (cnt: nat)
    requires index < |iov| && n <= |iov[index]| && |iov| - index <= tmp.Length
    modifies tmp
    ensures 1 <= cnt <= tmp.Length && tmp[..cnt] == [iov[index][n..]] + iov[index + 1..]
  {
    tmp[0] := iov[index][n..];
    cnt := 1;
    var i := index + 1;
    while i < |iov|
      invariant index < i <= |iov| && cnt == i - index
      invariant tmp[..cnt] == [iov[index][n..]] + iov[index + 1..i]
    {
      tmp[cnt] := iov[i];
      cnt, i := cnt + 1, i + 1;
    }
  }

  /** The first `k` bytes are sent. */
  ghost predicate SentFirst(all: seq<byte>, was: seq<byte>, sent: seq<byte>, k: nat) {
    k <= |all| && sent == was + all[..k]
  }

  /** What the loop of st_writev keeps: `v` is the vector it would write next. */
  ghost predicate Writing(all: seq<byte>, was: seq<byte>, sent: seq<byte>, k: nat, v: seq<seq<byte>>) {
    SentFirst(all, was, sent, k) && Concat(v) == all[k..]
  }

  lemma {:induction false} WritesAll(all: seq<byte>, was: seq<byte>, v: seq<seq<byte>>)
    requires Concat(v) == all
    ensures Writing(all, was, was, 0, v)
  {
  }

  lemma {:induction false} WritesRest(all: seq<byte>, was: seq<byte>, sent: seq<byte>, k: nat, v: seq<seq<byte>>)
    requires SentFirst(all, was, sent, k) && Concat(v) == all[k..]
    ensures Writing(all, was, sent, k, v)
  {
  }

  lemma {:induction false} WroteSome(all: seq<byte>, was: seq<byte>, before: seq<byte>, sent: seq<byte>, k: nat,
      v: seq<seq<byte>>, n: nat)
    requires Writing(all, was, before, k, v) && n <= |Concat(v)| && sent == before + Concat(v)[..n]
    ensures k + n <= |all| && SentFirst(all, was, sent, k + n)
  {
    assert all[..k] + all[k..][..n] == all[..k + n];
    assert was + all[..k] + all[k..][..n] == was + (all[..k] + all[k..][..n]);
  }

  /** One call of writev. */
  method WriteSome(fd: Socket, v: seq<seq<byte>>, ghost all: seq<byte>, ghost was: seq<byte>, ghost done: nat)
      returns (r: Transfer, ghost k: nat)
    requires Writing(all, was, fd.sent, done, v)
    modifies fd
    ensures k == done + (if r.Moved? then r.n else 0) <= |all| && SentFirst(all, was, fd.sent, k)
    ensures !r.Moved? ==> Writing(all, was, fd.sent, k, v)
    ensures fd.Answered(r, old(fd.blocked), old(fd.spins), old(fd.errors))
    ensures r.Other? || |fd.answers| < |old(fd.answers)|
  {
    ghost var before := fd.sent;
    hide Concat;
    r := fd.Writev(v);
    k := done;
    if r.Moved? {
      WroteSome(all, was, before, fd.sent, done, v, r.n);
      k := k + r.n;
    }
  }

  /** st_writev: the first `k` of the bytes are sent, and all of them on success.
      `memory` says whether calloc succeeds; if it does, success is returned
      unless a call fails. */
  method Writev(fd: Socket, iov: seq<seq<byte>>, memory: bool) returns (rv: int, ghost k: nat)
    modifies fd
    ensures SentFirst(Concat(iov), old(fd.sent), fd.sent, k)
    ensures rv != -1 ==> rv == k == |Concat(iov)| && fd.errors == old(fd.errors)
    ensures rv == -1 ==> fd.errors > old(fd.errors) || (!memory && |iov| - Skip(iov, k) > LOCAL_MAXIOV)
    ensures !old(fd.blocked) ==> fd.spins == old(fd.spins)
  {
    ghost var all, was := Concat(iov), fd.sent;
    var nbyte := Total(iov);
    rv := nbyte;
    var nleft := nbyte;
    k := 0;
    var local := new seq<byte>[LOCAL_MAXIOV](_ => []);
    var tmp: array?<seq<byte>> := null;
    var v := iov;
    WritesAll(all, was, iov);
    hide Concat, Skip, Writing, SentFirst;
    while nleft > 0
      invariant 0 <= nleft <= nbyte && rv == nbyte == |all| && k == nbyte - nleft
      invariant Writing(all, was, fd.sent, k, v) && SentFirst(all, was, fd.sent, k)
      invariant tmp == null ==> v == iov
      invariant fresh(local) && (tmp != null ==> fresh(tmp) && |iov| - Skip(iov, k) <= tmp.Length)
      invariant fd.errors == old(fd.errors) && (!old(fd.blocked) ==> !fd.blocked && fd.spins == old(fd.spins))
      decreases |fd.answers|
    {
      if |v| == 1 {
        rv, k := WriteLast(fd, v, nbyte, all, was, k);
        break;
      }
      var r;
      r, k := WriteSome(fd, v, all, was, k);
      if r == Eintr {
        continue;
      }
      if r == Other {
        rv := -1;
        break;
      }
      if r.Moved? {
        if r.n == nleft {
          break;
        }
        SkipGrows(iov, k - r.n, k);
        nleft := nleft - r.n;
        tmp, v := Remaining(iov, nbyte - nleft, tmp, local, memory);
        if tmp == null {
          rv := -1;
          break;
        }
        WritesRest(all, was, fd.sent, k, v);
      }
      var ready := fd.Poll();
      if !ready {
        rv := -1;
        break;
      }
    }
  }

  /** The vector for the next call, in the local slots or in new ones if those
      are too few; slots taken before are enough for ever less to write. */
  method Remaining(iov: seq<seq<byte>>, written: nat, had: array?<seq<byte>>, local: array<seq<byte>>, memory: bool)
    returns (tmp: array?<seq<byte>>, v: seq<seq<byte>>)
    requires written < |Concat(iov)| && local.Length == LOCAL_MAXIOV
    requires had != null ==> |iov| - Skip(iov, written) <= had.Length
    modifies local, had
    ensures tmp != null ==> (tmp == had || tmp == local || fresh(tmp)) && |iov| - Skip(iov, written) <= tmp.Length
    ensures tmp != null ==> Concat(v) == Concat(iov)[written..]
    ensures tmp == null ==> had == null && !memory && |iov| - Skip(iov, written) > LOCAL_MAXIOV
  {
    var index, n := FindVector(iov, written);
    tmp, v := had, [];
    if tmp == null {
      if |iov| - index <= LOCAL_MAXIOV {
        tmp := local;
      } else if memory {
        tmp := new seq<byte>[|iov| - index](_ => []);
      } else {
        return;
      }
    }
    var cnt := CopyRest(tmp, iov, index, n);
    v := tmp[..cnt];
    assert v[1..] == iov[index + 1..];
  }

  /** The last buffer goes out by st_write. */
  method WriteLast(fd: Socket, v: seq<seq<byte>>, nbyte: nat, ghost all: seq<byte>, ghost was: seq<byte>,
      ghost done: nat) returns (rv: int, ghost k: nat)
    requires |v| == 1 && Writing(all, was, fd.sent, done, v) && nbyte == |all|
    modifies fd
    ensures SentFirst(all, was, fd.sent, k) && (rv != -1 ==> k == |all|)
    ensures rv == if fd.errors == old(fd.errors) then nbyte else -1
    ensures fd.errors >= old(fd.errors) && (!old(fd.blocked) ==> fd.spins == old(fd.spins))
  {
    var buf := v[0];
    assert Concat(v) == buf + Concat([]) == buf;
    ghost var before := fd.sent;
    var n := Write(fd, buf);
    ghost var more :| 0 <= more <= |buf| && fd.sent == before + buf[..more] && (n == |buf| ==> more == |buf|);
    WroteSome(all, was, before, fd.sent, done, v, more);
    k := done + more;
    rv := if n == |buf| then nbyte else -1;
  }

  /** The total number of bytes to be sent. */
  method Total(iov: seq<seq<byte>>) returns (n: nat)
    ensures n == |Concat(iov)|
  {
    n := 0;
    assert iov[0..] == iov;
    for i := 0 to |iov|
      invariant n + |Concat(iov[i..])| == |Concat(iov)|
    {
      assert iov[i..][1..] == iov[i + 1..];
      n := n + |iov[i]|;
    }
  }
}
