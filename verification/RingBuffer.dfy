/** The server's ring buffer: a queue of at most one byte less than its size. */
module RingBuffer {
  import opened Wrappers
  import opened BigEndian

  /** Once around the array at most. */
  function Wrapped(x: nat, m: nat): (r: nat)
    requires x < 2 * m
    ensures r == if x < m then x else x - m
  {
    if x < m then x % m else (assert x == m + (x - m); Around(x, m); x % m)
  }

  lemma {:induction false} Around(x: nat, m: nat)
    requires m <= x < 2 * m
    ensures x % m == x - m
  {
    var q, r := x / m, x % m;
    assert x == q * m + r;
    if q >= 2 { Twice(q, m); }
  }

  lemma {:induction false} Twice(q: nat, m: nat)
    requires q >= 2
    ensures q * m >= 2 * m
  {
    assert q * m == 2 * m + (q - 2) * m;
  }

  /** From one place to another, around the end if need be. */
  function Between(b: seq<byte>, r: nat, w: nat): seq<byte>
    requires r <= |b| && w <= |b|
  {
    if r <= w then b[r..w] else b[r..] + b[..w]
  }

  /** Bytes put in one piece. */
  lemma {:induction false} Appended(b: seq<byte>, c: seq<byte>, r: nat, w: nat, src: seq<byte>)
    requires r < |b| && w + |src| < |b| && (r > w ==> w + |src| < r) && c == b[..w] + src + b[w + |src|..]
    ensures Between(c, r, w + |src|) == Between(b, r, w) + src
  {
    assert c[w..w + |src|] == src;
    if r <= w {
      assert c[r..w] == b[r..w];
      assert c[r..w + |src|] == c[r..w] + c[w..w + |src|];
    } else {
      assert c[r..] == b[r..] && c[..w + |src|] == b[..w] + src;
    }
  }

  /** Bytes put in two pieces, at the end and at the start. */
  lemma {:induction false} AppendedAround(b: seq<byte>, c: seq<byte>, r: nat, w: nat, src: seq<byte>)
    requires r <= w < |b| <= w + |src| < r + |b|
    requires c == src[|b| - w..] + b[w + |src| - |b|..w] + src[..|b| - w]
    ensures |c| == |b| && Between(c, r, w + |src| - |b|) == Between(b, r, w) + src
  {
    var k := |b| - w;
    assert c[r..w] == b[r..w] && c[w..] == src[..k] && c[..|src| - k] == src[k..];
    assert c[r..] == c[r..w] + c[w..];
    assert src[..k] + src[k..] == src;
  }

  lemma {:induction false} TwoPieces(b: seq<byte>, src: seq<byte>, w: nat, k: nat)
    requires w + k == |b| && k <= |src| <= |b|
    ensures src[k..] + (b[..w] + src[..k])[|src| - k..] == src[k..] + b[|src| - k..w] + src[..k]
  {
  }

  class Buffer {
    const buf: array<byte>
    var rpos: nat
    var wpos: nat

    constructor (buffer: array<byte>)
      requires buffer.Length > 0
      ensures buf == buffer && Valid() && Contents() == []
    {
      buf, rpos, wpos := buffer, 0, 0;
    }

    predicate Valid()
      reads this
    {
      buf.Length > 0 && rpos < buf.Length && wpos < buf.Length
    }

    /** What has been written and not read. */
    ghost function Contents(): (s: seq<byte>)
      requires Valid()
      reads this, buf
    {
      Between(buf[..], rpos, wpos)
    }

    function ReadLeft(): (n: nat)
      requires Valid()
      reads this, buf
      ensures n == |Contents()| < buf.Length
    {
      Wrapped(wpos + buf.Length - rpos, buf.Length)
    }

    function WriteLeft(): (n: nat)
      requires Valid()
      reads this, buf
      ensures n + |Contents()| == buf.Length - 1
    {
      Wrapped(rpos + buf.Length - wpos - 1, buf.Length)
    }

    /** The room up to the end of the array or the data. */
    function ContinuousWriteLeft(): (n: nat)
      requires Valid()
      reads this, buf
      ensures n <= WriteLeft() && wpos + n <= buf.Length && (WriteLeft() > 0 ==> n > 0)
    {
      if wpos >= rpos then (if buf.Length - wpos < WriteLeft() then buf.Length - wpos else WriteLeft()) else WriteLeft()
    }

    function ContinuousReadLeft(): (n: nat)
      requires Valid()
      reads this, buf
      ensures n <= ReadLeft() && rpos + n <= buf.Length && buf[rpos..rpos + n] == Contents()[..n]
              && (ReadLeft() > 0 ==> n > 0)
    {
      if rpos > wpos then buf.Length - rpos else ReadLeft()
    }

    /** Reads at most `len` bytes. */
    method ReadBytes(len: int) returns (ok: bool, dst: seq<byte>)
      requires Valid()
      modifies this`rpos
      ensures Valid() && ok == (len > 0)
      ensures ok ==> |dst| == (if len < |old(Contents())| then len else |old(Contents())|)
      ensures old(Contents()) == dst + Contents()
      ensures !ok ==> dst == []
    {
      if len <= 0 {
        return false, [];
      }
      var n := if len < ReadLeft() then len else ReadLeft();
      dst := Copy(n);
      ok := true;
    }

    /** The first `n` bytes, taken out. */
    method Copy(n: nat) returns (dst: seq<byte>)
      requires Valid() && n <= |Contents()|
      modifies this`rpos
      ensures Valid() && |dst| == n && old(Contents()) == dst + Contents()
    {
      var next := Wrapped(rpos + n, buf.Length);
      if next < rpos {
        dst := buf[rpos..] + buf[..next];
      } else {
        dst := buf[rpos..rpos + n];
      }
      rpos := next;
    }

    method SeekRead(len: int) returns (ok: bool)
      requires Valid()
      modifies this`rpos
      ensures Valid() && ok == (0 < len <= |old(Contents())|)
      ensures Contents() == if ok then old(Contents())[len..] else old(Contents())
    {
      if len <= 0 || len > ReadLeft() {
        return false;
      }
      rpos := Wrapped(rpos + len, buf.Length);
      ok := true;
    }

    /** Writes all bytes or none. */
    method WriteBytes(src: seq<byte>) returns (ok: bool)
      requires Valid()
      modifies this`wpos, buf
      ensures Valid() && ok == (0 < |src| && |old(Contents())| + |src| <= buf.Length - 1)
      ensures Contents() == if ok then old(Contents()) + src else old(Contents())
    {
      if |src| == 0 || |src| > WriteLeft() {
        return false;
      }
      var next := Wrapped(wpos + |src|, buf.Length);
      ghost var b := buf[..];
      if next < wpos {
        var k := buf.Length - wpos;
        Fill(wpos, src[..k]);
        assert buf[..] == b[..wpos] + src[..k];
        Fill(0, src[k..]);
        TwoPieces(b, src, wpos, k);
        AppendedAround(b, buf[..], rpos, wpos, src);
      } else {
        Fill(wpos, src);
        Appended(b, buf[..], rpos, wpos, src);
      }
      wpos := next;
      ok := true;
    }

    /** memcpy into the array. */
    method Fill(at: nat, src: seq<byte>)
      requires at + |src| <= buf.Length
      modifies buf
      ensures buf[..] == old(buf[..at]) + src + old(buf[at + |src|..])
    {
      for i := 0 to |src|
        invariant buf[..] == old(buf[..at]) + src[..i] + old(buf[at + i..])
      {
        buf[at + i] := src[i];
      }
    }

    /** Takes in what has been put behind the data already. */
    method SeekWrite(len: int) returns (ok: bool)
      requires Valid()
      modifies this`wpos
      ensures Valid() && ok == (0 < len && |old(Contents())| + len <= buf.Length - 1)
      ensures !ok ==> wpos == old(wpos)
      ensures ok && wpos == old(wpos) + len ==> Contents() == old(Contents()) + buf[old(wpos)..wpos]
      ensures ok && old(wpos) + len == buf.Length ==> Contents() == old(Contents()) + buf[old(wpos)..]
      ensures ok ==> wpos == old(wpos) + len || wpos == old(wpos) + len - buf.Length
    {
      if len <= 0 || len > WriteLeft() {
        return false;
      }
      wpos := Wrapped(wpos + len, buf.Length);
      ok := true;
    }

    method ReadString(len: nat) returns (result: seq<byte>)
      requires Valid() && len <= |Contents()|
      modifies this`rpos
      ensures Valid() && |result| == len && old(Contents()) == result + Contents()
    {
      result := Copy(len);
    }

    method Reset()
      requires buf.Length > 0
      modifies this
      ensures Valid() && Contents() == []
    {
      rpos, wpos := 0, 0;
    }

    // ---------- Integers ----------

    /** The next byte of a value of which `n` are still to be written. */
    method PutByte(value: int, n: nat)
      requires Valid() && n > 0 && |Contents()| + n <= buf.Length - 1
      modifies this`wpos, buf
      ensures Valid() && |Contents()| == |old(Contents())| + 1
      ensures Contents() + BytesOf(value, n - 1) == old(Contents()) + BytesOf(value, n)
    {
      var b := ByteOf(value, n - 1);
      ghost var was := Contents();
      var _ := WriteBytes([b]);
      assert was + ([b] + BytesOf(value, n - 1)) == was + [b] + BytesOf(value, n - 1);
    }

    /** The next byte of a value at the front of `s`, of which `k` have been read. */
    method GetByte(acc: nat, ghost s: seq<byte>, ghost k: nat) returns (more: nat)
      requires Valid() && k < |s| && Contents() == s[k..] && acc == Unsigned(0, s[..k])
      modifies this`rpos
      ensures Valid() && Contents() == s[k + 1..] && more == Unsigned(0, s[..k + 1])
    {
      var dst := Copy(1);
      UnsignedStep(s, k);
      more := acc * 256 + dst[0];
    }

    method Write1byte(value: int)
      requires Valid() && |Contents()| + 1 <= buf.Length - 1
      modifies this`wpos, buf
      ensures Valid() && Contents() == old(Contents()) + BytesOf(value, 1)
    {
      PutByte(value, 1);
      assert Contents() + [] == Contents();
    }

    method Write2bytes(value: int)
      requires Valid() && |Contents()| + 2 <= buf.Length - 1
      modifies this`wpos, buf
      ensures Valid() && Contents() == old(Contents()) + BytesOf(value, 2)
    {
      PutByte(value, 2);
      PutByte(value, 1);
      assert Contents() + [] == Contents();
    }

    method Write3bytes(value: int)
      requires Valid() && |Contents()| + 3 <= buf.Length - 1
      modifies this`wpos, buf
      ensures Valid() && Contents() == old(Contents()) + BytesOf(value, 3)
    {
      PutByte(value, 3);
      PutByte(value, 2);
      PutByte(value, 1);
      assert Contents() + [] == Contents();
    }

    method Write4bytes(value: int)
      requires Valid() && |Contents()| + 4 <= buf.Length - 1
      modifies this`wpos, buf
      ensures Valid() && Contents() == old(Contents()) + BytesOf(value, 4)
    {
      PutFour(value, 4);
      assert Contents() + [] == Contents();
    }

    /** Four of the bytes still to be written. */
    method PutFour(value: int, n: nat)
      requires Valid() && n >= 4 && |Contents()| + n <= buf.Length - 1
      modifies this`wpos, buf
      ensures Valid() && |Contents()| == |old(Contents())| + 4
      ensures Contents() + BytesOf(value, n - 4) == old(Contents()) + BytesOf(value, n)
    {
      hide Valid, Contents, BytesOf;
      PutByte(value, n);
      PutByte(value, n - 1);
      PutByte(value, n - 2);
      PutByte(value, n - 3);
    }

    method Write8bytes(value: int)
      requires Valid() && |Contents()| + 8 <= buf.Length - 1
      modifies this`wpos, buf
      ensures Valid() && Contents() == old(Contents()) + BytesOf(value, 8)
    {
      PutFour(value, 8);
      PutFour(value, 4);
      assert Contents() + [] == Contents();
    }

    /** The sign is that of the type the bytes are read into. */
    static function Sign(u: nat, n: nat): int { if 2 * u < Pow256(n) then u else u - Pow256(n) }

    method Read1byte() returns (value: int)
      requires Valid() && |Contents()| >= 1
      modifies this`rpos
      ensures Valid() && Contents() == old(Contents())[1..] && value == Signed(old(Contents())[..1])
    {
      ghost var s := Contents();
      var u := GetByte(0, s, 0);
      value := Sign(u, 1);
    }

    method Read2bytes() returns (value: int)
      requires Valid() && |Contents()| >= 2
      modifies this`rpos
      ensures Valid() && Contents() == old(Contents())[2..] && value == Signed(old(Contents())[..2])
    {
      ghost var s := Contents();
      var u := GetByte(0, s, 0);
      u := GetByte(u, s, 1);
      value := Sign(u, 2);
    }

    /** Read into four bytes of which the first is zero: there is no sign. */
    method Read3bytes() returns (value: int)
      requires Valid() && |Contents()| >= 3
      modifies this`rpos
      ensures Valid() && Contents() == old(Contents())[3..] && value == Unsigned(0, old(Contents())[..3])
    {
      ghost var s := Contents();
      var u := GetByte(0, s, 0);
      u := GetByte(u, s, 1);
      u := GetByte(u, s, 2);
      value := u;
    }

    method Read4bytes() returns (value: int)
      requires Valid() && |Contents()| >= 4
      modifies this`rpos
      ensures Valid() && Contents() == old(Contents())[4..] && value == Signed(old(Contents())[..4])
    {
      ghost var s := Contents();
      var u := GetByte(0, s, 0);
      u := GetByte(u, s, 1);
      u := GetByte(u, s, 2);
      u := GetByte(u, s, 3);
      value := Sign(u, 4);
    }

    method Read8bytes() returns (value: int)
      requires Valid() && |Contents()| >= 8
      modifies this`rpos
      ensures Valid() && Contents() == old(Contents())[8..] && value == Signed(old(Contents())[..8])
    {
      ghost var s := Contents();
      var u := GetByte(0, s, 0);
      u := GetByte(u, s, 1);
      u := GetByte(u, s, 2);
      u := GetByte(u, s, 3);
      u := GetByte(u, s, 4);
      u := GetByte(u, s, 5);
      u := GetByte(u, s, 6);
      u := GetByte(u, s, 7);
      value := Sign(u, 8);
    }
  }

  /** One more byte of the value at the front of `s`. */
  lemma {:induction false} UnsignedStep(s: seq<byte>, k: nat)
    requires k < |s|
    ensures Unsigned(0, s[..k + 1]) == Unsigned(0, s[..k]) * 256 + s[k]
  {
    assert s[..k + 1] == s[..k] + [s[k]];
    UnsignedLast(0, s[..k], s[k]);
  }

  /** Writing an integer of N bytes and reading N bytes gives it back: for 1, 2,
      4 and 8 whatever the type holds, for 3 exactly what fits without a sign. */
  method IntegersComeBack(b: Buffer, n: nat, value: int) returns (back: int)
    requires b.Valid() && b.Contents() == [] && n in {1, 2, 3, 4, 8} && b.buf.Length > n
    requires 0 <= 2 * value + Pow256(n) < 2 * Pow256(n) || n == 3
    modifies b, b.buf
    ensures b.Valid() && b.Contents() == []
    ensures n != 3 ==> back == value
    ensures n == 3 ==> (back == value <==> 0 <= value < 0x1_000000)
  {
    BytesLength(value, n);
    assert [] + BytesOf(value, n) == BytesOf(value, n) && BytesOf(value, n)[..n] == BytesOf(value, n);
    if n == 3 {
      ThreeBytesBackIff(value);
    } else {
      SignedBack(value, n);
    }
    if n == 1 {
      b.Write1byte(value);
      back := b.Read1byte();
    } else if n == 2 {
      b.Write2bytes(value);
      back := b.Read2bytes();
    } else if n == 3 {
      b.Write3bytes(value);
      back := b.Read3bytes();
    } else if n == 4 {
      b.Write4bytes(value);
      back := b.Read4bytes();
    } else {
      b.Write8bytes(value);
      back := b.Read8bytes();
    }
  }
}
