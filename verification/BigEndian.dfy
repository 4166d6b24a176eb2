/** Integers as bytes, the most significant first. Negative numbers are in two's
    complement: division and remainder round towards minus infinity. */
module BigEndian {
  import opened Wrappers

  function Pow256(n: nat): (p: nat)
    ensures p > 0
  { if n == 0 then 1 else 256 * Pow256(n - 1) }

  /** Byte `k` of a value, byte 0 the least significant. */
  function ByteOf(v: int, k: nat): byte
    decreases k
  {
    if k == 0 then v % 256 else ByteOf(v / 256, k - 1)
  }

  /** The `n` low bytes of a value. */
  function BytesOf(v: int, n: nat): seq<byte> {
    if n == 0 then [] else [ByteOf(v, n - 1)] + BytesOf(v, n - 1)
  }

  /** The bytes read so far make `acc`. */
  function Unsigned(acc: nat, s: seq<byte>): nat
    decreases |s|
  {
    if s == [] then acc else Unsigned(acc * 256 + s[0], s[1..])
  }

  function Signed(s: seq<byte>): int {
    var u := Unsigned(0, s);
    if 2 * u < Pow256(|s|) then u else u - Pow256(|s|)
  }

  /** The number that bytes stand for, the first the most significant. */
  function Weighted(s: seq<byte>): nat
    decreases |s|
  {
    if s == [] then 0 else s[0] * Pow256(|s| - 1) + Weighted(s[1..])
  }

  /** Bytes are read in that order. */
  lemma {:induction false} MostSignificantFirst(acc: nat, s: seq<byte>)
    ensures Unsigned(acc, s) == acc * Pow256(|s|) + Weighted(s)
    decreases |s|
  {
    if s != [] {
      MostSignificantFirst(acc * 256 + s[0], s[1..]);
      var p := Pow256(|s| - 1);
      assert (acc * 256 + s[0]) * p == acc * (256 * p) + s[0] * p;
    }
  }

  /** And written: those of a value that fits stand for it. */
  lemma {:induction false} WrittenInOrder(v: nat, n: nat)
    requires v < Pow256(n)
    ensures |BytesOf(v, n)| == n && Weighted(BytesOf(v, n)) == v
  {
    BytesLength(v, n);
    UnsignedBack(v, n);
    MostSignificantFirst(0, BytesOf(v, n));
  }

  lemma {:induction false} LastByte(v: int, n: nat)
    requires n > 0
    ensures BytesOf(v, n) == BytesOf(v / 256, n - 1) + [v % 256]
  {
    if n > 1 {
      LastByte(v, n - 1);
      assert [ByteOf(v, n - 1)] + (BytesOf(v / 256, n - 2) + [v % 256])
          == [ByteOf(v, n - 1)] + BytesOf(v / 256, n - 2) + [v % 256];
    }
  }

  lemma {:induction false} UnsignedLast(acc: nat, s: seq<byte>, b: byte)
    ensures Unsigned(acc, s + [b]) == Unsigned(acc, s) * 256 + b
    decreases |s|
  {
    if s == [] {
      assert [b][1..] == [];
    } else {
      assert (s + [b])[1..] == s[1..] + [b];
      UnsignedLast(acc * 256 + s[0], s[1..], b);
    }
  }

  lemma {:induction false} BytesLength(v: int, n: nat)
    ensures |BytesOf(v, n)| == n
  {
    if n > 0 { BytesLength(v, n - 1); }
  }

  /** What is read back is the value as far as the bytes hold it. */
  lemma {:induction false} UnsignedBack(v: int, n: nat)
    ensures Unsigned(0, BytesOf(v, n)) < Pow256(n)
    ensures exists q :: v == q * Pow256(n) + Unsigned(0, BytesOf(v, n))
    ensures 0 <= v < Pow256(n) ==> Unsigned(0, BytesOf(v, n)) == v
    ensures 0 <= v + Pow256(n) < Pow256(n) ==> Unsigned(0, BytesOf(v, n)) == v + Pow256(n)
    decreases n
  {
    if n == 0 {
      assert v == v * Pow256(0) + 0;
    } else {
      LastByte(v, n);
      UnsignedLast(0, BytesOf(v / 256, n - 1), v % 256);
      UnsignedBack(v / 256, n - 1);
      var u := Unsigned(0, BytesOf(v / 256, n - 1));
      var q :| v / 256 == q * Pow256(n - 1) + u;
      assert v == 256 * (v / 256) + v % 256;
      Scaled(q, Pow256(n - 1), u);
      assert v == q * Pow256(n) + Unsigned(0, BytesOf(v, n));
    }
  }

  lemma {:induction false} Scaled(q: int, p: int, u: int)
    ensures 256 * (q * p + u) == q * (256 * p) + 256 * u
  {
  }

  /** A signed value of `n` bytes comes back. */
  lemma {:induction false} SignedBack(v: int, n: nat)
    requires 0 <= 2 * v + Pow256(n) < 2 * Pow256(n)
    ensures Signed(BytesOf(v, n)) == v
  {
    UnsignedBack(v, n);
    BytesLength(v, n);
  }

  /** Three bytes are read without a sign: a value comes back exactly if it is
      not negative and fits. */
  lemma {:induction false} ThreeBytesBackIff(v: int)
    ensures Unsigned(0, BytesOf(v, 3)) == v <==> 0 <= v < 0x1_000000
  {
    UnsignedBack(v, 3);
    assert Pow256(3) == 256 * Pow256(2) && Pow256(2) == 256 * Pow256(1) && Pow256(1) == 256 * Pow256(0);
  }
}
