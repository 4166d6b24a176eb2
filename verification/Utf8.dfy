/** The emitter's UTF-8 decoder and encoder. Shifts and masks of non-negative
    numbers are written as divisions and remainders. */
module Utf8 {
  import opened Wrappers

  const REPLACEMENT: nat := 0xFFFD

  // ---------- Encoding ----------

  function Tail(n: nat): byte { 0x80 + n % 64 }

  /** What WriteCodePoint puts out. */
  function Encode(cp: int): seq<byte> {
    var c := if cp < 0 || cp > 0x10FFFF then REPLACEMENT else cp;
    if c <= 0x7F then [c]
    else if c <= 0x7FF then [0xC0 + c / 64, Tail(c)]
    else if c <= 0xFFFF then [0xE0 + c / 4096, Tail(c / 64), Tail(c)]
    else [0xF0 + c / 262144, Tail(c / 4096), Tail(c / 64), Tail(c)]
  }

  function EncodeAll(cps: seq<nat>): seq<byte> {
    if cps == [] then [] else Encode(cps[0]) + EncodeAll(cps[1..])
  }

  // ---------- Decoding ----------

  function BytesIndicated(b: byte): int {
    if b / 16 < 8 then 1
    else if b / 16 == 12 || b / 16 == 13 then 2
    else if b / 16 == 14 then 3
    else if b / 16 == 15 then 4
    else -1
  }

  predicate IsTrailing(b: byte) { b / 64 == 2 }

  /** The lead byte without the bits that say how many bytes there are. */
  function LeadBits(b: byte, n: int): nat { if n == 2 then b % 32 else if n == 3 then b % 16 else b % 8 }

  datatype Decoded = Decoded(cp: nat, used: nat)

  /** Gathers the bits of `left` trailing bytes, the first of them at `i`. */
  function Gather(s: seq<byte>, cp: nat, i: nat, left: nat): (d: Decoded)
    requires i <= |s|
    ensures i <= d.used <= |s|
    decreases left
  {
    if left == 0 then Decoded(cp, i)
    else if i == |s| || !IsTrailing(s[i]) then Decoded(REPLACEMENT, i)
    else Gather(s, cp * 64 + s[i] % 64, i + 1, left - 1)
  }

  /** A Unicode scalar value that is not a noncharacter. */
  predicate Good(cp: nat) {
    cp <= 0x10FFFF && !(0xD800 <= cp <= 0xDFFF) && cp % 0x10000 < 0xFFFE && !(0xFDD0 <= cp <= 0xFDEF)
  }

  /** GetNextCodePointAndAdvance */
  function Next(s: seq<byte>): (d: Decoded)
    requires s != []
    ensures 1 <= d.used <= |s|
  {
    var n := BytesIndicated(s[0]);
    if n < 1 then Decoded(REPLACEMENT, 1)
    else if n == 1 then Decoded(s[0], 1)
    else
      var d := Gather(s, LeadBits(s[0], n), 1, n - 1);
      if Good(d.cp) then d else d.(cp := REPLACEMENT)
  }

  function CodePoints(s: seq<byte>): seq<nat> {
    if s == [] then [] else [Next(s).cp] + CodePoints(s[Next(s).used..])
  }

  // ---------- Well-formed text ----------

  ghost predicate AllGood(cps: seq<nat>) { forall i :: 0 <= i < |cps| ==> Good(cps[i]) }

  /** UTF-8 of scalar values free of noncharacters (section 3 of RFC 3629). */
  ghost predicate WellFormed(s: seq<byte>) {
    exists cps :: AllGood(cps) && EncodeAll(cps) == s
  }

  lemma {:induction false} DecodedGood(s: seq<byte>)
    ensures AllGood(CodePoints(s))
  {
    if s != [] { DecodedGood(s[Next(s).used..]); }
  }

  lemma {:induction false} Digits64(n: nat)
    ensures n == n / 64 * 64 + n % 64
  {
  }

  lemma {:induction false} TailIs(n: nat)
    ensures IsTrailing(Tail(n)) && Tail(n) % 64 == n % 64
  {
  }

  lemma {:induction false} NextOfTwo(cp: nat, rest: seq<byte>)
    requires 0x7F < cp <= 0x7FF && Good(cp)
    ensures Next(Encode(cp) + rest) == Decoded(cp, 2)
  {
    var s := Encode(cp) + rest;
    TailIs(cp);
    Digits64(cp);
    assert s[0] == 0xC0 + cp / 64 && s[1] == Tail(cp);
    assert Gather(s, cp / 64, 1, 1) == Gather(s, cp, 2, 0);
  }

  lemma {:induction false} NextOfThree(cp: nat, rest: seq<byte>)
    requires 0x7FF < cp <= 0xFFFF && Good(cp)
    ensures Next(Encode(cp) + rest) == Decoded(cp, 3)
  {
    var s := Encode(cp) + rest;
    TailIs(cp);
    TailIs(cp / 64);
    Digits64(cp);
    Digits64(cp / 64);
    assert cp / 4096 == cp / 64 / 64;
    assert s[0] == 0xE0 + cp / 4096 && s[1] == Tail(cp / 64) && s[2] == Tail(cp);
    assert Gather(s, cp / 4096, 1, 2) == Gather(s, cp / 64, 2, 1);
    assert Gather(s, cp / 64, 2, 1) == Gather(s, cp, 3, 0);
  }

  lemma {:induction false} LeadOfFour(n: nat)
    requires n < 5
    ensures BytesIndicated(0xF0 + n) == 4 && LeadBits(0xF0 + n, 4) == n
  {
  }

  lemma {:induction false} NextOfFour(cp: nat, rest: seq<byte>)
    requires 0xFFFF < cp && Good(cp)
    ensures Next(Encode(cp) + rest) == Decoded(cp, 4)
  {
    var s := Encode(cp) + rest;
    TailIs(cp);
    TailIs(cp / 64);
    TailIs(cp / 4096);
    Digits64(cp);
    Digits64(cp / 64);
    Digits64(cp / 4096);
    assert cp / 4096 == cp / 64 / 64 && cp / 262144 == cp / 4096 / 64;
    assert s[0] == 0xF0 + cp / 262144 && s[1] == Tail(cp / 4096) && s[2] == Tail(cp / 64) && s[3] == Tail(cp);
    LeadOfFour(cp / 262144);
    hide Tail, Encode, BytesIndicated, LeadBits, Good;
    assert Gather(s, cp / 262144, 1, 3) == Gather(s, cp / 4096, 2, 2);
    assert Gather(s, cp / 4096, 2, 2) == Gather(s, cp / 64, 3, 1);
    assert Gather(s, cp / 64, 3, 1) == Gather(s, cp, 4, 0);
  }

  /** The decoder undoes the encoder. */
  lemma {:induction false} NextOfEncoded(cp: nat, rest: seq<byte>)
    requires Good(cp)
    ensures Next(Encode(cp) + rest) == Decoded(cp, |Encode(cp)|)
  {
    if cp <= 0x7F { assert (Encode(cp) + rest)[0] == cp; }
    else if cp <= 0x7FF { NextOfTwo(cp, rest); }
    else if cp <= 0xFFFF { NextOfThree(cp, rest); }
    else { NextOfFour(cp, rest); }
  }

  lemma {:induction false} DecodeEncoded(cps: seq<nat>)
    requires AllGood(cps)
    ensures CodePoints(EncodeAll(cps)) == cps
  {
    if cps != [] {
      var s := EncodeAll(cps);
      NextOfEncoded(cps[0], EncodeAll(cps[1..]));
      assert s[|Encode(cps[0])|..] == EncodeAll(cps[1..]);
      DecodeEncoded(cps[1..]);
    }
  }

  /** Decoding and encoding again changes nothing exactly if the text is well formed. */
  lemma {:induction false} ReencodeIff(s: seq<byte>)
    ensures EncodeAll(CodePoints(s)) == s <==> WellFormed(s)
  {
    DecodedGood(s);
    if WellFormed(s) {
      var cps :| AllGood(cps) && EncodeAll(cps) == s;
      DecodeEncoded(cps);
    }
  }
}
