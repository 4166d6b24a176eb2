/** Base64 as binary.cpp does it (section 4 of RFC 4648). */
module Base64 {
  import opened Wrappers

  const PAD: byte := 0x3D

  /** The table `encoding`. */
  function EncodeDigit(d: nat): byte
    requires d < 64
  {
    if d < 26 then 0x41 + d else if d < 52 then 0x61 + d - 26 else if d < 62 then 0x30 + d - 52
    else if d == 62 then 0x2B else 0x2F
  }

  /** The table `decoding`: 255 for what is no digit, 0 for the padding. */
  function DecodeDigit(c: byte): nat {
    if 0x41 <= c <= 0x5A then c - 0x41
    else if 0x61 <= c <= 0x7A then c - 0x61 + 26
    else if 0x30 <= c <= 0x39 then c - 0x30 + 52
    else if c == 0x2B then 62 else if c == 0x2F then 63 else if c == PAD then 0 else 255
  }

  predicate IsSpace(c: byte) { c == 0x20 || 0x09 <= c <= 0x0D }

  // ---------- Encoding ----------

  function Four(a: byte, b: byte, c: byte): seq<byte> {
    [EncodeDigit(a / 4), EncodeDigit(a % 4 * 16 + b / 16), EncodeDigit(b % 16 * 4 + c / 64), EncodeDigit(c % 64)]
  }

  function Encode(d: seq<byte>): seq<byte> {
    if d == [] then []
    else if |d| == 1 then Four(d[0], 0, 0)[..2] + [PAD, PAD]
    else if |d| == 2 then Four(d[0], d[1], 0)[..3] + [PAD]
    else Four(d[0], d[1], d[2]) + Encode(d[3..])
  }

  /** The alphabet of table 1 of RFC 4648: A to Z, a to z, 0 to 9, then + and /. */
  lemma {:induction false} Alphabet(d: nat)
    requires d < 63
    ensures [EncodeDigit(0), EncodeDigit(25), EncodeDigit(26), EncodeDigit(51), EncodeDigit(52), EncodeDigit(61),
             EncodeDigit(62), EncodeDigit(63)]
            == ['A' as byte, 'Z' as byte, 'a' as byte, 'z' as byte, '0' as byte, '9' as byte, '+' as byte, '/' as byte]
    ensures d !in {25, 51, 61, 62} ==> EncodeDigit(d + 1) == EncodeDigit(d) + 1
  {
  }

  /** A byte of the data, and zero bits behind it. */
  function At(d: seq<byte>, i: nat): byte { if i < |d| then d[i] else 0 }

  /** The letters of four digits, with padding for those that would hold nothing of `n` bytes. */
  function Letters(v0: nat, v1: nat, v2: nat, v3: nat, n: nat): seq<byte>
    requires v0 < 64 && v1 < 64 && v2 < 64 && v3 < 64
  {
    [EncodeDigit(v0), EncodeDigit(v1), if n > 1 then EncodeDigit(v2) else PAD, if n > 2 then EncodeDigit(v3) else PAD]
  }

  /** Every three bytes, with zero bits added at the end of the data, are 24 bits that are
      written as four digits of 6 bits each, the most significant first. */
  lemma {:induction false} EncodedGroup(d: seq<byte>, g: nat) returns (v0: nat, v1: nat, v2: nat, v3: nat)
    requires 3 * g < |d|
    ensures |Encode(d)| == (|d| + 2) / 3 * 4 >= 4 * g + 4
    ensures v0 < 64 && v1 < 64 && v2 < 64 && v3 < 64
    ensures Word(v0, v1, v2, v3) == At(d, 3 * g) * 65536 + At(d, 3 * g + 1) * 256 + At(d, 3 * g + 2)
    ensures Encode(d)[4 * g..4 * g + 4] == Letters(v0, v1, v2, v3, |d| - 3 * g)
    decreases g
  {
    EncodeLength(d);
    if g == 0 {
      var a, b, c := At(d, 0), At(d, 1), At(d, 2);
      v0, v1, v2, v3 := a / 4, a % 4 * 16 + b / 16, b % 16 * 4 + c / 64, c % 64;
      FirstGroup(d);
    } else {
      v0, v1, v2, v3 := EncodedGroup(d[3..], g - 1);
      LaterGroup(d, g);
    }
  }

  lemma {:induction false} EncodeLength(d: seq<byte>)
    ensures |Encode(d)| == (|d| + 2) / 3 * 4
  {
    if |d| > 2 {
      EncodeLength(d[3..]);
      assert Encode(d) == Four(d[0], d[1], d[2]) + Encode(d[3..]);
    } else {
      assert |Encode(d)| == if d == [] then 0 else 4;
    }
  }

  lemma {:induction false} FirstGroup(d: seq<byte>)
    requires d != []
    ensures |Encode(d)| >= 4
    ensures var a, b, c := At(d, 0), At(d, 1), At(d, 2);
            Encode(d)[0..4] == Letters(a / 4, a % 4 * 16 + b / 16, b % 16 * 4 + c / 64, c % 64, |d|)
  {
    hide EncodeDigit;
    if |d| > 2 { assert Encode(d)[..4] == Four(d[0], d[1], d[2]); }
  }

  lemma {:induction false} LaterGroup(d: seq<byte>, g: nat)
    requires 0 < g && 3 * g < |d| && |Encode(d[3..])| >= 4 * (g - 1) + 4
    ensures |Encode(d)| >= 4 * g + 4
    ensures Encode(d)[4 * g..4 * g + 4] == Encode(d[3..])[4 * (g - 1)..4 * (g - 1) + 4]
  {
    assert Encode(d) == Four(d[0], d[1], d[2]) + Encode(d[3..]);
  }

  // ---------- Decoding ----------

  /** `value` is an unsigned of 32 bits; `previous` the byte just before. */
  datatype State = State(value: nat, cnt: nat, out: seq<byte>, previous: byte, bad: bool)

  const Start := State(0, 0, [], 0, false)

  function Value(value: nat, d: nat): nat { (value * 64 + d) % 0x1_0000_0000 }

  function Bytes(v: nat, third: byte, fourth: byte): seq<byte> {
    [v / 65536 % 256] + (if third != PAD then [v / 256 % 256] else []) + (if fourth != PAD then [v % 256] else [])
  }

  function Step(t: State, c: byte): State {
    if t.bad then t
    else if IsSpace(c) then t.(previous := c)
    else if DecodeDigit(c) == 255 then t.(bad := true)
    else
      var v := Value(t.value, DecodeDigit(c));
      State(v, t.cnt + 1, if t.cnt % 4 == 3 then t.out + Bytes(v, t.previous, c) else t.out, c, false)
  }

  function Run(t: State, s: seq<byte>): State
    decreases |s|
  {
    if s == [] then t else Run(Step(t, s[0]), s[1..])
  }

  function Decode(s: seq<byte>): seq<byte> {
    var t := Run(Start, s);
    if t.bad then [] else t.out
  }

  // ---------- Round trip ----------

  lemma {:induction false} DigitBack(d: nat)
    requires d < 64
    ensures DecodeDigit(EncodeDigit(d)) == d && EncodeDigit(d) != PAD && !IsSpace(EncodeDigit(d))
  {
  }

  lemma {:induction false} Divide64(x: int, q: int, r: int)
    requires x == q * 64 + r && 0 <= r < 64
    ensures x % 64 == r
  {
  }

  lemma {:induction false} Divide256(x: int, q: int, r: int)
    requires x == q * 256 + r && 0 <= r < 256
    ensures x % 256 == r && x / 256 == q
  {
  }

  lemma {:induction false} Divide4096(x: int, q: int, r: int)
    requires x == q * 4096 + r && 0 <= r < 4096
    ensures x % 4096 == r
  {
  }

  lemma {:induction false} Divide65536(x: int, q: int, r: int)
    requires x == q * 65536 + r && 0 <= r < 65536
    ensures x / 65536 == q
  {
  }

  lemma {:induction false} Divide262144(x: int, q: int, r: int)
    requires x == q * 262144 + r && 0 <= r < 262144
    ensures x % 262144 == r
  {
  }

  lemma {:induction false} Divide16777216(x: int, q: int, r: int)
    requires x == q * 16777216 + r && 0 <= r < 16777216
    ensures x % 16777216 == r
  {
  }

  /** Shifting in one more digit keeps the digits before it, up to four. */
  lemma {:induction false} First(v: nat, d: nat)
    requires d < 64
    ensures Value(v, d) % 64 == d
  {
    var x := v * 64 + d;
    Divide64(Value(v, d), v - x / 0x1_0000_0000 * 67108864, d);
  }

  lemma {:induction false} Second(v: nat, r: nat, d: nat)
    requires d < 64 && v % 64 == r
    ensures Value(v, d) % 4096 == r * 64 + d
  {
    var x := v * 64 + d;
    Divide4096(Value(v, d), v / 64 - x / 0x1_0000_0000 * 1048576, r * 64 + d);
  }

  lemma {:induction false} Third(v: nat, r: nat, d: nat)
    requires d < 64 && v % 4096 == r
    ensures Value(v, d) % 262144 == r * 64 + d
  {
    var x := v * 64 + d;
    Divide262144(Value(v, d), v / 4096 - x / 0x1_0000_0000 * 16384, r * 64 + d);
  }

  lemma {:induction false} Fourth(v: nat, r: nat, d: nat)
    requires d < 64 && v % 262144 == r
    ensures Value(v, d) % 16777216 == r * 64 + d
  {
    var x := v * 64 + d;
    Divide16777216(Value(v, d), v / 262144 - x / 0x1_0000_0000 * 256, r * 64 + d);
  }

  function Word(d0: nat, d1: nat, d2: nat, d3: nat): nat { d0 * 262144 + d1 * 4096 + d2 * 64 + d3 }

  lemma {:induction false} FourShifted(v: nat, d0: nat, d1: nat, d2: nat, d3: nat)
    requires d0 < 64 && d1 < 64 && d2 < 64 && d3 < 64
    ensures Value(Value(Value(Value(v, d0), d1), d2), d3) % 16777216 == Word(d0, d1, d2, d3)
  {
    var v1 := Value(v, d0);
    var v2 := Value(v1, d1);
    var v3 := Value(v2, d2);
    First(v, d0);
    Second(v1, d0, d1);
    Third(v2, d0 * 64 + d1, d2);
    Fourth(v3, (d0 * 64 + d1) * 64 + d2, d3);
  }

  lemma {:induction false} BytesOf(v: nat, a: byte, b: byte, c: byte)
    requires v % 16777216 == a * 65536 + b * 256 + c
    ensures v / 65536 % 256 == a && v / 256 % 256 == b && v % 256 == c
  {
    var q := v / 16777216;
    assert v == q * 16777216 + a * 65536 + b * 256 + c;
    Divide65536(v, q * 256 + a, b * 256 + c);
    Divide256(q * 256 + a, q, a);
    Divide256(v, q * 65536 + a * 256 + b, c);
    Divide256(q * 65536 + a * 256 + b, q * 256 + a, b);
  }

  lemma {:induction false} WordOf(a: byte, b: byte, c: byte)
    ensures Word(a / 4, a % 4 * 16 + b / 16, b % 16 * 4 + c / 64, c % 64) == a * 65536 + b * 256 + c
  {
  }

  /** Four characters with the digits of three bytes, the last ones perhaps padding. */
  lemma {:induction false} GroupBack(t: State, s: seq<byte>, a: byte, b: byte, c: byte)
    requires !t.bad && t.cnt % 4 == 0 && |s| == 4 && s[0] == Four(a, b, c)[0] && s[1] == Four(a, b, c)[1]
    requires s[2] == Four(a, b, c)[2] || (s[2] == PAD && b % 16 == 0 && c == 0)
    requires s[3] == Four(a, b, c)[3] || (s[3] == PAD && c == 0)
    ensures var u := Run(t, s);
            !u.bad && u.cnt == t.cnt + 4
            && u.out == t.out + ([a] + (if s[2] != PAD then [b] else []) + (if s[3] != PAD then [c] else []))
  {
    var d0, d1, d2, d3 := a / 4, a % 4 * 16 + b / 16, b % 16 * 4 + c / 64, c % 64;
    DigitsBack(s, a, b, c);
    RunFour(t, s);
    FourShifted(t.value, d0, d1, d2, d3);
    WordOf(a, b, c);
    BytesBack(Value(Value(Value(Value(t.value, d0), d1), d2), d3), s[2], s[3], a, b, c);
    hide *;
    GroupSteps(t, s[0], s[1], s[2], s[3], d0, d1, d2, d3);
  }

  lemma {:induction false} DigitsBack(s: seq<byte>, a: byte, b: byte, c: byte)
    requires |s| == 4 && s[0] == Four(a, b, c)[0] && s[1] == Four(a, b, c)[1]
    requires s[2] == Four(a, b, c)[2] || (s[2] == PAD && b % 16 == 0 && c == 0)
    requires s[3] == Four(a, b, c)[3] || (s[3] == PAD && c == 0)
    ensures DecodeDigit(s[0]) == a / 4 && DecodeDigit(s[1]) == a % 4 * 16 + b / 16
    ensures DecodeDigit(s[2]) == b % 16 * 4 + c / 64 && DecodeDigit(s[3]) == c % 64
    ensures forall i :: 0 <= i < 4 ==> !IsSpace(s[i])
  {
    DigitBack(a / 4);
    DigitBack(a % 4 * 16 + b / 16);
    DigitBack(b % 16 * 4 + c / 64);
    DigitBack(c % 64);
    hide EncodeDigit;
  }

  lemma {:induction false} BytesBack(v: nat, c2: byte, c3: byte, a: byte, b: byte, c: byte)
    requires v % 16777216 == a * 65536 + b * 256 + c
    ensures Bytes(v, c2, c3) == [a] + (if c2 != PAD then [b] else []) + (if c3 != PAD then [c] else [])
  {
    BytesOf(v, a, b, c);
  }

  lemma {:induction false} GroupSteps(t: State, c0: byte, c1: byte, c2: byte, c3: byte, d0: nat, d1: nat, d2: nat,
      d3: nat)
    requires !t.bad && t.cnt % 4 == 0 && !IsSpace(c0) && !IsSpace(c1) && !IsSpace(c2) && !IsSpace(c3)
    requires DecodeDigit(c0) == d0 < 64 && DecodeDigit(c1) == d1 < 64 && DecodeDigit(c2) == d2 < 64
             && DecodeDigit(c3) == d3 < 64
    ensures var v := Value(Value(Value(Value(t.value, d0), d1), d2), d3);
            Step(Step(Step(Step(t, c0), c1), c2), c3) == State(v, t.cnt + 4, t.out + Bytes(v, c2, c3), c3, false)
  {
    hide Value, Bytes, DecodeDigit, IsSpace;
    var v1 := Value(t.value, d0);
    assert Step(t, c0) == State(v1, t.cnt + 1, t.out, c0, false);
    var v2 := Value(v1, d1);
    assert Step(Step(t, c0), c1) == State(v2, t.cnt + 2, t.out, c1, false);
    var v3 := Value(v2, d2);
    assert Step(Step(Step(t, c0), c1), c2) == State(v3, t.cnt + 3, t.out, c2, false);
  }

  lemma {:induction false} RunFour(t: State, s: seq<byte>)
    requires |s| == 4
    ensures Run(t, s) == Step(Step(Step(Step(t, s[0]), s[1]), s[2]), s[3])
  {
    assert s[1..][0] == s[1] && s[1..][1..][0] == s[2] && s[1..][1..][1..][0] == s[3];
    var u := Run(Step(t, s[0]), s[1..]);
    assert u == Run(Step(Step(t, s[0]), s[1]), s[1..][1..]);
    assert u == Run(Step(Step(Step(t, s[0]), s[1]), s[2]), s[1..][1..][1..]);
  }

  lemma {:induction false} RunJoins(t: State, a: seq<byte>, b: seq<byte>)
    ensures Run(t, a + b) == Run(Run(t, a), b)
    decreases |a|
  {
    if a == [] { assert a + b == b; } else {
      assert (a + b)[1..] == a[1..] + b;
      RunJoins(Step(t, a[0]), a[1..], b);
    }
  }

  lemma {:induction false} EncodedBack(t: State, d: seq<byte>)
    requires !t.bad && t.cnt % 4 == 0
    ensures !Run(t, Encode(d)).bad && Run(t, Encode(d)).out == t.out + d
    decreases |d|
  {
    if |d| == 1 || |d| == 2 {
      TailBack(t, d);
    } else if d != [] {
      hide *;
      var four := Four(d[0], d[1], d[2]);
      FourBack(t, d);
      RunJoins(t, four, Encode(d[3..]));
      EncodedBack(Run(t, four), d[3..]);
      EncodeMore(d);
      ThreeOff(t.out, d);
    }
  }

  lemma {:induction false} FourBack(t: State, d: seq<byte>)
    requires !t.bad && t.cnt % 4 == 0 && |d| >= 3
    ensures var u := Run(t, Four(d[0], d[1], d[2]));
            !u.bad && u.cnt % 4 == 0 && u.out == t.out + ([d[0]] + [d[1]] + [d[2]])
  {
    var four := Four(d[0], d[1], d[2]);
    assert |four| == 4;
    NoPadding(d[0], d[1], d[2]);
    hide *;
    GroupBack(t, four, d[0], d[1], d[2]);
  }

  lemma {:induction false} ThreeOff(out: seq<byte>, d: seq<byte>)
    requires |d| >= 3
    ensures out + ([d[0]] + [d[1]] + [d[2]]) + d[3..] == out + d
  {
    assert d == [d[0]] + [d[1]] + [d[2]] + d[3..];
  }

  lemma {:induction false} EncodeMore(d: seq<byte>)
    requires |d| >= 3
    ensures Encode(d) == Four(d[0], d[1], d[2]) + Encode(d[3..])
  {
  }

  lemma {:induction false} NoPadding(a: byte, b: byte, c: byte)
    ensures Four(a, b, c)[2] != PAD && Four(a, b, c)[3] != PAD
  {
    DigitBack(b % 16 * 4 + c / 64);
    DigitBack(c % 64);
  }

  lemma {:induction false} TailBack(t: State, d: seq<byte>)
    requires !t.bad && t.cnt % 4 == 0 && (|d| == 1 || |d| == 2)
    ensures !Run(t, Encode(d)).bad && Run(t, Encode(d)).out == t.out + d
  {
    if |d| == 1 {
      GroupBack(t, Encode(d), d[0], 0, 0);
    } else {
      NoPadding(d[0], d[1], 0);
      GroupBack(t, Encode(d), d[0], d[1], 0);
    }
  }

  /** Decoding undoes encoding, with no padding, one or two. */
  lemma {:induction false} RoundTrip(d: seq<byte>)
    ensures Decode(Encode(d)) == d
  {
    EncodedBack(Start, d);
  }

  // ---------- White space ----------

  function Strip(s: seq<byte>): seq<byte> {
    if s == [] then [] else (if IsSpace(s[0]) then [] else [s[0]]) + Strip(s[1..])
  }

  /** How often a padding third in its group is cut off from the fourth by white
      space; `last` is the last character that is none. */
  function Splits(t: State, last: byte, s: seq<byte>): nat
    decreases |s|
  {
    if s == [] then 0 else
      var c := s[0];
      (if !t.bad && !IsSpace(c) && DecodeDigit(c) != 255 && t.cnt % 4 == 3 && last == PAD
          && IsSpace(t.previous) then 1 else 0)
      + Splits(Step(t, c), if IsSpace(c) then last else c, s[1..])
  }

  lemma {:induction false} Side(t: State, u: State, last: byte, k: nat, s: seq<byte>)
    requires t.value == u.value && t.cnt == u.cnt && t.bad == u.bad
    requires !t.bad ==> u.previous == last && (IsSpace(t.previous) || t.previous == last)
    requires |t.out| == |u.out| + k && (k == 0 ==> t.out == u.out)
    ensures var x, y, n := Run(t, s), Run(u, Strip(s)), k + Splits(t, last, s);
            x.bad == y.bad && |x.out| == |y.out| + n && (n == 0 ==> x.out == y.out)
    decreases |s|
  {
    if s != [] {
      var c := s[0];
      hide Value, DecodeDigit, IsSpace;
      assert PAD != 0x20 && !IsSpace(PAD) by { PadIsNoSpace(); }
      if IsSpace(c) {
        Side(Step(t, c), u, last, k, s[1..]);
        assert [] + Strip(s[1..]) == Strip(s[1..]);
      } else {
        var split := !t.bad && DecodeDigit(c) != 255 && t.cnt % 4 == 3 && last == PAD && IsSpace(t.previous);
        assert ([c] + Strip(s[1..]))[1..] == Strip(s[1..]);
        StepSide(t, u, last, k, c);
        Side(Step(t, c), Step(u, c), c, if split then k + 1 else k, s[1..]);
      }
    }
  }

  lemma {:induction false} PadIsNoSpace()
    ensures !IsSpace(PAD)
  {
  }

  lemma {:induction false} StepSide(t: State, u: State, last: byte, k: nat, c: byte)
    requires t.value == u.value && t.cnt == u.cnt && t.bad == u.bad
    requires !t.bad ==> u.previous == last && (IsSpace(t.previous) || t.previous == last)
    requires |t.out| == |u.out| + k && (k == 0 ==> t.out == u.out) && !IsSpace(c)
    ensures var x, y := Step(t, c), Step(u, c);
            var n := if !t.bad && DecodeDigit(c) != 255 && t.cnt % 4 == 3 && last == PAD
                && IsSpace(t.previous) then k + 1 else k;
            && x.value == y.value && x.cnt == y.cnt && x.bad == y.bad && (!x.bad ==> x.previous == c && y.previous == c)
            && |x.out| == |y.out| + n && (n == 0 ==> x.out == y.out)
  {
    PadIsNoSpace();
    hide Value, DecodeDigit, IsSpace;
  }

  /** Some character is neither white space nor a digit nor padding. */
  ghost predicate HasInvalid(s: seq<byte>) {
    exists i :: 0 <= i < |s| && !IsSpace(s[i]) && DecodeDigit(s[i]) == 255
  }

  /** The character at `i` is the fourth of its group, the third is padding, and
      white space stands between them. */
  ghost predicate CutOff(s: seq<byte>, i: nat)
    requires i < |s|
  {
    var before := Strip(s[..i]);
    i > 0 && !IsSpace(s[i]) && IsSpace(s[i - 1]) && |before| % 4 == 3 && before[|before| - 1] == PAD
  }

  lemma {:induction false} BadIff(t: State, s: seq<byte>)
    requires !t.bad
    ensures Run(t, s).bad <==> HasInvalid(s)
    decreases |s|
  {
    hide Value, DecodeDigit, IsSpace, Bytes;
    if s != [] {
      assert HasInvalid(s) <==> (!IsSpace(s[0]) && DecodeDigit(s[0]) == 255) || HasInvalid(s[1..]) by {
        InvalidFirst(s);
      }
      if Step(t, s[0]).bad { StaysBad(Step(t, s[0]), s[1..]); } else { BadIff(Step(t, s[0]), s[1..]); }
    }
  }

  lemma {:induction false} InvalidFirst(s: seq<byte>)
    requires s != []
    ensures HasInvalid(s) <==> (!IsSpace(s[0]) && DecodeDigit(s[0]) == 255) || HasInvalid(s[1..])
  {
    hide DecodeDigit, IsSpace;
    if HasInvalid(s[1..]) {
      var i :| 0 <= i < |s[1..]| && !IsSpace(s[1..][i]) && DecodeDigit(s[1..][i]) == 255;
      assert s[i + 1] == s[1..][i];
    }
    assert forall i :: 0 < i < |s| ==> s[i] == s[1..][i - 1];
  }

  lemma {:induction false} StripMore(s: seq<byte>, c: byte)
    ensures Strip(s + [c]) == Strip(s) + (if IsSpace(c) then [] else [c])
  {
    hide IsSpace;
    if s == [] { assert [c][1..] == []; } else {
      assert (s + [c])[1..] == s[1..] + [c];
      StripMore(s[1..], c);
    }
  }

  function LastSolid(s: seq<byte>): byte { if Strip(s) == [] then 0 else Strip(s)[|Strip(s)| - 1] }

  lemma {:induction false} OneMore(s: seq<byte>, i: nat)
    requires i < |s|
    ensures Run(Start, s[..i + 1]) == Step(Run(Start, s[..i]), s[i])
    ensures Strip(s[..i + 1]) == Strip(s[..i]) + (if IsSpace(s[i]) then [] else [s[i]])
    ensures LastSolid(s[..i + 1]) == if IsSpace(s[i]) then LastSolid(s[..i]) else s[i]
  {
    assert s[..i + 1] == s[..i] + [s[i]];
    StripMore(s[..i], s[i]);
    hide Step, IsSpace, Strip;
    RunJoins(Start, s[..i], [s[i]]);
    assert [s[i]][1..] == [];
  }

  /** What the decoder knows after some characters, if all are valid. */
  lemma {:induction false} AfterPrefix(s: seq<byte>, i: nat)
    requires i <= |s| && !HasInvalid(s)
    ensures var t := Run(Start, s[..i]); !t.bad && t.cnt == |Strip(s[..i])| && t.previous == (if i == 0 then 0 else s[i - 1])
    decreases i
  {
    if i > 0 {
      AfterPrefix(s, i - 1);
      OneMore(s, i - 1);
      assert IsSpace(s[i - 1]) || DecodeDigit(s[i - 1]) != 255;
      hide Value, DecodeDigit, IsSpace, Bytes, Run, Strip;
    }
  }

  lemma {:induction false} SplitsIff(s: seq<byte>, i: nat)
    requires i <= |s| && !HasInvalid(s)
    ensures Splits(Run(Start, s[..i]), LastSolid(s[..i]), s[i..]) == 0 <==> forall j :: i <= j < |s| ==> !CutOff(s, j)
    decreases |s| - i
  {
    hide Value, DecodeDigit, IsSpace, Bytes, Step, Run, HasInvalid, Strip, CutOff, Splits, LastSolid;
    if i < |s| {
      SplitsIff(s, i + 1);
      SplitHere(s, i);
    } else {
      assert s[i..] == [];
      NoSplits(Run(Start, s[..i]), LastSolid(s[..i]));
    }
  }

  lemma {:induction false} NoSplits(t: State, last: byte)
    ensures Splits(t, last, []) == 0
  {
  }

  lemma {:induction false} SplitHere(s: seq<byte>, i: nat)
    requires i < |s| && !HasInvalid(s)
    ensures Splits(Run(Start, s[..i]), LastSolid(s[..i]), s[i..])
            == (if CutOff(s, i) then 1 else 0) + Splits(Run(Start, s[..i + 1]), LastSolid(s[..i + 1]), s[i + 1..])
  {
    assert !IsSpace(s[i]) ==> DecodeDigit(s[i]) != 255;
    hide Value, DecodeDigit, IsSpace, Bytes, Step, Run, HasInvalid, Strip;
    AfterPrefix(s, i);
    OneMore(s, i);
    NoSpaceAtStart();
    assert s[i..][0] == s[i] && s[i..][1..] == s[i + 1..];
  }

  lemma {:induction false} NoSpaceAtStart()
    ensures !IsSpace(0) && LastSolid([]) != PAD
  {
  }

  /** White space, which the decoder skips, changes nothing exactly if a
      character is invalid anyway or white space cuts off no padding from the
      last character of its group. */
  lemma {:induction false} SpacesIgnoredIff(s: seq<byte>)
    ensures Decode(s) == Decode(Strip(s)) <==> HasInvalid(s) || forall i :: 0 <= i < |s| ==> !CutOff(s, i)
  {
    Side(Start, Start, 0, 0, s);
    BadIff(Start, s);
    if !HasInvalid(s) {
      SplitsIff(s, 0);
      assert s[..0] == [] && s[0..] == s;
    }
    hide Step, Splits, CutOff, HasInvalid, Strip;
  }

  /** A line break before the second padding gives a byte too many. */
  lemma {:induction false} BrokenPadding()
    ensures Decode([0x51, 0x51, PAD, PAD]) == [0x41]
    ensures Decode([0x51, 0x51, PAD, 0x0A, PAD]) == [0x41, 0]
  {
    var t1 := Step(Start, 0x51);
    assert t1 == State(16, 1, [], 0x51, false);
    var t2 := Step(t1, 0x51);
    assert t2 == State(1040, 2, [], 0x51, false);
    var t3 := Step(t2, PAD);
    assert t3 == State(66560, 3, [], PAD, false);
    hide Step;
    RunFour(Start, [0x51, 0x51, PAD, PAD]);
    LastPadding(t3);
    RunFour(Start, [0x51, 0x51, PAD, 0x0A]);
    LastPadding(t3.(previous := 0x0A));
    RunJoins(Start, [0x51, 0x51, PAD, 0x0A], [PAD]);
    assert [0x51, 0x51, PAD, 0x0A] + [PAD] == [0x51, 0x51, PAD, 0x0A, PAD];
    assert Step(t3, 0x0A) == t3.(previous := 0x0A) by { SpaceStep(t3); }
    assert Run(Step(t3.(previous := 0x0A), PAD), [PAD][1..]) == Step(t3.(previous := 0x0A), PAD);
  }

  lemma {:induction false} SpaceStep(t: State)
    requires !t.bad
    ensures Step(t, 0x0A) == t.(previous := 0x0A)
  {
  }

  lemma {:induction false} LastPadding(t: State)
    requires t.value == 66560 && t.cnt == 3 && t.out == [] && !t.bad
    ensures Step(t, PAD).out == (if t.previous == PAD then [0x41] else [0x41, 0]) && !Step(t, PAD).bad
  {
    assert Value(66560, 0) == 4259840;
  }

  // ---------- The loops ----------

  /** EncodeBase64: nothing is written past the buffer made at the start. */
  method EncodeBase64(data: seq<byte>) returns (ret: seq<byte>)
    ensures ret == Encode(data)
  {
    var size := |data|;
    var buf := new byte[4 * size / 3 + 3];
    var out, i, chunks := 0, 0, size / 3;
    EncodedNone(data);
    assert buf[..0] == [];
    hide Encoded, Encode, Four;
    while i < chunks
      invariant 0 <= i <= chunks && out == 4 * i
      invariant Encoded(buf[..out], data, 3 * i)
    {
      NextChunk(data, i);
      ghost var before := buf[..out];
      WriteFour(buf, out, data[3 * i], data[3 * i + 1], data[3 * i + 2]);
      EncodedMore(before, data, 3 * i);
      out, i := out + 4, i + 1;
    }
    RoomForTail(data);
    EncodedTail(buf[..out], data, 3 * i);
    var d := data[3 * i..];
    if d != [] {
      WriteTail(buf, out, d);
      out := out + 4;
    }
    ret := buf[..out];
  }

  /** `text` is what the first `n` bytes are written as. */
  ghost predicate Encoded(text: seq<byte>, data: seq<byte>, n: nat)
    requires n <= |data|
  {
    text + Encode(data[n..]) == Encode(data)
  }

  lemma {:induction false} EncodedNone(data: seq<byte>)
    ensures Encoded([], data, 0)
  {
    assert data[0..] == data;
  }

  lemma {:induction false} EncodedTail(text: seq<byte>, data: seq<byte>, n: nat)
    requires n <= |data| && Encoded(text, data, n)
    ensures Encode(data) == text + Encode(data[n..]) && (data[n..] == [] ==> Encode(data) == text)
  {
  }

  lemma {:induction false} EncodedMore(text: seq<byte>, data: seq<byte>, n: nat)
    requires n + 3 <= |data| && Encoded(text, data, n)
    ensures Encoded(text + Four(data[n], data[n + 1], data[n + 2]), data, n + 3)
  {
    EncodeMore(data[n..]);
    hide Encode, Four;
    assert data[n..][3..] == data[n + 3..];
    Grouped(text, Four(data[n], data[n + 1], data[n + 2]), Encode(data[n + 3..]));
  }

  lemma {:induction false} NextChunk(data: seq<byte>, i: nat)
    requires i < |data| / 3
    ensures 3 * i + 3 <= |data| && 4 * i + 4 <= 4 * |data| / 3 + 3
  {
  }

  lemma {:induction false} RoomForTail(data: seq<byte>)
    ensures var i := |data| / 3; 3 * i <= |data| < 3 * i + 3 && (3 * i < |data| ==> 4 * i + 4 <= 4 * |data| / 3 + 3)
  {
  }

  /** The last one or two bytes. */
  method WriteTail(buf: array<byte>, out: nat, d: seq<byte>)
    requires out + 4 <= buf.Length && (|d| == 1 || |d| == 2)
    modifies buf
    ensures buf[..out + 4] == old(buf[..out]) + Encode(d)
  {
    if |d| == 1 {
      WriteFour(buf, out, d[0], 0, 0);
      buf[out + 2], buf[out + 3] := PAD, PAD;
    } else {
      WriteFour(buf, out, d[0], d[1], 0);
      buf[out + 3] := PAD;
    }
  }

  /** The digits of up to three bytes. */
  method WriteFour(buf: array<byte>, out: nat, a: byte, b: byte, c: byte)
    requires out + 4 <= buf.Length
    modifies buf
    ensures buf[..out + 4] == old(buf[..out]) + Four(a, b, c)
  {
    buf[out] := EncodeDigit(a / 4);
    buf[out + 1] := EncodeDigit(a % 4 * 16 + b / 16);
    buf[out + 2] := EncodeDigit(b % 16 * 4 + c / 64);
    buf[out + 3] := EncodeDigit(c % 64);
  }

  lemma {:induction false} Grouped(a: seq<byte>, b: seq<byte>, c: seq<byte>)
    ensures a + (b + c) == a + b + c
  {
  }

  /** DecodeBase64. The table is indexed by a signed char, so there is an answer
      for ASCII input only. */
  method DecodeBase64(input: seq<byte>) returns (ret: seq<byte>)
    requires forall i :: 0 <= i < |input| ==> input[i] < 0x80
    ensures ret == Decode(input)
  {
    var buf := new byte[3 * |input| / 4 + 1];
    var out, value, cnt, i := 0, 0, 0, 0;
    ghost var t, groups := Start, 0;
    assert input[0..] == input && Roomy(|input|, 0, 0, 0, 0) && buf[..0] == [];
    hide Value, DecodeDigit, Bytes, Step, Roomy;
    while i < |input|
      invariant 0 <= i <= |input| && Roomy(|input|, i, cnt, groups, out)
      invariant t == State(value, cnt, buf[..out], if i == 0 then 0 else input[i - 1], false)
      invariant Run(t, input[i..]) == Run(Start, input)
    {
      RunFirst(t, input, i);
      var c := input[i];
      ghost var u := Step(t, c);
      StepCases(t, c);
      StillRoomy(|input|, i, cnt, groups, out);
      hide *;
      if !IsSpace(c) {
        var d := DecodeDigit(c);
        if d == 255 {
          StaysBad(u, input[i + 1..]);
          return [];
        }
        value := Value(value, d);
        if cnt % 4 == 3 {
          ghost var had := out;
          out := WriteBytes(buf, out, value, i > 0 && input[i - 1] != PAD, c, t.previous);
          GroupRoomy(|input|, i, cnt, groups, had, out);
          groups := groups + 1;
        }
        cnt := cnt + 1;
      }
      t := u;
      i := i + 1;
    }
    assert input[i..] == [];
    ret := buf[..out];
  }

  /** Of `i` characters read `cnt` were digits, in `groups` full groups. */
  predicate Roomy(n: nat, i: nat, cnt: nat, groups: nat, out: nat) {
    i <= n && cnt <= i && 4 * groups <= cnt < 4 * groups + 4 && out <= 3 * groups
  }

  lemma {:induction false} StillRoomy(n: nat, i: nat, cnt: nat, groups: nat, out: nat)
    requires i < n && Roomy(n, i, cnt, groups, out)
    ensures Roomy(n, i + 1, cnt, groups, out) && (cnt % 4 != 3 ==> Roomy(n, i + 1, cnt + 1, groups, out))
    ensures cnt % 4 == 3 ==> out + 3 <= 3 * n / 4 + 1
  {
  }

  lemma {:induction false} GroupRoomy(n: nat, i: nat, cnt: nat, groups: nat, out: nat, more: nat)
    requires i < n && Roomy(n, i, cnt, groups, out) && cnt % 4 == 3 && more <= out + 3
    ensures Roomy(n, i + 1, cnt + 1, groups + 1, more)
  {
  }

  lemma {:induction false} StepCases(t: State, c: byte)
    requires !t.bad
    ensures IsSpace(c) ==> Step(t, c) == t.(previous := c)
    ensures !IsSpace(c) && DecodeDigit(c) == 255 ==> Step(t, c).bad
    ensures !IsSpace(c) && DecodeDigit(c) != 255 ==>
              Step(t, c) == State(Value(t.value, DecodeDigit(c)), t.cnt + 1,
                                  if t.cnt % 4 == 3 then t.out + Bytes(Value(t.value, DecodeDigit(c)), t.previous, c)
                                  else t.out, c, false)
  {
  }

  lemma {:induction false} RunFirst(t: State, s: seq<byte>, i: nat)
    requires i < |s|
    ensures Run(t, s[i..]) == Run(Step(t, s[i]), s[i + 1..])
  {
    assert s[i..][1..] == s[i + 1..];
  }

  /** The bytes of a full group. */
  method WriteBytes(buf: array<byte>, start: nat, value: nat, second: bool, c: byte, ghost previous: byte)
      returns (out: nat)
    requires start + 3 <= buf.Length && second == (previous != PAD)
    modifies buf
    ensures start <= out <= start + 3
    ensures buf[..out] == old(buf[..start]) + Bytes(value, previous, c)
  {
    out := start;
    buf[out] := value / 65536 % 256;
    out := out + 1;
    if second {
      buf[out] := value / 256 % 256;
      out := out + 1;
    }
    if c != PAD {
      buf[out] := value % 256;
      out := out + 1;
    }
  }

  lemma {:induction false} StaysBad(t: State, s: seq<byte>)
    requires t.bad
    ensures Run(t, s).bad
    decreases |s|
  {
    if s != [] { StaysBad(t, s[1..]); }
  }
}
