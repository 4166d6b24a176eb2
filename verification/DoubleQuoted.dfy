/** Double-quoted scalars: what the emitter writes, what the scanner reads, and
    what comes back when the second reads the first. */
module DoubleQuoted {
  import opened Utf8
  import opened Wrappers

  const QUOTE: byte := 0x22
  const BACKSLASH: byte := 0x5C
  const NEWLINE: byte := 0x0A
  const RETURN: byte := 0x0D
  const SPACE: byte := 0x20
  const TAB: byte := 0x09

  // ---------- Writing ----------

  function HexDigit(d: nat): byte
    requires d < 16
  {
    if d < 10 then 0x30 + d else 0x61 + d - 10
  }

  /** `n` hexadecimal digits, the most significant first. */
  function Hex(v: nat, n: nat): (r: seq<byte>)
    ensures |r| == n
  {
    if n == 0 then [] else Hex(v / 16, n - 1) + [HexDigit(v % 16)]
  }

  /** WriteDoubleQuoteEscapeSequence */
  function EscapeSequence(cp: nat): seq<byte> {
    if cp < 0xFF then [BACKSLASH, 0x78] + Hex(cp, 2)
    else if cp < 0xFFFF then [BACKSLASH, 0x75] + Hex(cp, 4)
    else [BACKSLASH, 0x55] + Hex(cp, 8)
  }

  /** What is written for one code point. */
  function Unit(cp: nat, escapeNonAscii: bool): seq<byte> {
    if cp == QUOTE then [BACKSLASH, QUOTE]
    else if cp == BACKSLASH then [BACKSLASH, BACKSLASH]
    else if cp == NEWLINE then [BACKSLASH, 0x6E]
    else if cp == TAB then [BACKSLASH, 0x74]
    else if cp == RETURN then [BACKSLASH, 0x72]
    else if cp == 0x08 then [BACKSLASH, 0x62]
    else if cp < 0x20 || 0x80 <= cp <= 0xA0 then EscapeSequence(cp)
    else if cp == 0xFEFF then EscapeSequence(cp)
    else if escapeNonAscii && cp > 0x7E then EscapeSequence(cp)
    else Encode(cp)
  }

  function Units(cps: seq<nat>, escapeNonAscii: bool): seq<byte> {
    if cps == [] then [] else Unit(cps[0], escapeNonAscii) + Units(cps[1..], escapeNonAscii)
  }

  /** WriteDoubleQuotedString */
  function Write(s: seq<byte>, escapeNonAscii: bool): seq<byte> {
    [QUOTE] + Units(CodePoints(s), escapeNonAscii) + [QUOTE]
  }

  // ---------- Reading escapes ----------

  datatype Error = InvalidHex | InvalidUnicode | InvalidEscape | DocInScalar | EofInScalar

  datatype Result<T> = Ok(value: T) | Err(error: Error)

  function DigitValue(b: byte): Option<nat> {
    if 0x61 <= b <= 0x66 then Some(b - 0x61 + 10)
    else if 0x41 <= b <= 0x46 then Some(b - 0x41 + 10)
    else if 0x30 <= b <= 0x39 then Some(b - 0x30)
    else None
  }

  function ParseHex(s: seq<byte>): Option<nat> {
    if s == [] then Some(0) else
      match ParseHex(s[..|s| - 1])
      case None => None
      case Some(v) => if DigitValue(s[|s| - 1]).None? then None else Some(v * 16 + DigitValue(s[|s| - 1]).value)
  }

  /** The byte the stream yields past its end. */
  const EOF: byte := 0x04

  function Peek(s: seq<byte>): byte { if s == [] then EOF else s[0] }

  /** What is left when `n` bytes have been got. */
  function LeftAfter(s: seq<byte>, n: nat): seq<byte> { if n <= |s| then s[n..] else [] }

  /** The next `n` bytes, with EOF past the end. */
  function NextBytes(s: seq<byte>, n: nat): (r: seq<byte>)
    ensures |r| == n
  {
    if n == 0 then [] else [Peek(s)] + NextBytes(LeftAfter(s, 1), n - 1)
  }

  /** The column after some bytes. */
  function Column(column: nat, s: seq<byte>): nat {
    if s == [] then column else if s[|s| - 1] == NEWLINE then 0 else Column(column, s[..|s| - 1]) + 1
  }

  /** The bytes of a numeric escape. */
  function FromHex(digits: seq<byte>): Result<seq<byte>> {
    match ParseHex(digits)
    case None => Err(InvalidHex)
    case Some(v) => if 0xD800 <= v <= 0xDFFF || v > 0x10FFFF then Err(InvalidUnicode) else Ok(Encode(v))
  }

  /** The fixed escapes, by the byte after the backslash. */
  function Simple(ch: byte): Option<seq<byte>> {
    if ch == 0x30 then Some([0x00]) else if ch == 0x61 then Some([0x07]) else if ch == 0x62 then Some([0x08])
    else if ch == 0x74 || ch == TAB then Some([TAB])
    else if ch == 0x6E then Some([NEWLINE]) else if ch == 0x76 then Some([0x0B])
    else if ch == 0x66 then Some([0x0C]) else if ch == 0x72 then Some([RETURN]) else if ch == 0x65 then Some([0x1B])
    else if ch == SPACE then Some([SPACE]) else if ch == QUOTE then Some([QUOTE]) else if ch == 0x27 then Some([0x27])
    else if ch == BACKSLASH then Some([BACKSLASH]) else if ch == 0x2F then Some([0x2F])
    else if ch == 0x4E then Some([0x85]) else if ch == 0x5F then Some([0xA0])
    else if ch == 0x4C then Some([0xE2, 0x80, 0xA8]) else if ch == 0x50 then Some([0xE2, 0x80, 0xA9])
    else None
  }

  function CodeLength(ch: byte): nat { if ch == 0x78 then 2 else if ch == 0x75 then 4 else if ch == 0x55 then 8 else 0 }

  datatype Escaped = Escaped(bytes: Result<seq<byte>>, used: nat)

  /** Exp::Escape at a backslash: the bytes it stands for and how many are eaten. */
  function Escape(s: seq<byte>): Escaped {
    var ch := Peek(LeftAfter(s, 1));
    if Simple(ch).Some? then Escaped(Ok(Simple(ch).value), 2)
    else if CodeLength(ch) > 0 then Escaped(FromHex(NextBytes(LeftAfter(s, 2), CodeLength(ch))), 2 + CodeLength(ch))
    else Escaped(Err(InvalidEscape), 2)
  }

  // ---------- Reading scalars ----------

  /** The length of a line break at the front, or 0. */
  function Break(s: seq<byte>): nat {
    if |s| >= 1 && s[0] == NEWLINE then 1 else if |s| >= 2 && s[0] == RETURN && s[1] == NEWLINE then 2 else 0
  }

  predicate Blank(s: seq<byte>) { s != [] && (s[0] == SPACE || s[0] == TAB) }

  /** Three dashes or dots, and then a blank, a break or the end. */
  predicate DocIndicator(s: seq<byte>) {
    && |s| >= 3 && (s[..3] == [0x2D, 0x2D, 0x2D] || s[..3] == [0x2E, 0x2E, 0x2E])
    && (Blank(s[3..]) || Break(s[3..]) > 0 || Peek(s[3..]) == EOF)
  }

  predicate EscBreak(s: seq<byte>) { s != [] && s[0] == BACKSLASH && Break(s[1..]) > 0 }

  /** The scanner between two bytes: the input that is left, the column, the
      scalar so far, its length up to the last byte that is not blank, its
      length at the last escape, and whether the line break ahead is escaped. */
  datatype Scan = Scan(rest: seq<byte>, column: nat, scalar: seq<byte>, lastNonWhitespace: nat,
                       lastEscaped: Option<nat>, escapedNewline: bool, emptyLine: bool)

  predicate AtEnd(s: seq<byte>) { s != [] && s[0] == QUOTE }

  /** Phase 1: up to the closing quote, a line break or the end of the input. */
  function ScanLine(t: Scan): (r: Result<Scan>)
    requires t.lastNonWhitespace <= |t.scalar|
    ensures r.Ok? ==> |r.value.rest| <= |t.rest| && r.value.lastNonWhitespace <= |r.value.scalar|
    ensures r.Ok? ==> r.value.rest == [] || AtEnd(r.value.rest) || Break(r.value.rest) > 0
    decreases |t.rest|
  {
    if t.rest == [] || AtEnd(t.rest) || Break(t.rest) > 0 then Ok(t)
    else if t.column == 0 && DocIndicator(t.rest) then Err(DocInScalar)
    else if EscBreak(t.rest) then
      Ok(t.(rest := t.rest[1..], column := t.column + 1, lastNonWhitespace := |t.scalar|,
            lastEscaped := Some(|t.scalar|), escapedNewline := true))
    else if t.rest[0] == BACKSLASH then
      match Escape(t.rest).bytes
      case Err(e) => Err(e)
      case Ok(bytes) => ScanLine(AfterEscape(t, bytes, Escape(t.rest).used))
    else ScanLine(AfterByte(t))
  }

  function AfterEscape(t: Scan, bytes: seq<byte>, used: nat): Scan {
    var scalar := t.scalar + bytes;
    t.(rest := LeftAfter(t.rest, used), column := Column(t.column, NextBytes(t.rest, used)), scalar := scalar,
       lastNonWhitespace := |scalar|, lastEscaped := Some(|scalar|))
  }

  function AfterByte(t: Scan): Scan
    requires t.rest != []
  {
    var ch, scalar := t.rest[0], t.scalar + [t.rest[0]];
    t.(rest := t.rest[1..], column := t.column + 1, scalar := scalar,
       lastNonWhitespace := if ch != SPACE && ch != TAB then |scalar| else t.lastNonWhitespace)
  }

  /** Leading blanks of a line. */
  function Blanks(s: seq<byte>): (n: nat)
    ensures n <= |s|
  {
    if Blank(s) then 1 + Blanks(s[1..]) else 0
  }

  /** Phases 2 and 3: the line break is eaten and folded. */
  function Fold(t: Scan): (r: Scan)
    requires Break(t.rest) > 0 && t.lastNonWhitespace <= |t.scalar|
    ensures |r.rest| < |t.rest| && r.lastNonWhitespace <= |r.scalar|
  {
    var line := t.rest[Break(t.rest)..];
    var rest := line[Blanks(line)..];
    var nextEmpty := Break(rest) > 0;
    var kept := t.scalar[..t.lastNonWhitespace];
    var scalar := if nextEmpty then kept + [NEWLINE]
                  else if !t.emptyLine && !t.escapedNewline then kept + [SPACE] else kept;
    t.(rest := rest, column := Blanks(line), scalar := scalar, lastNonWhitespace := |scalar|,
       escapedNewline := false, emptyLine := nextEmpty)
  }

  /** The loop of ScanScalar. It ends without complaint if the input is over
      when a new line is about to start. */
  function ScanLines(t: Scan): Result<Scan>
    decreases |t.rest|
  {
    if t.rest == [] then Ok(t) else
      match ScanLine(t.(lastNonWhitespace := |t.scalar|, escapedNewline := false))
      case Err(e) => Err(e)
      case Ok(u) =>
        if u.rest == [] then Err(EofInScalar)
        else if AtEnd(u.rest) then Ok(u.(rest := u.rest[1..], column := u.column + 1))
        else ScanLines(Fold(u))
  }

  /** Where the last byte is that is not a newline. */
  function LastNotNewline(s: seq<byte>): (r: Option<nat>)
    ensures r.Some? ==> r.value < |s|
  {
    if s == [] then None else if s[|s| - 1] != NEWLINE then Some(|s| - 1) else LastNotNewline(s[..|s| - 1])
  }

  /** Clips trailing newlines to one, but not those before the last escape. */
  function Clip(s: seq<byte>, lastEscaped: Option<nat>): seq<byte> {
    var pos := LastNotNewline(s);
    var end := if lastEscaped.Some? && (pos.None? || pos.value < lastEscaped.value) then lastEscaped else pos;
    if end.None? then [] else if end.value + 2 <= |s| then s[..end.value + 2] else s
  }

  datatype Scanned = Scanned(scalar: seq<byte>, rest: seq<byte>)

  /** ScanQuotedScalar at an opening double quote in the given column. */
  function ScanQuoted(s: seq<byte>, column: nat): Result<Scanned>
    requires s != []
  {
    match ScanLines(Scan(s[1..], column + 1, [], 0, None, false, false))
    case Err(e) => Err(e)
    case Ok(t) => Ok(Scanned(Clip(t.scalar, t.lastEscaped), t.rest))
  }

  // ---------- Hexadecimal escapes ----------

  function Power16(n: nat): nat { if n == 0 then 1 else 16 * Power16(n - 1) }

  lemma {:induction false} ParseHexDigits(v: nat, n: nat)
    requires v < Power16(n)
    ensures ParseHex(Hex(v, n)) == Some(v)
  {
    if n > 0 {
      var s := Hex(v, n);
      assert s[..|s| - 1] == Hex(v / 16, n - 1) && s[|s| - 1] == HexDigit(v % 16);
      ParseHexDigits(v / 16, n - 1);
    }
  }

  lemma {:induction false} GotPrefix(a: seq<byte>, b: seq<byte>)
    ensures NextBytes(a + b, |a|) == a && LeftAfter(a + b, |a|) == b
  {
    if a != [] {
      assert (a + b)[1..] == a[1..] + b;
      GotPrefix(a[1..], b);
      assert (a + b)[|a|..] == b;
    } else {
      assert a + b == b;
    }
  }

  lemma {:induction false} NumericEscape(letter: byte, cp: nat, n: nat, tail: seq<byte>)
    requires Good(cp) && cp < Power16(n) && n > 0 && CodeLength(letter) == n
    ensures Escape([BACKSLASH, letter] + Hex(cp, n) + tail) == Escaped(Ok(Encode(cp)), 2 + n)
  {
    var s := [BACKSLASH, letter] + Hex(cp, n) + tail;
    assert LeftAfter(s, 1)[0] == letter;
    assert LeftAfter(s, 2) == Hex(cp, n) + tail;
    GotPrefix(Hex(cp, n), tail);
    ParseHexDigits(cp, n);
  }

  /** The escape written for a code point reads back as its bytes. */
  lemma {:induction false} EscapeRoundTrip(cp: nat, tail: seq<byte>)
    requires Good(cp)
    ensures Escape(EscapeSequence(cp) + tail) == Escaped(Ok(Encode(cp)), |EscapeSequence(cp)|)
  {
    assert Power16(2) == 16 * Power16(1) && Power16(1) == 16 * Power16(0);
    assert Power16(4) == 16 * Power16(3) && Power16(3) == 16 * Power16(2);
    assert Power16(8) == 16 * Power16(7) && Power16(7) == 16 * Power16(6);
    assert Power16(6) == 16 * Power16(5) && Power16(5) == 16 * Power16(4);
    if cp < 0xFF { NumericEscape(0x78, cp, 2, tail); }
    else if cp < 0xFFFF { NumericEscape(0x75, cp, 4, tail); }
    else { NumericEscape(0x55, cp, 8, tail); }
  }

  /** The single-character escapes of section 5.7 of YAML 1.2 and their code points. */
  const YAML_ESCAPES: map<char, nat> := map[
    '0' := 0x00, 'a' := 0x07, 'b' := 0x08, 't' := 0x09, '\t' := 0x09, 'n' := 0x0A, 'v' := 0x0B, 'f' := 0x0C,
    'r' := 0x0D, 'e' := 0x1B, ' ' := 0x20, '"' := 0x22, '/' := 0x2F, '\\' := 0x5C, 'N' := 0x85, '_' := 0xA0,
    'L' := 0x2028, 'P' := 0x2029]

  /** The scanner knows these escapes and one for a single quote. Each stands for its code
      point in UTF-8, except the two between 0x80 and 0xFF, which stand for a single byte. */
  lemma {:induction false} EscapesMean(ch: byte)
    ensures Simple(ch).Some? <==> ch as char in YAML_ESCAPES || ch == 0x27
    ensures ch as char in YAML_ESCAPES ==>
              (Simple(ch) == Some(Encode(YAML_ESCAPES[ch as char])) <==> ch as char != 'N' && ch as char != '_')
    ensures Simple('N' as byte) == Some([0x85]) && Simple('_' as byte) == Some([0xA0])
  {
    assert Encode(0x85) == [0xC2, 0x85] && Encode(0xA0) == [0xC2, 0xA0];
    assert Encode(0x2028) == [0xE2, 0x80, 0xA8] && Encode(0x2029) == [0xE2, 0x80, 0xA9];
  }

  // ---------- What is never written ----------

  /** No control character is written, and nothing but printable ASCII if that is asked for. */
  lemma {:induction false} WrittenPrintable(s: seq<byte>, escapeNonAscii: bool)
    ensures forall b :: b in Write(s, escapeNonAscii) ==> b >= 0x20 && (escapeNonAscii ==> b <= 0x7E)
  {
    UnitsPrintable(CodePoints(s), escapeNonAscii);
  }

  lemma {:induction false} UnitsPrintable(cps: seq<nat>, escapeNonAscii: bool)
    ensures forall b :: b in Units(cps, escapeNonAscii) ==> b >= 0x20 && (escapeNonAscii ==> b <= 0x7E)
  {
    if cps != [] {
      UnitPrintable(cps[0], escapeNonAscii);
      UnitsPrintable(cps[1..], escapeNonAscii);
      hide Unit;
    }
  }

  lemma {:induction false} UnitPrintable(cp: nat, escapeNonAscii: bool)
    ensures forall b :: b in Unit(cp, escapeNonAscii) ==> b >= 0x20 && (escapeNonAscii ==> b <= 0x7E)
  {
    HexPrintable(cp, |EscapeSequence(cp)| - 2);
  }

  lemma {:induction false} HexPrintable(v: nat, n: nat)
    ensures forall b :: b in Hex(v, n) ==> 0x30 <= b <= 0x66
  {
    if n > 0 { HexPrintable(v / 16, n - 1); }
  }

  // ---------- What is written as it is ----------

  /** Printable characters that need no escape. */
  predicate Verbatim(cp: nat, escapeNonAscii: bool) {
    (0x20 <= cp <= 0x7E && cp != QUOTE && cp != BACKSLASH)
    || (!escapeNonAscii && (cp == 0x7F || 0xA0 < cp) && cp != 0xFEFF)
  }

  /** A string of such characters is written as it is. */
  lemma {:induction false} WrittenVerbatim(s: seq<byte>, escapeNonAscii: bool)
    requires WellFormed(s) && forall cp :: cp in CodePoints(s) ==> Verbatim(cp, escapeNonAscii)
    ensures Write(s, escapeNonAscii) == [QUOTE] + s + [QUOTE]
  {
    ReencodeIff(s);
    VerbatimUnits(CodePoints(s), escapeNonAscii);
  }

  lemma {:induction false} VerbatimUnits(cps: seq<nat>, escapeNonAscii: bool)
    requires forall cp :: cp in cps ==> Verbatim(cp, escapeNonAscii)
    ensures Units(cps, escapeNonAscii) == EncodeAll(cps)
  {
    if cps != [] {
      assert Verbatim(cps[0], escapeNonAscii);
      VerbatimUnits(cps[1..], escapeNonAscii);
      hide Encode;
    }
  }

  // ---------- Scanning what was written ----------

  /** Nothing at the end of the scalar would be clipped. */
  predicate Unclipped(t: Scan) {
    t.scalar == [] || t.scalar[|t.scalar| - 1] != NEWLINE || t.lastEscaped == Some(|t.scalar|)
  }

  lemma {:induction false} ClipKeeps(t: Scan)
    requires Unclipped(t)
    ensures Clip(t.scalar, t.lastEscaped) == t.scalar
  {
  }

  /** The scanner has taken in `bytes` more. */
  predicate Consumes(t: Scan, u: Scan, bytes: seq<byte>, tail: seq<byte>) {
    && u.rest == tail && u.column > 0 && u.scalar == t.scalar + bytes && u.lastNonWhitespace <= |u.scalar|
    && u.escapedNewline == t.escapedNewline && u.emptyLine == t.emptyLine && (Unclipped(t) ==> Unclipped(u))
  }

  predicate Ready(t: Scan) { t.column > 0 && t.lastNonWhitespace <= |t.scalar| }

  lemma {:induction false} ColumnMoves(column: nat, s: seq<byte>)
    requires s != [] && NEWLINE !in s
    ensures Column(column, s) > 0
  {
  }

  lemma {:induction false} HexPlain(v: nat, n: nat)
    ensures NEWLINE !in Hex(v, n)
  {
    if n > 0 { HexPlain(v / 16, n - 1); }
  }

  /** An escape is read as one step. */
  lemma {:induction false} ScanEscape(t: Scan, unit: seq<byte>, bytes: seq<byte>, tail: seq<byte>) returns (u: Scan)
    requires Ready(t) && t.rest == unit + tail && |unit| >= 2 && unit[0] == BACKSLASH && unit[1] != NEWLINE
             && unit[1] != RETURN
    requires NEWLINE !in unit && Escape(unit + tail) == Escaped(Ok(bytes), |unit|)
    ensures Ready(u) && Consumes(t, u, bytes, tail) && ScanLine(t) == ScanLine(u)
  {
    u := AfterEscape(t, bytes, |unit|);
    GotPrefix(unit, tail);
    ColumnMoves(t.column, unit);
    assert t.rest[1..][0] == unit[1];
  }

  /** A byte that means itself. */
  lemma {:induction false} ScanByte(t: Scan, b: byte, tail: seq<byte>) returns (u: Scan)
    requires Ready(t) && t.rest == [b] + tail && b != QUOTE && b != BACKSLASH && b != NEWLINE && b != RETURN
    ensures Ready(u) && Consumes(t, u, [b], tail) && ScanLine(t) == ScanLine(u)
  {
    u := AfterByte(t);
  }

  lemma {:induction false} ScanBytes(t: Scan, bytes: seq<byte>, tail: seq<byte>) returns (u: Scan)
    requires Ready(t) && t.rest == bytes + tail
    requires QUOTE !in bytes && BACKSLASH !in bytes && NEWLINE !in bytes && RETURN !in bytes
    ensures Ready(u) && Consumes(t, u, bytes, tail) && ScanLine(t) == ScanLine(u)
    decreases |bytes|
  {
    if bytes == [] {
      u := t;
    } else {
      var v := ScanByte(t, bytes[0], bytes[1..] + tail);
      u := ScanBytes(v, bytes[1..], tail);
    }
  }

  lemma {:induction false} EncodePlain(cp: nat)
    requires cp > 0x20
    requires cp != QUOTE && cp != BACKSLASH
    ensures forall b :: b in Encode(cp) ==> b > 0x20 && b != QUOTE && b != BACKSLASH
  {
  }

  /** What is written for one code point reads back as its bytes. */
  lemma {:induction false} ScanUnit(t: Scan, cp: nat, escapeNonAscii: bool, tail: seq<byte>) returns (u: Scan)
    requires Ready(t) && t.rest == Unit(cp, escapeNonAscii) + tail && Good(cp)
    ensures Ready(u) && Consumes(t, u, Encode(cp), tail) && ScanLine(t) == ScanLine(u)
  {
    var unit := Unit(cp, escapeNonAscii);
    if unit == EscapeSequence(cp) {
      EscapeRoundTrip(cp, tail);
      HexPlain(cp, |unit| - 2);
      u := ScanEscape(t, unit, Encode(cp), tail);
    } else if cp in {QUOTE, BACKSLASH, NEWLINE, TAB, RETURN, 0x08} {
      assert LeftAfter(unit + tail, 1)[0] == unit[1];
      u := ScanEscape(t, unit, Encode(cp), tail);
    } else {
      if cp == 0x20 { assert Encode(cp) == [0x20]; } else { EncodePlain(cp); }
      u := ScanBytes(t, unit, tail);
    }
  }

  lemma {:induction false} Joined(t: Scan, u: Scan, v: Scan, a: seq<byte>, b: seq<byte>, middle: seq<byte>,
      tail: seq<byte>)
    requires Consumes(t, u, a, middle) && Consumes(u, v, b, tail)
    ensures Consumes(t, v, a + b, tail)
  {
    assert t.scalar + a + b == t.scalar + (a + b);
  }

  lemma {:induction false} ScanUnits(t: Scan, cps: seq<nat>, escapeNonAscii: bool, tail: seq<byte>) returns (u: Scan)
    requires Ready(t) && t.rest == Units(cps, escapeNonAscii) + tail && AllGood(cps)
    ensures Ready(u) && Consumes(t, u, EncodeAll(cps), tail) && ScanLine(t) == ScanLine(u)
    decreases |cps|
  {
    if cps == [] {
      u := t;
    } else {
      UnitsSplit(cps, escapeNonAscii, tail);
      hide ScanLine, Unit, Units, Encode, Good, Ready, Consumes;
      var v := ScanUnit(t, cps[0], escapeNonAscii, Units(cps[1..], escapeNonAscii) + tail);
      u := ScanUnits(v, cps[1..], escapeNonAscii, tail);
      Joined(t, v, u, Encode(cps[0]), EncodeAll(cps[1..]), Units(cps[1..], escapeNonAscii) + tail, tail);
    }
  }

  lemma {:induction false} UnitsSplit(cps: seq<nat>, escapeNonAscii: bool, tail: seq<byte>)
    requires cps != []
    ensures Units(cps, escapeNonAscii) + tail == Unit(cps[0], escapeNonAscii) + (Units(cps[1..], escapeNonAscii) + tail)
    ensures EncodeAll(cps) == Encode(cps[0]) + EncodeAll(cps[1..])
  {
    hide Unit;
  }

  /** Whatever the string, the scanner gets the written code points back, and
      stops right behind the closing quote. */
  lemma {:induction false} ScanWritten(s: seq<byte>, escapeNonAscii: bool, column: nat, tail: seq<byte>)
    ensures ScanQuoted(Write(s, escapeNonAscii) + tail, column) == Ok(Scanned(EncodeAll(CodePoints(s)), tail))
  {
    var cps := CodePoints(s);
    var rest := Units(cps, escapeNonAscii) + ([QUOTE] + tail);
    assert (Write(s, escapeNonAscii) + tail)[1..] == rest;
    var t := Scan(rest, column + 1, [], 0, None, false, false);
    DecodedGood(s);
    var u := ScanUnits(t, cps, escapeNonAscii, [QUOTE] + tail);
    assert ScanLine(t) == Ok(u);
    assert u.rest[1..] == tail;
    ClipKeeps(u);
    assert t.scalar + EncodeAll(cps) == EncodeAll(cps);
  }

  /** Printing a string and scanning it returns the string exactly if it is
      UTF-8 of scalar values free of noncharacters. */
  lemma {:induction false} RoundTrip(s: seq<byte>, escapeNonAscii: bool, column: nat, tail: seq<byte>)
    ensures ScanQuoted(Write(s, escapeNonAscii) + tail, column) == Ok(Scanned(s, tail)) <==> WellFormed(s)
  {
    ScanWritten(s, escapeNonAscii, column, tail);
    ReencodeIff(s);
  }
}
