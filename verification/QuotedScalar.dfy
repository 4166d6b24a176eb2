/** The loops of emitterutils.cpp, exp.cpp and scanscalar.cpp: each computes the
    function of `Utf8` or `DoubleQuoted` that specifies it. */
module QuotedScalar {
  import opened Utf8
  import opened Wrappers
  import opened DoubleQuoted

  // ---------- The emitter ----------

  class Output {
    var text: seq<byte>

    constructor ()
      ensures text == []
    {
      text := [];
    }

    method Put(s: seq<byte>)
      modifies this
      ensures text == old(text) + s
    {
      text := text + s;
    }
  }

  /** Advances the iterator `first`. */
  method GetNextCodePointAndAdvance(str: seq<byte>, first: nat) returns (more: bool, codePoint: nat, next: nat)
    requires first <= |str|
    ensures more <==> first < |str|
    ensures more ==> codePoint == Next(str[first..]).cp && next == first + Next(str[first..]).used
  {
    more, codePoint, next := true, 0, first;
    if first == |str| {
      return false, 0, first;
    }
    ghost var s := str[first..];
    var nBytes := BytesIndicated(str[first]);
    if nBytes < 1 {
      return true, REPLACEMENT, first + 1;
    }
    if nBytes == 1 {
      return true, str[first], first + 1;
    }
    codePoint, next, nBytes := LeadBits(str[first], nBytes), first + 1, nBytes - 1;
    ghost var d := Gather(s, codePoint, 1, nBytes);
    while nBytes > 0
      invariant 0 <= nBytes && first < next <= |str|
      invariant Gather(s, codePoint, next - first, nBytes) == d
      decreases nBytes
    {
      if next == |str| || !IsTrailing(str[next]) {
        codePoint := REPLACEMENT;
        break;
      }
      codePoint := codePoint * 64 + str[next] % 64;
      next, nBytes := next + 1, nBytes - 1;
    }
    if codePoint > 0x10FFFF {
      codePoint := REPLACEMENT;
    } else if codePoint >= 0xD800 && codePoint <= 0xDFFF {
      codePoint := REPLACEMENT;
    } else if codePoint % 0x10000 >= 0xFFFE {
      codePoint := REPLACEMENT;
    } else if codePoint >= 0xFDD0 && codePoint <= 0xFDEF {
      codePoint := REPLACEMENT;
    }
  }

  method WriteDoubleQuoteEscapeSequence(out: Output, codePoint: nat)
    modifies out
    ensures out.text == old(out.text) + EscapeSequence(codePoint)
  {
    out.Put([BACKSLASH]);
    var digits := 8;
    if codePoint < 0xFF {
      out.Put([0x78]);
      digits := 2;
    } else if codePoint < 0xFFFF {
      out.Put([0x75]);
      digits := 4;
    } else {
      out.Put([0x55]);
    }
    ghost var n, before := digits, out.text;
    while digits > 0
      invariant 0 <= digits <= n
      invariant out.text == before + Hex(codePoint, n)[..n - digits]
    {
      var d := Shifted(codePoint, digits - 1) % 16;
      HexAt(codePoint, n, n - digits);
      out.Put([HexDigit(d)]);
      digits := digits - 1;
    }
    assert Hex(codePoint, n)[..n] == Hex(codePoint, n);
  }

  /** v >> 4 * k */
  function Shifted(v: nat, k: nat): nat { if k == 0 then v else Shifted(v / 16, k - 1) }

  /** Digit `j` of `n` is found by shifting. */
  lemma {:induction false} HexAt(v: nat, n: nat, j: nat)
    requires j < n
    ensures Hex(v, n)[j] == HexDigit(Shifted(v, n - 1 - j) % 16)
  {
    if j < n - 1 { HexAt(v / 16, n - 1, j); }
  }

  method WriteDoubleQuotedString(out: Output, str: seq<byte>, escapeNonAscii: bool)
    modifies out
    ensures out.text == old(out.text) + Write(str, escapeNonAscii)
  {
    hide Next, Unit;
    ghost var before := out.text;
    out.Put([QUOTE]);
    var i := 0;
    assert str[0..] == str;
    var more, codePoint, next := GetNextCodePointAndAdvance(str, i);
    while more
      invariant i <= |str| && (more <==> i < |str|)
      invariant more ==> codePoint == Next(str[i..]).cp && next == i + Next(str[i..]).used
      invariant out.text + Units(CodePoints(str[i..]), escapeNonAscii)
                == before + [QUOTE] + Units(CodePoints(str), escapeNonAscii)
      decreases |str| - i
    {
      UnitsStep(str[i..], escapeNonAscii);
      assert str[i..][Next(str[i..]).used..] == str[next..];
      WriteUnit(out, codePoint, escapeNonAscii);
      i := next;
      more, codePoint, next := GetNextCodePointAndAdvance(str, i);
    }
    assert str[i..] == [] && Units(CodePoints([]), escapeNonAscii) == [];
    ghost var units := Units(CodePoints(str), escapeNonAscii);
    assert out.text == before + [QUOTE] + units;
    out.Put([QUOTE]);
    assert before + ([QUOTE] + units + [QUOTE]) == before + [QUOTE] + units + [QUOTE];
  }

  lemma {:induction false} UnitsStep(s: seq<byte>, escapeNonAscii: bool)
    requires s != []
    ensures Units(CodePoints(s), escapeNonAscii)
            == Unit(Next(s).cp, escapeNonAscii) + Units(CodePoints(s[Next(s).used..]), escapeNonAscii)
  {
    assert CodePoints(s)[1..] == CodePoints(s[Next(s).used..]);
  }

  method WriteUnit(out: Output, codePoint: nat, escapeNonAscii: bool)
    modifies out
    ensures out.text == old(out.text) + Unit(codePoint, escapeNonAscii)
  {
    if codePoint == QUOTE {
      out.Put([BACKSLASH, QUOTE]);
    } else if codePoint == BACKSLASH {
      out.Put([BACKSLASH, BACKSLASH]);
    } else if codePoint == NEWLINE {
      out.Put([BACKSLASH, 0x6E]);
    } else if codePoint == TAB {
      out.Put([BACKSLASH, 0x74]);
    } else if codePoint == RETURN {
      out.Put([BACKSLASH, 0x72]);
    } else if codePoint == 0x08 {
      out.Put([BACKSLASH, 0x62]);
    } else if codePoint < 0x20 || 0x80 <= codePoint <= 0xA0 {
      WriteDoubleQuoteEscapeSequence(out, codePoint);
    } else if codePoint == 0xFEFF {
      WriteDoubleQuoteEscapeSequence(out, codePoint);
    } else if escapeNonAscii && codePoint > 0x7E {
      WriteDoubleQuoteEscapeSequence(out, codePoint);
    } else {
      out.Put(Encode(codePoint));
    }
  }

  // ---------- The scanner ----------

  class Stream {
    const bytes: seq<byte>
    var pos: nat
    var column: nat

    constructor (bytes: seq<byte>)
      ensures this.bytes == bytes && pos == 0 && column == 0
    {
      this.bytes, pos, column := bytes, 0, 0;
    }

    /** The input that is left. */
    function Left(): seq<byte>
      reads this
    {
      LeftAfter(bytes, pos)
    }

    predicate More()
      reads this
    {
      pos < |bytes|
    }

    method Get() returns (ch: byte)
      modifies this
      ensures ch == Peek(old(Left())) && Left() == LeftAfter(old(Left()), 1)
      ensures column == if ch == NEWLINE then 0 else old(column) + 1
    {
      ch := Peek(Left());
      if pos < |bytes| {
        pos := pos + 1;
      }
      column := column + 1;
      if ch == NEWLINE {
        column := 0;
      }
    }

    method Eat(n: nat)
      modifies this
      ensures Left() == LeftAfter(old(Left()), n) && column == Column(old(column), NextBytes(old(Left()), n))
    {
      ghost var s, c := Left(), column;
      for i := 0 to n
        invariant Left() == LeftAfter(s, i) && column == Column(c, NextBytes(s, i))
      {
        GotMore(s, i);
        ColumnMore(s, c, i);
        var _ := Get();
      }
    }

    /** The next bytes as a string. */
    method Grab(n: nat) returns (str: seq<byte>)
      modifies this
      ensures str == NextBytes(old(Left()), n)
      ensures Left() == LeftAfter(old(Left()), n) && column == Column(old(column), str)
    {
      ghost var s, c := Left(), column;
      str := [];
      for i := 0 to n
        invariant str == NextBytes(s, i) && Left() == LeftAfter(s, i) && column == Column(c, str)
      {
        GotMore(s, i);
        ColumnMore(s, c, i);
        var ch := Get();
        str := str + [ch];
      }
    }
  }

  lemma {:induction false} GotMore(s: seq<byte>, n: nat)
    ensures NextBytes(s, n + 1) == NextBytes(s, n) + [Peek(LeftAfter(s, n))]
            && LeftAfter(s, n + 1) == LeftAfter(LeftAfter(s, n), 1)
  {
    if n > 0 { GotMore(LeftAfter(s, 1), n - 1); }
    assert NextBytes(s, n + 1)[..n] == NextBytes(s, n) by {
      if n > 0 { assert NextBytes(s, n + 1) == [Peek(s)] + NextBytes(LeftAfter(s, 1), n); }
    }
  }

  lemma {:induction false} ColumnMore(s: seq<byte>, c: nat, n: nat)
    ensures Column(c, NextBytes(s, n + 1)) == if Peek(LeftAfter(s, n)) == NEWLINE then 0
            else Column(c, NextBytes(s, n)) + 1
  {
    GotMore(s, n);
    assert NextBytes(s, n + 1)[..n] == NextBytes(s, n);
  }

  method ParseHexString(str: seq<byte>) returns (value: Option<nat>)
    ensures value == ParseHex(str)
  {
    var v := 0;
    for i := 0 to |str|
      invariant ParseHex(str[..i]) == Some(v)
    {
      assert str[..i + 1][..i] == str[..i];
      var digit := DigitValue(str[i]);
      if digit.None? {
        HexStops(str, i + 1);
        return None;
      }
      v := v * 16 + digit.value;
    }
    assert str[..|str|] == str;
    value := Some(v);
  }

  lemma {:induction false} HexStops(str: seq<byte>, n: nat)
    requires n <= |str| && ParseHex(str[..n]).None?
    ensures ParseHex(str).None?
    decreases |str|
  {
    if n == |str| { assert str[..n] == str; } else {
      assert str[..|str| - 1][..n] == str[..n];
      HexStops(str[..|str| - 1], n);
    }
  }

  method ReadEscape(input: Stream) returns (bytes: Result<seq<byte>>)
    modifies input
    ensures bytes == Escape(old(input.Left())).bytes
    ensures bytes.Ok? ==> input.Left() == LeftAfter(old(input.Left()), Escape(old(input.Left())).used)
    ensures bytes.Ok? ==> input.column == Column(old(input.column), NextBytes(old(input.Left()), Escape(old(input.Left())).used))
  {
    ghost var s, c := input.Left(), input.column;
    var start := input.Grab(2);
    var ch := start[1];
    assert ch == Peek(LeftAfter(s, 1)) by { assert NextBytes(s, 2) == [Peek(s)] + NextBytes(LeftAfter(s, 1), 1); }
    if Simple(ch).Some? {
      return Ok(Simple(ch).value);
    }
    if CodeLength(ch) == 0 {
      return Err(InvalidEscape);
    }
    var digits := input.Grab(CodeLength(ch));
    RestSum(s, 2, CodeLength(ch));
    GotSum(s, c, 2, CodeLength(ch));
    var value := ParseHexString(digits);
    if value.None? {
      return Err(InvalidHex);
    }
    if 0xD800 <= value.value <= 0xDFFF || value.value > 0x10FFFF {
      return Err(InvalidUnicode);
    }
    bytes := Ok(Encode(value.value));
  }

  lemma {:induction false} RestSum(s: seq<byte>, m: nat, n: nat)
    ensures LeftAfter(LeftAfter(s, m), n) == LeftAfter(s, m + n)
  {
  }

  lemma {:induction false} GotSum(s: seq<byte>, c: nat, m: nat, n: nat)
    ensures Column(Column(c, NextBytes(s, m)), NextBytes(LeftAfter(s, m), n)) == Column(c, NextBytes(s, m + n))
  {
    if n == 0 {
      assert NextBytes(LeftAfter(s, m), 0) == [];
    } else {
      GotSum(s, c, m, n - 1);
      RestSum(s, m, n - 1);
      ColumnMore(LeftAfter(s, m), Column(c, NextBytes(s, m)), n - 1);
      ColumnMore(s, c, m + n - 1);
      hide *;
      assert m + n - 1 + 1 == m + n && n - 1 + 1 == n;
    }
  }

  lemma {:induction false} EscapeEats(s: seq<byte>)
    ensures Escape(s).used >= 2
  {
  }

  /** Phase 1 of ScanScalar: until the closing quote, a line break or the end. */
  method ScanToBreak(input: Stream, start: Scan) returns (result: Result<Scan>)
    requires start.rest == input.Left() && start.column == input.column && start.lastNonWhitespace <= |start.scalar|
    modifies input
    ensures result == ScanLine(start)
    ensures result.Ok? ==> input.Left() == result.value.rest && input.column == result.value.column
  {
    var scalar, lastNonWhitespace: nat, lastEscaped := start.scalar, start.lastNonWhitespace, start.lastEscaped;
    var escapedNewline := start.escapedNewline;
    hide Escape, DocIndicator, Column, NextBytes;
    while input.More() && !AtEnd(input.Left()) && Break(input.Left()) == 0
      invariant lastNonWhitespace <= |scalar|
      invariant ScanLine(Scan(input.Left(), input.column, scalar, lastNonWhitespace, lastEscaped, escapedNewline,
                start.emptyLine)) == ScanLine(start)
      decreases |input.Left()|
    {
      ghost var t := Scan(input.Left(), input.column, scalar, lastNonWhitespace, lastEscaped, escapedNewline,
          start.emptyLine);
      if input.column == 0 && DocIndicator(input.Left()) {
        return Err(DocInScalar);
      }
      if EscBreak(input.Left()) {
        var _ := input.Get();
        return Ok(Scan(input.Left(), input.column, scalar, |scalar|, Some(|scalar|), true, start.emptyLine));
      }
      if Peek(input.Left()) == BACKSLASH {
        EscapeEats(input.Left());
        var bytes := ReadEscape(input);
        if bytes.Err? {
          return Err(bytes.error);
        }
        scalar := scalar + bytes.value;
        lastNonWhitespace, lastEscaped := |scalar|, Some(|scalar|);
        continue;
      }
      var ch := input.Get();
      scalar := scalar + [ch];
      if ch != SPACE && ch != TAB {
        lastNonWhitespace := |scalar|;
      }
    }
    result := Ok(Scan(input.Left(), input.column, scalar, lastNonWhitespace, lastEscaped, escapedNewline,
        start.emptyLine));
  }

  /** Phases 2 and 3: the line break and the blanks after it. */
  method EatBreak(input: Stream)
    requires Break(input.Left()) > 0
    modifies input
    ensures var line := old(input.Left())[Break(old(input.Left()))..];
            input.Left() == line[Blanks(line)..] && input.column == Blanks(line)
  {
    ghost var line := input.Left()[Break(input.Left())..];
    BreakColumn(input.Left(), input.column);
    input.Eat(Break(input.Left()));
    while Blank(input.Left())
      invariant |input.Left()| <= |line| && input.column <= |line|
                && input.column + Blanks(input.Left()) == Blanks(line)
      invariant input.Left() == line[input.column..]
      decreases |input.Left()|
    {
      var _ := input.Get();
    }
  }

  lemma {:induction false} BreakColumn(s: seq<byte>, c: nat)
    requires Break(s) > 0
    ensures Column(c, NextBytes(s, Break(s))) == 0 && LeftAfter(s, Break(s)) == s[Break(s)..]
  {
    ColumnMore(s, c, Break(s) - 1);
    if Break(s) == 2 { assert LeftAfter(s, 1)[0] == NEWLINE; }
  }

  /** ScanScalar with the parameters ScanQuotedScalar gives it for a double quote. */
  method ScanScalar(input: Stream) returns (result: Result<seq<byte>>)
    modifies input
    ensures var r := ScanLines(Scan(old(input.Left()), old(input.column), [], 0, None, false, false));
            && (r.Err? ==> result == Err(r.error))
            && (r.Ok? ==> result == Ok(Clip(r.value.scalar, r.value.lastEscaped)) && input.Left() == r.value.rest)
  {
    var t := Scan(input.Left(), input.column, [], 0, None, false, false);
    ghost var goal := ScanLines(t);
    while input.More()
      invariant t.rest == input.Left() && t.column == input.column && t.lastNonWhitespace <= |t.scalar|
      invariant ScanLines(t) == goal
      decreases |t.rest|
    {
      var line := ScanToBreak(input, t.(lastNonWhitespace := |t.scalar|, escapedNewline := false));
      if line.Err? {
        return Err(line.error);
      }
      var u := line.value;
      if !input.More() {
        return Err(EofInScalar);
      }
      if AtEnd(input.Left()) {
        var _ := input.Get();
        return Ok(Clip(u.scalar, u.lastEscaped));
      }
      var scalar := u.scalar[..u.lastNonWhitespace];
      EatBreak(input);
      var nextEmptyLine := Break(input.Left()) > 0;
      if nextEmptyLine {
        scalar := scalar + [NEWLINE];
      } else if !u.emptyLine && !u.escapedNewline {
        scalar := scalar + [SPACE];
      }
      t := Scan(input.Left(), input.column, scalar, |scalar|, u.lastEscaped, false, nextEmptyLine);
      assert t == Fold(u);
    }
    result := Ok(Clip(t.scalar, t.lastEscaped));
  }

  /** ScanQuotedScalar at a double quote. */
  method ScanQuotedScalar(input: Stream) returns (result: Result<seq<byte>>)
    requires input.Left() != [] && input.Left()[0] == QUOTE
    modifies input
    ensures var r := ScanQuoted(old(input.Left()), old(input.column));
            && (r.Err? ==> result == Err(r.error))
            && (r.Ok? ==> result == Ok(r.value.scalar) && input.Left() == r.value.rest)
  {
    var _ := input.Get();
    result := ScanScalar(input);
  }
}
