/** Double-quoted scalars over several lines: the ways to write them down, and
    what the scanner makes of each. */
module FoldedScalar {
  import opened DoubleQuoted
  import opened UnclosedScalar
  import opened Wrappers

  /** A byte that means itself, or an escape sequence. */
  datatype Piece = Raw(b: byte) | Code(unit: seq<byte>)

  /** A line break, and the blanks behind it. */
  datatype LineBreak = LineBreak(withReturn: bool, blanks: seq<byte>)

  /** One or more breaks, the first of them behind a backslash or not, and the line after them. */
  datatype Row = Row(escaped: bool, breaks: seq<LineBreak>, line: seq<Piece>)

  // ---------- The text ----------

  function PieceText(p: Piece): seq<byte> { if p.Raw? then [p.b] else p.unit }

  function LineText(line: seq<Piece>): seq<byte> {
    if line == [] then [] else PieceText(line[0]) + LineText(line[1..])
  }

  function BreakText(b: LineBreak): seq<byte> { (if b.withReturn then [RETURN, NEWLINE] else [NEWLINE]) + b.blanks }

  function BreaksText(bs: seq<LineBreak>): seq<byte> {
    if bs == [] then [] else BreakText(bs[0]) + BreaksText(bs[1..])
  }

  /** What follows the first line, up to the closing quote and beyond. */
  function RowsText(rows: seq<Row>, tail: seq<byte>): seq<byte> {
    if rows == [] then [QUOTE] + tail else
      (if rows[0].escaped then [BACKSLASH] else [])
      + (BreaksText(rows[0].breaks) + (LineText(rows[0].line) + RowsText(rows[1..], tail)))
  }

  predicate RawBlank(p: Piece) { p == Raw(SPACE) || p == Raw(TAB) }

  /** A byte that is no quote, backslash or newline, or an escape that is accepted. */
  predicate GoodPiece(p: Piece) {
    match p
    case Raw(b) => b != QUOTE && b != BACKSLASH && b != NEWLINE
    case Code(unit) =>
      unit != [] && unit[0] == BACKSLASH && Escape(unit).bytes.Ok? && Escape(unit).used == |unit|
  }

  /** A line, if `tail` follows it: no carriage return in it is part of a break. */
  predicate GoodLine(line: seq<Piece>, tail: seq<byte>) {
    if line == [] then true else
      && GoodPiece(line[0]) && GoodLine(line[1..], tail)
      && (line[0] == Raw(RETURN) ==> Peek(LineText(line[1..]) + tail) != NEWLINE)
  }

  ghost predicate GoodBreaks(bs: seq<LineBreak>) {
    bs == [] || (AllBlank(bs[0].blanks) && GoodBreaks(bs[1..]))
  }

  /** Lines start behind the blanks and are not empty, except before the closing
      quote or an escaped break; no document indicator stands at the very start
      of a line. */
  ghost predicate GoodRows(rows: seq<Row>, tail: seq<byte>) {
    if rows == [] then true else
      var row, more := rows[0], RowsText(rows[1..], tail);
      && row.breaks != [] && GoodBreaks(row.breaks)
      && GoodLine(row.line, more)
      && (if row.line == [] then rows[1..] == [] || rows[1].escaped else !RawBlank(row.line[0]))
      && (row.breaks[|row.breaks| - 1].blanks == [] ==> !DocIndicator(LineText(row.line) + more))
      && GoodRows(rows[1..], tail)
  }

  // ---------- What it means ----------

  /** The bytes so far, and how many there were at the last escape. */
  datatype Text = Text(bytes: seq<byte>, escape: Option<nat>)

  function PieceAdded(t: Text, p: Piece): Text {
    match p
    case Raw(b) => Text(t.bytes + [b], t.escape)
    case Code(unit) =>
      if Escape(unit).bytes.Err? then t else
        var bytes := t.bytes + Escape(unit).bytes.value;
        Text(bytes, Some(|bytes|))
  }

  function LineAdded(t: Text, line: seq<Piece>): Text
    decreases line
  {
    if line == [] then t else LineAdded(PieceAdded(t, line[0]), line[1..])
  }

  /** The line without the blanks at its end; escaped blanks stay. */
  function Trimmed(line: seq<Piece>): seq<Piece> {
    if line == [] then [] else
      var rest := Trimmed(line[1..]);
      if rest == [] && RawBlank(line[0]) then [] else [line[0]] + rest
  }

  function Newlines(n: nat): seq<byte> { seq(n, _ => NEWLINE) }

  /** A single break is a space, or nothing if it is escaped; of more breaks the first goes. */
  function Joint(breaks: nat, escaped: bool): seq<byte> {
    if breaks > 1 then Newlines(breaks - 1) else if escaped then [] else [SPACE]
  }

  /** What is read when `t` is followed by a line and by more rows. */
  function Folded(t: Text, line: seq<Piece>, rows: seq<Row>): Text
    decreases rows
  {
    if rows == [] then LineAdded(t, line) else
      var row := rows[0];
      var kept := if row.escaped then Text(LineAdded(t, line).bytes, Some(|LineAdded(t, line).bytes|))
                  else LineAdded(t, Trimmed(line));
      Folded(Text(kept.bytes + Joint(|row.breaks|, row.escaped), kept.escape), row.line, rows[1..])
  }

  // ---------- Pieces ----------

  /** An escape is read the same whatever follows it. */
  lemma {:induction false} EscapeLocal(unit: seq<byte>, tail: seq<byte>)
    requires GoodPiece(Code(unit))
    ensures Escape(unit + tail) == Escape(unit) && |unit| >= 2 && unit[1] != NEWLINE && unit[1] != RETURN
    ensures LeftAfter(unit + tail, |unit|) == tail && NextBytes(unit + tail, |unit|) == unit
  {
    GotPrefix(unit, tail);
    var s := unit + tail;
    assert LeftAfter(unit, 1) == unit[1..] && Peek(LeftAfter(s, 1)) == unit[1];
    hide NextBytes, FromHex, Simple, CodeLength;
    if Simple(unit[1]).None? { DigitsLocal(unit, tail); }
  }

  lemma {:induction false} DigitsLocal(unit: seq<byte>, tail: seq<byte>)
    requires |unit| >= 2
    ensures NextBytes(LeftAfter(unit + tail, 2), |unit| - 2) == NextBytes(LeftAfter(unit, 2), |unit| - 2)
  {
    assert LeftAfter(unit + tail, 2) == unit[2..] + tail && LeftAfter(unit, 2) == unit[2..] + [];
    GotPrefix(unit[2..], tail);
    GotPrefix(unit[2..], []);
  }

  /** Where the scanner is between two pieces. */
  ghost predicate Reads(u: Scan, t: Scan, text: Text, lastNonWhitespace: nat, tail: seq<byte>) {
    && u.rest == tail && u.scalar == text.bytes && u.lastEscaped == text.escape
    && u.lastNonWhitespace == lastNonWhitespace <= |u.scalar|
    && u.escapedNewline == t.escapedNewline && u.emptyLine == t.emptyLine
  }

  function TextOf(t: Scan): Text { Text(t.scalar, t.lastEscaped) }

  lemma {:induction false} PieceRead(t: Scan, p: Piece, tail: seq<byte>) returns (u: Scan)
    requires t.rest == PieceText(p) + tail && GoodPiece(p) && t.lastNonWhitespace <= |t.scalar|
    requires p == Raw(RETURN) ==> Peek(tail) != NEWLINE
    requires t.column == 0 ==> !DocIndicator(t.rest)
    ensures var text := PieceAdded(TextOf(t), p);
            Reads(u, t, text, if RawBlank(p) then t.lastNonWhitespace else |text.bytes|, tail)
    ensures ScanLine(t) == ScanLine(u) && u.column > 0
  {
    hide DocIndicator, Escape;
    match p
    case Raw(b) =>
      u := AfterByte(t);
      assert t.rest[1..] == tail;
    case Code(unit) =>
      u := CodeRead(t, unit, tail);
  }

  lemma {:induction false} CodeRead(t: Scan, unit: seq<byte>, tail: seq<byte>) returns (u: Scan)
    requires t.rest == unit + tail && GoodPiece(Code(unit)) && t.lastNonWhitespace <= |t.scalar|
    requires t.column == 0 ==> !DocIndicator(t.rest)
    ensures Reads(u, t, PieceAdded(TextOf(t), Code(unit)), |PieceAdded(TextOf(t), Code(unit)).bytes|, tail)
    ensures ScanLine(t) == ScanLine(u) && u.column > 0
  {
    EscapeLocal(unit, tail);
    u := AfterEscape(t, Escape(unit).bytes.value, |unit|);
    EscapeHasNoBreak(unit);
    ColumnMoves(t.column, unit);
    assert t.rest[1..][0] == unit[1];
    hide DocIndicator, Escape, Column, NextBytes, LeftAfter;
  }

  lemma {:induction false} EscapeHasNoBreak(unit: seq<byte>)
    requires GoodPiece(Code(unit))
    ensures NEWLINE !in unit
  {
    EscapeInside(unit, 0);
  }

  // ---------- Lines ----------

  lemma {:induction false} TrimmedKeeps(t: Text, line: seq<Piece>)
    ensures var all, kept := LineAdded(t, line), LineAdded(t, Trimmed(line));
            t.bytes <= kept.bytes <= all.bytes && kept.escape == all.escape
    decreases line
  {
    if line != [] {
      hide Escape;
      TrimmedKeeps(PieceAdded(t, line[0]), line[1..]);
      if Trimmed(line) != [] { assert Trimmed(line)[1..] == Trimmed(line[1..]); }
    }
  }

  /** Phase 1 takes in a line; how much of it is kept depends on what stops it. */
  lemma {:induction false} LineRead(t: Scan, line: seq<Piece>, tail: seq<byte>) returns (u: Scan)
    requires t.rest == LineText(line) + tail && GoodLine(line, tail) && t.lastNonWhitespace <= |t.scalar|
    requires t.column == 0 ==> !DocIndicator(t.rest)
    ensures Reads(u, t, LineAdded(TextOf(t), line),
                  if Trimmed(line) == [] then t.lastNonWhitespace
                  else |LineAdded(TextOf(t), Trimmed(line)).bytes|, tail)
    ensures ScanLine(t) == ScanLine(u) && (u.column == 0 ==> line == [] && t.column == 0)
    decreases line
  {
    hide ScanLine, PieceText, PieceAdded, GoodPiece, DocIndicator, LineText, LineAdded, Trimmed, GoodLine;
    if line == [] {
      u := t;
      NoLine(TextOf(t), tail);
    } else {
      var more := LineText(line[1..]) + tail;
      FirstPiece(TextOf(t), line, tail);
      var v := PieceRead(t, line[0], more);
      u := LineRead(v, line[1..], tail);
    }
  }

  lemma {:induction false} NoLine(t: Text, tail: seq<byte>)
    ensures LineText([]) + tail == tail && LineAdded(t, []) == t && Trimmed([]) == []
  {
  }

  /** A line is its first piece and the others. */
  lemma {:induction false} FirstPiece(t: Text, line: seq<Piece>, tail: seq<byte>)
    requires line != [] && GoodLine(line, tail)
    ensures var rest := line[1..];
            && LineText(line) + tail == PieceText(line[0]) + (LineText(rest) + tail)
            && GoodPiece(line[0]) && GoodLine(rest, tail)
            && (line[0] == Raw(RETURN) ==> Peek(LineText(rest) + tail) != NEWLINE)
            && LineAdded(t, line) == LineAdded(PieceAdded(t, line[0]), rest)
            && (if Trimmed(line) == [] then Trimmed(rest) == [] && RawBlank(line[0])
                else LineAdded(t, Trimmed(line)) == LineAdded(PieceAdded(t, line[0]), Trimmed(rest))
                     && (Trimmed(rest) == [] ==> !RawBlank(line[0])))
            && LineAdded(PieceAdded(t, line[0]), []) == PieceAdded(t, line[0])
  {
    hide PieceText, PieceAdded, GoodPiece;
    if Trimmed(line) != [] { assert Trimmed(line)[1..] == Trimmed(line[1..]) && Trimmed(line)[0] == line[0]; }
  }

  // ---------- Breaks ----------

  /** At a break, with a space to be written if it is the only one. */
  function JointFrom(breaks: nat, plain: bool): seq<byte> {
    if breaks <= 1 then (if plain then [SPACE] else []) else [NEWLINE] + JointFrom(breaks - 1, false)
  }

  lemma {:induction false} JointIs(breaks: nat, escaped: bool)
    requires breaks > 0
    ensures JointFrom(breaks, !escaped) == Joint(breaks, escaped)
  {
    if breaks > 1 {
      JointIs(breaks - 1, true);
      assert Newlines(breaks - 1) == [NEWLINE] + Newlines(breaks - 2);
    }
  }

  lemma {:induction false} BlanksFirst(blanks: seq<byte>, rest: seq<byte>)
    requires AllBlank(blanks) && !Blank(rest)
    ensures Blanks(blanks + rest) == |blanks| && (blanks + rest)[|blanks|..] == rest
  {
    if blanks == [] {
      assert blanks + rest == rest;
    } else {
      assert (blanks + rest)[1..] == blanks[1..] + rest;
      BlanksFirst(blanks[1..], rest);
    }
  }

  lemma {:induction false} BreakFirst(b: LineBreak, rest: seq<byte>)
    requires AllBlank(b.blanks) && !Blank(rest)
    ensures var s := BreakText(b) + rest;
            Break(s) > 0 && NextLine(s) == rest && Blanks(s[Break(s)..]) == |b.blanks|
  {
    var s := BreakText(b) + rest;
    BlanksFirst(b.blanks, rest);
    assert s[if b.withReturn then 2 else 1..] == b.blanks + rest;
  }

  lemma {:induction false} BreaksFirst(bs: seq<LineBreak>, rest: seq<byte>)
    requires bs != []
    ensures var s := BreaksText(bs) + rest; Break(s) > 0 && !Blank(s) && !AtEnd(s)
  {
    assert BreaksText(bs) + rest == BreakText(bs[0]) + (BreaksText(bs[1..]) + rest);
    var s := BreakText(bs[0]) + (BreaksText(bs[1..]) + rest);
    assert s[0] == BreakText(bs[0])[0] && (bs[0].withReturn ==> s[1] == NEWLINE);
  }

  /** The scanner behind a break. */
  lemma {:induction false} FoldIs(u: Scan, b: LineBreak, rest: seq<byte>, empty: bool)
    requires u.rest == BreakText(b) + rest && u.lastNonWhitespace <= |u.scalar|
    requires AllBlank(b.blanks) && !Blank(rest) && empty == (Break(rest) > 0)
    ensures Break(u.rest) > 0
    ensures var kept := u.scalar[..u.lastNonWhitespace]
                        + (if empty then [NEWLINE] else if !u.emptyLine && !u.escapedNewline then [SPACE] else []);
            Fold(u) == Scan(rest, |b.blanks|, kept, |kept|, u.lastEscaped, false, empty)
  {
    BreakFirst(b, rest);
    assert u.scalar[..u.lastNonWhitespace] + [] == u.scalar[..u.lastNonWhitespace];
  }

  /** A run of breaks is folded. */
  lemma {:induction false} BreaksRead(u: Scan, bs: seq<LineBreak>, rest: seq<byte>) returns (v: Scan)
    requires bs != [] && GoodBreaks(bs) && u.rest == BreaksText(bs) + rest && u.lastNonWhitespace <= |u.scalar|
    requires !Blank(rest) && Break(rest) == 0
    ensures Break(u.rest) > 0 && ScanLines(Fold(u)) == ScanLines(v)
    ensures var kept := u.scalar[..u.lastNonWhitespace] + JointFrom(|bs|, !u.emptyLine && !u.escapedNewline);
            v == Scan(rest, |bs[|bs| - 1].blanks|, kept, |kept|, u.lastEscaped, false, false)
    decreases |bs|
  {
    hide Fold, ScanLines, ScanLine, Break, Blanks, BreakText, BreaksText, Blank, AllBlank;
    var more := BreaksText(bs[1..]) + rest;
    BreaksSplit(bs, rest);
    if |bs| == 1 {
      FoldIs(u, bs[0], rest, false);
      v := Fold(u);
    } else {
      BreaksFirst(bs[1..], rest);
      FoldIs(u, bs[0], more, true);
      var w := Fold(u);
      FoldsAgain(w);
      v := BreaksRead(w, bs[1..], rest);
      AllKept(w.scalar);
      Grouped(u.scalar[..u.lastNonWhitespace], [NEWLINE], JointFrom(|bs| - 1, false));
    }
  }

  lemma {:induction false} BreaksSplit(bs: seq<LineBreak>, rest: seq<byte>)
    requires bs != []
    ensures BreaksText(bs) + rest == BreakText(bs[0]) + (BreaksText(bs[1..]) + rest)
    ensures |bs| == 1 ==> BreaksText(bs[1..]) + rest == rest
  {
    hide BreakText;
  }

  lemma {:induction false} Grouped(a: seq<byte>, b: seq<byte>, c: seq<byte>)
    ensures a + b + c == a + (b + c)
  {
  }

  lemma {:induction false} AllKept(s: seq<byte>)
    ensures s[..|s|] == s
  {
  }

  /** An empty line. */
  lemma {:induction false} FoldsAgain(w: Scan)
    requires Break(w.rest) > 0 && w.lastNonWhitespace == |w.scalar| && !w.escapedNewline && !AtEnd(w.rest)
    ensures ScanLines(w) == ScanLines(Fold(w))
  {
    assert w.(lastNonWhitespace := |w.scalar|, escapedNewline := false) == w;
    assert ScanLine(w) == Ok(w);
  }

  // ---------- Rows ----------

  /** Behind the blanks there is no blank and no break. */
  lemma {:induction false} RowStart(rows: seq<Row>, tail: seq<byte>)
    requires rows != [] && GoodRows(rows, tail)
    ensures var next := LineText(rows[0].line) + RowsText(rows[1..], tail); !Blank(next) && Break(next) == 0
  {
    var line, more := rows[0].line, RowsText(rows[1..], tail);
    hide BreaksText, DocIndicator, Escape;
    if line == [] {
      assert LineText(line) + more == more;
      assert more[0] == QUOTE || more[0] == BACKSLASH;
    } else {
      assert LineText(line) + more == PieceText(line[0]) + (LineText(line[1..]) + more);
    }
  }

  /** Where phase 1 stops before a row: the break, with a backslash before it eaten. */
  function Stopped(u: Scan, escaped: bool): Scan
    requires escaped ==> u.rest != []
  {
    if escaped then
      u.(rest := u.rest[1..], column := u.column + 1, lastNonWhitespace := |u.scalar|, lastEscaped := Some(|u.scalar|),
         escapedNewline := true)
    else u
  }

  lemma {:induction false} RowStops(u: Scan, escaped: bool, bs: seq<LineBreak>, next: seq<byte>)
    requires bs != [] && u.rest == (if escaped then [BACKSLASH] else []) + (BreaksText(bs) + next)
    requires u.lastNonWhitespace <= |u.scalar| && (u.column == 0 ==> !DocIndicator(u.rest))
    ensures u.rest != [] && ScanLine(u) == Ok(Stopped(u, escaped)) && Stopped(u, escaped).rest == BreaksText(bs) + next
    ensures BreaksText(bs) + next != [] && !AtEnd(BreaksText(bs) + next)
  {
    BreaksFirst(bs, next);
    hide DocIndicator, BreaksText;
    if escaped {
      assert u.rest[1..] == BreaksText(bs) + next;
    } else {
      assert u.rest == BreaksText(bs) + next;
    }
  }

  lemma {:induction false} ClosingStops(u: Scan, tail: seq<byte>)
    requires u.rest == [QUOTE] + tail && u.lastNonWhitespace <= |u.scalar|
    ensures ScanLine(u) == Ok(u) && AtEnd(u.rest) && u.rest[1..] == tail
  {
  }

  /** One round of the loop. */
  lemma {:induction false} Round(t: Scan, v: Scan, u: Scan)
    requires t.rest != [] && t.lastNonWhitespace == |t.scalar| && !t.escapedNewline && u.rest != []
    requires v.lastNonWhitespace <= |v.scalar| && ScanLine(t) == ScanLine(v) == Ok(u)
    ensures u.lastNonWhitespace <= |u.scalar|
    ensures AtEnd(u.rest) ==> ScanLines(t) == Ok(u.(rest := u.rest[1..], column := u.column + 1))
    ensures !AtEnd(u.rest) ==> Break(u.rest) > 0 && ScanLines(t) == ScanLines(Fold(u))
  {
    assert t.(lastNonWhitespace := |t.scalar|, escapedNewline := false) == t;
    hide ScanLine, Fold;
  }

  /** What is kept of a line in front of a break. */
  lemma {:induction false} KeptIs(t: Scan, line: seq<Piece>, u: Scan, escaped: bool, tail: seq<byte>)
    requires t.lastNonWhitespace == |t.scalar| && u.rest != []
    requires Reads(u, t, LineAdded(TextOf(t), line),
                   if Trimmed(line) == [] then t.lastNonWhitespace
                   else |LineAdded(TextOf(t), Trimmed(line)).bytes|, tail)
    ensures var s, all := Stopped(u, escaped), LineAdded(TextOf(t), line);
            Text(s.scalar[..s.lastNonWhitespace], s.lastEscaped)
            == if escaped then Text(all.bytes, Some(|all.bytes|)) else LineAdded(TextOf(t), Trimmed(line))
  {
    TrimmedKeeps(TextOf(t), line);
    hide PieceAdded;
  }

  /** Where the scanner starts a line. */
  ghost predicate AtLine(t: Scan, text: Text, rest: seq<byte>) {
    && t.rest == rest && TextOf(t) == text && t.lastNonWhitespace == |t.scalar| && !t.escapedNewline && !t.emptyLine
    && (t.column == 0 ==> !DocIndicator(rest))
  }

  /** One line, and the breaks behind it. */
  lemma {:induction false} RowRead(t: Scan, text: Text, line: seq<Piece>, escaped: bool, bs: seq<LineBreak>,
      next: seq<byte>) returns (v: Scan)
    requires var more := (if escaped then [BACKSLASH] else []) + (BreaksText(bs) + next);
             AtLine(t, text, LineText(line) + more) && GoodLine(line, more)
    requires bs != [] && GoodBreaks(bs) && !Blank(next) && Break(next) == 0
             && (bs[|bs| - 1].blanks == [] ==> !DocIndicator(next))
    ensures ScanLines(t) == ScanLines(v)
    ensures var kept := if escaped then Text(LineAdded(text, line).bytes, Some(|LineAdded(text, line).bytes|))
                        else LineAdded(text, Trimmed(line));
            AtLine(v, Text(kept.bytes + Joint(|bs|, escaped), kept.escape), next)
  {
    hide ScanLines, ScanLine, Fold, LineAdded, GoodLine, DocIndicator, BreaksText, LineText, Trimmed, AtEnd, Break,
        Blank, GoodBreaks, JointFrom, Joint;
    var more := (if escaped then [BACKSLASH] else []) + (BreaksText(bs) + next);
    var u := LineRead(t, line, more);
    EmptyLine(t, line, more);
    RowStops(u, escaped, bs, next);
    var s := Stopped(u, escaped);
    Round(t, u, s);
    KeptIs(t, line, u, escaped, more);
    v := BreaksRead(s, bs, next);
    JointIs(|bs|, escaped);
  }

  /** The rest of a scalar, from the start of a line. */
  lemma {:induction false} RowsRead(t: Scan, text: Text, line: seq<Piece>, rows: seq<Row>, tail: seq<byte>)
      returns (w: Scan)
    requires AtLine(t, text, LineText(line) + RowsText(rows, tail))
    requires GoodLine(line, RowsText(rows, tail)) && GoodRows(rows, tail)
    ensures ScanLines(t) == Ok(w) && w.rest == tail && TextOf(w) == Folded(text, line, rows)
    decreases rows
  {
    hide ScanLines, ScanLine, Fold, LineAdded, GoodLine, DocIndicator, BreaksText, LineText, Trimmed, AtEnd, Break,
        Blank;
    if rows == [] {
      var u := LineRead(t, line, [QUOTE] + tail);
      ClosingStops(u, tail);
      Round(t, u, u);
      w := u.(rest := tail, column := u.column + 1);
    } else {
      var row, next := rows[0], LineText(rows[0].line) + RowsText(rows[1..], tail);
      RowStart(rows, tail);
      hide AtLine, GoodBreaks, Joint;
      var v := RowRead(t, text, line, row.escaped, row.breaks, next);
      var kept := if row.escaped then Text(LineAdded(text, line).bytes, Some(|LineAdded(text, line).bytes|))
                  else LineAdded(text, Trimmed(line));
      w := RowsRead(v, Text(kept.bytes + Joint(|row.breaks|, row.escaped), kept.escape), row.line, rows[1..], tail);
    }
  }

  lemma {:induction false} EmptyLine(t: Scan, line: seq<Piece>, more: seq<byte>)
    requires t.rest == LineText(line) + more
    ensures line == [] ==> t.rest == more
  {
  }

  /** However a double-quoted scalar is laid out over lines, the scanner reads
      the folded lines, with the newlines at the very end clipped, and stops
      behind the closing quote. */
  lemma {:induction false} ScanFolded(line: seq<Piece>, rows: seq<Row>, column: nat, tail: seq<byte>)
    requires GoodLine(line, RowsText(rows, tail)) && GoodRows(rows, tail)
    ensures var r := Folded(Text([], None), line, rows);
            ScanQuoted([QUOTE] + (LineText(line) + RowsText(rows, tail)), column)
            == Ok(Scanned(Clip(r.bytes, r.escape), tail))
  {
    var text := LineText(line) + RowsText(rows, tail);
    assert ([QUOTE] + text)[1..] == text;
    hide ScanLines, GoodLine, GoodRows, LineText, RowsText, Folded, Clip;
    var w := RowsRead(Scan(text, column + 1, [], 0, None, false, false), Text([], None), line, rows, tail);
  }

  /** Of the newlines at the end one is kept, or none if there is nothing else; those up to the
      last escape and two more bytes are safe. */
  lemma {:induction false} ClipIs(body: seq<byte>, n: nat, escape: Option<nat>)
    requires body == [] || body[|body| - 1] != NEWLINE
    requires escape.Some? ==> escape.value <= |body| + n
    ensures var s := body + Newlines(n);
            Clip(s, escape)
            == if escape.Some? && escape.value >= |body| then s[..if escape.value + 2 <= |s| then escape.value + 2 else |s|]
               else if body == [] then [] else body + Newlines(if n < 1 then n else 1)
  {
    LastIs(body, n);
    if n > 0 && body != [] { assert (body + Newlines(n))[..|body| + 1] == body + Newlines(1); }
    if n == 0 { assert body + Newlines(0) == body; }
    hide LastNotNewline;
  }

  lemma {:induction false} LastIs(body: seq<byte>, n: nat)
    requires body == [] || body[|body| - 1] != NEWLINE
    ensures LastNotNewline(body + Newlines(n)) == if body == [] then None else Some(|body| - 1)
  {
    if n > 0 {
      assert (body + Newlines(n))[..|body| + n - 1] == body + Newlines(n - 1);
      LastIs(body, n - 1);
    } else {
      assert body + Newlines(0) == body;
    }
  }

  // ---------- Lines without escapes ----------

  /** Bytes that mean themselves, the first and the last of them no blanks. */
  ghost predicate PlainLine(s: seq<byte>) {
    && QUOTE !in s && BACKSLASH !in s && NEWLINE !in s && RETURN !in s
    && s != [] && !Blank(s) && !Blank(s[|s| - 1..])
  }

  function Raws(s: seq<byte>): seq<Piece> { if s == [] then [] else [Raw(s[0])] + Raws(s[1..]) }

  lemma {:induction false} RawsAre(s: seq<byte>, t: Text, tail: seq<byte>)
    requires QUOTE !in s && BACKSLASH !in s && NEWLINE !in s && RETURN !in s
    ensures LineText(Raws(s)) == s && GoodLine(Raws(s), tail) && LineAdded(t, Raws(s)) == Text(t.bytes + s, t.escape)
    ensures s != [] && !Blank(s[|s| - 1..]) ==> Trimmed(Raws(s)) == Raws(s)
  {
    if s == [] {
      assert t.bytes + [] == t.bytes;
    } else {
      var next := Text(t.bytes + [s[0]], t.escape);
      RawsAre(s[1..], next, tail);
      RawsSplit(s, t);
      if |s| > 1 { assert s[1..][|s| - 2..] == s[|s| - 1..]; }
      hide Escape, Raws, Blank, DocIndicator;
    }
  }

  lemma {:induction false} RawsSplit(s: seq<byte>, t: Text)
    requires s != []
    ensures Raws(s) != [] && Raws(s)[0] == Raw(s[0]) && Raws(s)[1..] == Raws(s[1..]) && [Raw(s[0])] + Raws(s[1..]) == Raws(s)
    ensures [s[0]] + s[1..] == s && t.bytes + [s[0]] + s[1..] == t.bytes + s
  {
  }

  lemma {:induction false} BareBreaks(n: nat)
    ensures var bs := seq(n, _ => LineBreak(false, []));
            BreaksText(bs) == Newlines(n) && GoodBreaks(bs)
  {
    if n > 0 {
      assert seq(n, _ => LineBreak(false, []))[1..] == seq(n - 1, _ => LineBreak(false, []));
      BareBreaks(n - 1);
      assert Newlines(n) == [NEWLINE] + Newlines(n - 1);
    }
  }

  /** The scanner on a line and `n` breaks. */
  lemma {:induction false} ScanRow(a: seq<byte>, n: nat, escaped: bool, b: seq<byte>, column: nat)
    requires PlainLine(a) && n > 0 && (b == [] || PlainLine(b)) && !DocIndicator(b + [QUOTE])
    ensures var bytes := a + Joint(n, escaped) + b;
            ScanQuoted([QUOTE] + (a + ((if escaped then [BACKSLASH] else []) + (Newlines(n) + (b + [QUOTE])))), column)
            == Ok(Scanned(Clip(bytes, if escaped then Some(|a|) else None), []))
  {
    var none := Text([], None);
    var bs := seq(n, _ => LineBreak(false, []));
    var row := Row(escaped, bs, Raws(b));
    BareBreaks(n);
    RawsAre(a, none, RowsText([row], []));
    RawsAre(b, Text(a + Joint(n, escaped), if escaped then Some(|a|) else None), [QUOTE] + []);
    assert [] + a == a && [QUOTE] + [] == [QUOTE] && [row][1..] == [];
    hide GoodLine, LineText, LineAdded, Trimmed, DocIndicator, ScanQuoted, Clip, Joint, GoodBreaks, BreaksText;
    if b != [] { assert Raws(b)[0] == Raw(b[0]); }
    ScanFolded(Raws(a), [row], column, []);
  }

  /** Between two lines a break becomes a space, or nothing behind a backslash, and one of more breaks goes. */
  lemma {:induction false} TwoLines(a: seq<byte>, n: nat, escaped: bool, b: seq<byte>, column: nat)
    requires PlainLine(a) && n > 0 && PlainLine(b) && !DocIndicator(b + [QUOTE])
    ensures ScanQuoted([QUOTE] + (a + ((if escaped then [BACKSLASH] else []) + (Newlines(n) + (b + [QUOTE])))), column)
            == Ok(Scanned(a + (if n > 1 then Newlines(n - 1) else if escaped then [] else [SPACE]) + b, []))
  {
    ScanRow(a, n, escaped, b, column);
    var bytes := a + Joint(n, escaped) + b;
    assert bytes[|bytes| - 1] == b[|b| - 1] && bytes + Newlines(0) == bytes;
    ClipIs(bytes, 0, if escaped then Some(|a|) else None);
  }

  /** At the end of a scalar they do the same only if they are no more than two. */
  lemma {:induction false} TrailingBreaks(a: seq<byte>, n: nat, column: nat)
    requires PlainLine(a) && n > 0
    ensures ScanQuoted([QUOTE] + (a + Newlines(n) + [QUOTE]), column)
            == Ok(Scanned(a + (if n > 1 then [NEWLINE] else [SPACE]), []))
    ensures ScanQuoted([QUOTE] + (a + Newlines(n) + [QUOTE]), column) == Ok(Scanned(a + Joint(n, false), []))
            <==> n <= 2
  {
    assert a + ([] + (Newlines(n) + ([] + [QUOTE]))) == a + Newlines(n) + [QUOTE];
    ScanRow(a, n, false, [], column);
    assert a + Joint(n, false) + [] == a + Joint(n, false);
    if n > 1 {
      ClipIs(a, n - 1, None);
      assert Newlines(1) == [NEWLINE];
    } else {
      assert a + [SPACE] + Newlines(0) == a + [SPACE];
      ClipIs(a + [SPACE], 0, None);
    }
  }
}
